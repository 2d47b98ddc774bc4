/** The event bits that the io watchers and the backends share, and the generation counter of the
    descriptors. */
module Events {
  const EV_READ: bv8 := 0x01
  const EV_WRITE: bv8 := 0x02
  const DIRECTIONS: bv8 := EV_READ | EV_WRITE

  const GENERATIONS := 0x1_0000_0000

  /** `egen`, an `unsigned int` */
  type Gen = g: int | 0 <= g < GENERATIONS
}
