/** The common part of all watchers, and the fields that the modelled watcher types add to
    it (libev's `union ev_any_watcher`). */
module Watchers {

  const EV_MINPRI := -2
  const EV_MAXPRI := 2
  const NUMPRI := 5

  const EV_TIMER: bv32 := 0x100
  const EV_PERIODIC: bv32 := 0x200
  const EV_ERROR: bv32 := 0x8000_0000

  datatype Kind = Io | Timer | Periodic | Prepare | Check | Fork | Cleanup | Async | Idle | Dummy

  class Watcher {
    const kind: Kind
    // ev_watcher
    var active: int
    var pending: nat
    var priority: int
    // ev_watcher_list, ev_io
    var next: Watcher?
    var fd: int
    var events: bv8
    // ev_watcher_time, ev_timer, ev_periodic
    var at: real
    var repeat: real
    var offset: real
    var interval: real
    var reschedule: bool // whether reschedule_cb is set

    /** `ev_init` */
    constructor (kind: Kind)
      ensures active == 0 && pending == 0 && priority == 0 && this.kind == kind
    {
      this.kind := kind;
      active, pending, priority, next := 0, 0, 0, null;
    }

    /** `ABSPRI` */
    function Pri(): int
      reads this`priority
    {
      priority - EV_MINPRI
    }
  }
}
