/** The select backend (its variant with own bit vectors): growable vectors of machine words
    with one bit for each descriptor and direction. */
module SelectSets {
  import opened Events

  const NFDBITS := 64

  /** A bit number as a shift distance. */
  function Distance(b: nat): bv6
    requires b < NFDBITS
  {
    b as bv6
  }

  function Bit(b: nat): bv64
    requires b < NFDBITS
  {
    (1 as bv64) << Distance(b)
  }

  lemma DistanceIs(b: nat)
    requires b < NFDBITS
    ensures Distance(b) as int == b
  {
  }

  lemma DistancesDiffer(b: nat, c: nat)
    requires b < NFDBITS && c < NFDBITS && b != c
    ensures Distance(b) != Distance(c)
  {
    DistanceIs(b);
    DistanceIs(c);
    hide Distance;
  }

  lemma BitsDiffer(b: nat, c: nat)
    requires b < NFDBITS && c < NFDBITS && b != c
    ensures Bit(b) & Bit(c) == 0
  {
    hide Distance;
    DistancesDiffer(b, c);
  }

  lemma BitSet(b: nat)
    requires b < NFDBITS
    ensures Bit(b) != 0
  {
    hide Distance;
  }

  predicate Has(w: bv64, m: bv64) { w & m != 0 }

  function On(w: bv64, m: bv64): bv64 { w | m }

  function Off(w: bv64, m: bv64): bv64 { w & !m }

  lemma OnHas(w: bv64, m: bv64)
    requires m != 0
    ensures Has(On(w, m), m)
  {
  }

  lemma OffHas(w: bv64, m: bv64)
    ensures !Has(Off(w, m), m)
  {
  }

  lemma OnOther(w: bv64, m: bv64, k: bv64)
    requires m & k == 0
    ensures Has(On(w, m), k) == Has(w, k)
  {
  }

  lemma OffOther(w: bv64, m: bv64, k: bv64)
    requires m & k == 0
    ensures Has(Off(w, m), k) == Has(w, k)
  {
  }

  predicate IsSet(v: seq<bv64>, fd: int) {
    0 <= fd && fd / NFDBITS < |v| && Has(v[fd / NFDBITS], Bit(fd % NFDBITS))
  }

  /** The direction bits of `fd` in a pair of vectors. */
  function MaskIn(r: seq<bv64>, w: seq<bv64>, fd: int): bv8 {
    (if IsSet(r, fd) then EV_READ else 0) | (if IsSet(w, fd) then EV_WRITE else 0)
  }

  /** What `select_modify` does to one vector. */
  function PutBit(v: seq<bv64>, fd: nat, on: bool): seq<bv64>
    requires fd / NFDBITS < |v|
  {
    var word, mask := fd / NFDBITS, Bit(fd % NFDBITS);
    v[word := if on then On(v[word], mask) else Off(On(v[word], mask), mask)]
  }

  lemma PutBitSets(v: seq<bv64>, fd: nat, on: bool, x: int)
    requires fd / NFDBITS < |v|
    ensures IsSet(PutBit(v, fd, on), x) <==> if x == fd then on else IsSet(v, x)
  {
    hide Bit, Has, On, Off;
    var word, mask := fd / NFDBITS, Bit(fd % NFDBITS);
    var w := v[word];
    BitSet(fd % NFDBITS);
    if x >= 0 && x / NFDBITS == word {
      if x == fd {
        OnHas(w, mask);
        OffHas(On(w, mask), mask);
      } else {
        var k := Bit(x % NFDBITS);
        BitsDiffer(fd % NFDBITS, x % NFDBITS);
        OnOther(w, mask, k);
        OffOther(On(w, mask), mask, k);
      }
    }
  }

  lemma GrowKeeps(v: seq<bv64>, n: nat, x: int)
    ensures IsSet(v + seq(n, _ => 0), x) <==> IsSet(v, x)
  {
  }

  class SelectSet {
    var vec_ri: seq<bv64>
    var vec_wi: seq<bv64>

    ghost predicate Valid()
      reads this
    {
      |vec_ri| == |vec_wi| // vec_max
    }

    function Mask(fd: int): bv8
      reads this
    {
      MaskIn(vec_ri, vec_wi, fd)
    }

    constructor ()
      ensures Valid() && forall fd :: Mask(fd) == 0
    {
      vec_ri, vec_wi := [], [];
    }

    /** `select_modify`: afterwards exactly the bits of `nev` are set for `fd`. */
    method Modify(fd: int, oev: bv8, nev: bv8)
      requires Valid() && 0 <= fd && nev & (EV_READ | EV_WRITE) == nev
      modifies this
      ensures Valid()
      ensures Mask(fd) == if oev == nev then old(Mask(fd)) else nev
      ensures forall x :: x != fd ==> Mask(x) == old(Mask(x))
      ensures oev != nev ==> (IsSet(vec_ri, fd) <==> nev & EV_READ != 0) && (IsSet(vec_wi, fd) <==> nev & EV_WRITE != 0)
    {
      hide PutBit, IsSet;
      if oev == nev {
        return;
      }
      var word := fd / NFDBITS;
      ghost var r0, w0 := vec_ri, vec_wi;
      if |vec_ri| <= word {
        var more := word + 1 - |vec_ri|;
        vec_ri := vec_ri + seq(more, _ => 0);
        vec_wi := vec_wi + seq(more, _ => 0);
        forall x
          ensures IsSet(vec_ri, x) == IsSet(r0, x) && IsSet(vec_wi, x) == IsSet(w0, x)
        {
          GrowKeeps(r0, more, x);
          GrowKeeps(w0, more, x);
        }
      }
      ghost var r1, w1 := vec_ri, vec_wi;
      vec_ri := SetClear(vec_ri, fd, nev & EV_READ != 0);
      vec_wi := SetClear(vec_wi, fd, nev & EV_WRITE != 0);
      forall x
        ensures IsSet(vec_ri, x) <==> if x == fd then nev & EV_READ != 0 else IsSet(r0, x)
        ensures IsSet(vec_wi, x) <==> if x == fd then nev & EV_WRITE != 0 else IsSet(w0, x)
      {
        PutBitSets(r1, fd, nev & EV_READ != 0, x);
        PutBitSets(w1, fd, nev & EV_WRITE != 0, x);
      }
    }

    /** The two statements that set, and if unwanted clear again, one bit. */
    method SetClear(v: seq<bv64>, fd: nat, on: bool) returns (r: seq<bv64>)
      requires fd / NFDBITS < |v|
      ensures r == PutBit(v, fd, on) && |r| == |v|
    {
      hide Bit, On, Off;
      var word, mask := fd / NFDBITS, Bit(fd % NFDBITS);
      r := v[word := On(v[word], mask)];
      if !on {
        r := r[word := Off(r[word], mask)];
      }
    }
  }

  // ---------- the scan of select_poll ----------

  datatype Report = Report(fd: int, events: bv8)

  /** `reports` lists the descriptors from `lo` up that are ready, each once, from the top
      down, with exactly the directions that are ready. */
  ghost predicate Complete(reports: seq<Report>, r: seq<bv64>, w: seq<bv64>, lo: int) {
    && (forall i :: 0 <= i < |reports| ==> reports[i].fd >= lo && reports[i].events == MaskIn(r, w, reports[i].fd) != 0)
    && (forall i, j :: 0 <= i < j < |reports| ==> reports[i].fd > reports[j].fd)
    && (forall fd {:trigger MaskIn(r, w, fd)} :: fd >= lo && MaskIn(r, w, fd) != 0 ==> Report(fd, MaskIn(r, w, fd)) in reports)
  }

  lemma CompleteStep(reports: seq<Report>, r: seq<bv64>, w: seq<bv64>, fd: int)
    requires Complete(reports, r, w, fd + 1)
    ensures Complete(if MaskIn(r, w, fd) == 0 then reports else reports + [Report(fd, MaskIn(r, w, fd))], r, w, fd)
  {
    hide MaskIn;
    var longer := reports + [Report(fd, MaskIn(r, w, fd))];
    assert longer[|reports|] == Report(fd, MaskIn(r, w, fd));
    forall x {:trigger MaskIn(r, w, x)} | x >= fd + 1 && MaskIn(r, w, x) != 0
      ensures Report(x, MaskIn(r, w, x)) in longer
    {
      var i :| 0 <= i < |reports| && reports[i] == Report(x, MaskIn(r, w, x));
      assert longer[i] == reports[i];
    }
  }

  lemma {:induction false} CompleteSkip(reports: seq<Report>, r: seq<bv64>, w: seq<bv64>, lo: int, hi: int)
    requires Complete(reports, r, w, hi) && lo <= hi
    requires forall fd {:trigger MaskIn(r, w, fd)} :: lo <= fd < hi ==> MaskIn(r, w, fd) == 0
    ensures Complete(reports, r, w, lo)
  {
  }

  lemma NothingAbove(r: seq<bv64>, w: seq<bv64>)
    requires |r| == |w|
    ensures Complete([], r, w, |r| * NFDBITS)
  {
  }

  lemma ZeroWord(r: seq<bv64>, w: seq<bv64>, word: nat, fd: int)
    requires word < |r| == |w| && r[word] == 0 && w[word] == 0 && word * NFDBITS <= fd < (word + 1) * NFDBITS
    ensures MaskIn(r, w, fd) == 0
  {
  }

  /** One word of the scan, from its highest bit down. */
  method ScanWord(r: seq<bv64>, w: seq<bv64>, word: nat, before: seq<Report>) returns (reports: seq<Report>)
    requires word < |r| == |w| && Complete(before, r, w, (word + 1) * NFDBITS)
    ensures Complete(reports, r, w, word * NFDBITS)
  {
    hide Complete, Bit, Has;
    reports := before;
    var bit := NFDBITS;
    while bit > 0
      invariant 0 <= bit <= NFDBITS
      invariant Complete(reports, r, w, word * NFDBITS + bit)
    {
      bit := bit - 1;
      var fd := word * NFDBITS + bit;
      assert fd / NFDBITS == word && fd % NFDBITS == bit;
      var mask := Bit(bit);
      var events := (if Has(r[word], mask) then EV_READ else 0) | (if Has(w[word], mask) then EV_WRITE else 0);
      assert events == MaskIn(r, w, fd);
      CompleteStep(reports, r, w, fd);
      if events != 0 {
        reports := reports + [Report(fd, events)];
      }
    }
  }

  /** The scan of `select_poll`: every ready descriptor once, with exactly its bits. */
  method Scan(r: seq<bv64>, w: seq<bv64>) returns (reports: seq<Report>)
    requires |r| == |w|
    ensures Complete(reports, r, w, 0)
  {
    hide Complete, MaskIn;
    reports := [];
    NothingAbove(r, w);
    var word := |r|;
    while word > 0
      invariant 0 <= word <= |r|
      invariant Complete(reports, r, w, word * NFDBITS)
    {
      word := word - 1;
      if r[word] != 0 || w[word] != 0 {
        reports := ScanWord(r, w, word, reports);
      } else {
        forall fd {:trigger MaskIn(r, w, fd)} | word * NFDBITS <= fd < (word + 1) * NFDBITS
          ensures MaskIn(r, w, fd) == 0
        {
          ZeroWord(r, w, word, fd);
        }
        CompleteSkip(reports, r, w, word * NFDBITS, (word + 1) * NFDBITS);
      }
    }
  }
}
