/** Extending 16-bit RTP sequence numbers to unbounded ones. */
module SequenceUnwrapper {
  import opened Basics

  const CYCLE: int := 0x1_0000
  const HALF: int := 0x8000

  /** The extended number chosen for `wire`, given the newest number seen so far. */
  function Unwrap(latest: Option<int>, wire: uint16): int {
    if latest.None? then wire
    else
      var candidate := latest.value / CYCLE * CYCLE + wire;
      if candidate - latest.value > HALF then candidate - CYCLE
      else if latest.value - candidate > HALF then candidate + CYCLE
      else candidate
  }

  function Newest(latest: Option<int>, ext: int): int {
    if latest.None? then ext else Max(latest.value, ext)
  }

  /** The result carries the wire number and lies within half a cycle of the newest one. */
  lemma UnwrapIsNearest(latest: Option<int>, wire: uint16)
    ensures Unwrap(latest, wire) % CYCLE == wire
    ensures latest.Some? ==> -HALF <= Unwrap(latest, wire) - latest.value <= HALF
  {
    if latest.Some? {
      var q := latest.value / CYCLE;
      assert latest.value == q * CYCLE + latest.value % CYCLE;
      assert (q * CYCLE + wire) % CYCLE == wire;
      assert ((q - 1) * CYCLE + wire) % CYCLE == wire;
      assert ((q + 1) * CYCLE + wire) % CYCLE == wire;
    }
  }

  /**
   Unwrapping inverts truncation exactly for numbers less than half a cycle away, and
   at exactly half a cycle only when both numbers lie in the same cycle.
   */
  lemma UnwrapRecovers(latest: int, ext: int)
    ensures Unwrap(Some(latest), ext % CYCLE) == ext <==>
            (-HALF < ext - latest < HALF ||
             ((ext - latest == HALF || ext - latest == -HALF) && ext / CYCLE == latest / CYCLE))
  {
    var q, r := latest / CYCLE, latest % CYCLE;
    var a, b := ext / CYCLE, ext % CYCLE;
    assert latest == q * CYCLE + r && ext == a * CYCLE + b;
    UnwrapIsNearest(Some(latest), b);
  }
}
