/**
 * The GPIO sampler of main.go (lines 145-162). Pins are active low; while
 * the arm button is held, a delta (+1 increment, -1 decrement, 0 neither)
 * is sent at most once per 500 ms. Holding the buttons repeats the event:
 * it is a rate limiter, not an edge detector.
 */
module Sampler {
  import opened Wrappers

  const DebounceMs := 500

  /** What `Pin.Read()` returns. */
  datatype Level = Low | High

  /** One pass of the poll loop: the three pin levels and the monotonic clock in milliseconds. */
  datatype Sample = Sample(arm: Level, inc: Level, dec: Level, nowMs: int)

  /** A delta sent on the button channel and when. */
  datatype Emission = Emission(atMs: int, delta: int)

  /** The delta read from the direction pins; increment wins when both are pressed. */
  function Delta(inc: Level, dec: Level): (v: int)
    ensures -1 <= v <= 1
    ensures v == 1 <==> inc == Low
    ensures v == -1 <==> inc != Low && dec == Low
  {
    if inc == Low then 1 else if dec == Low then -1 else 0
  }

  /** What one pass sends, given the time of the last send. */
  function Decide(lastSend: int, x: Sample): Option<int>
  {
    if x.arm == Low && x.nowMs - lastSend > DebounceMs then Some(Delta(x.inc, x.dec)) else None
  }

  /** Everything a run of passes sends, starting from `lastSend`. */
  function Emissions(lastSend: int, xs: seq<Sample>): seq<Emission>
    decreases |xs|
  {
    if xs == [] then []
    else match Decide(lastSend, xs[0])
      case Some(v) => [Emission(xs[0].nowMs, v)] + Emissions(xs[0].nowMs, xs[1..])
      case None => Emissions(lastSend, xs[1..])
  }

  /** The time of the last send after a run of passes. */
  function LastSendAfter(lastSend: int, xs: seq<Sample>): int
    decreases |xs|
  {
    if xs == [] then lastSend
    else LastSendAfter(if Decide(lastSend, xs[0]).Some? then xs[0].nowMs else lastSend, xs[1..])
  }

  class InputSampler {
    var lastSend: int

    /** `lastSend := time.Now()` when the goroutine starts. */
    constructor (startMs: int)
      ensures lastSend == startMs
    {
      lastSend := startMs;
    }

    /** One pass of the loop (the 10 ms sleep is the caller's). */
    method Step(x: Sample) returns (emit: Option<int>)
      modifies this
      ensures emit == Decide(old(lastSend), x)
      ensures lastSend == if emit.Some? then x.nowMs else old(lastSend)
    {
      emit := None;
      if x.arm == Low {
        var v := 0;
        if x.inc == Low {
          v := 1;
        } else if x.dec == Low {
          v := -1;
        }
        if x.nowMs - lastSend > DebounceMs {
          lastSend := x.nowMs;
          emit := Some(v);
        }
      }
    }

    /** A finite run of the poll loop. */
    method Poll(xs: seq<Sample>) returns (out: seq<Emission>)
      modifies this
      ensures out == Emissions(old(lastSend), xs)
      ensures lastSend == LastSendAfter(old(lastSend), xs)
    {
      out := [];
      ghost var start := lastSend;
      for i := 0 to |xs|
        invariant Emissions(start, xs) == out + Emissions(lastSend, xs[i..])
        invariant LastSendAfter(start, xs) == LastSendAfter(lastSend, xs[i..])
      {
        assert xs[i..][1..] == xs[i + 1..];
        var emit := Step(xs[i]);
        if emit.Some? {
          out := out + [Emission(xs[i].nowMs, emit.value)];
        }
      }
      assert xs[|xs|..] == [];
    }
  }

  /**
   * Sends are spaced: the first comes more than 500 ms after the start, and
   * each later one more than 500 ms after the one before, however long the
   * buttons are held and however the passes are timed.
   */
  lemma {:induction false} EmissionsSpaced(lastSend: int, xs: seq<Sample>)
    ensures var e := Emissions(lastSend, xs);
      (|e| > 0 ==> e[0].atMs - lastSend > DebounceMs) &&
      (forall k :: 0 <= k < |e| - 1 ==> e[k + 1].atMs - e[k].atMs > DebounceMs)
    decreases |xs|
  {
    if xs != [] {
      match Decide(lastSend, xs[0])
      case Some(v) =>
        EmissionsSpaced(xs[0].nowMs, xs[1..]);
        var rest := Emissions(xs[0].nowMs, xs[1..]);
        assert Emissions(lastSend, xs) == [Emission(xs[0].nowMs, v)] + rest;
      case None =>
        EmissionsSpaced(lastSend, xs[1..]);
    }
  }

  /** Is `e` what pass `x` sends: arm held, at the pass's time, with the pass's delta? */
  predicate SentBy(x: Sample, e: Emission)
  {
    x.arm == Low && e.atMs == x.nowMs && e.delta == Delta(x.inc, x.dec)
  }

  /** Every send comes from a pass with the arm pin low and carries that pass's delta, which lies in -1..1. */
  lemma {:induction false} EmissionNeedsArm(lastSend: int, xs: seq<Sample>, k: nat)
    requires k < |Emissions(lastSend, xs)|
    ensures var e := Emissions(lastSend, xs)[k];
      -1 <= e.delta <= 1 && exists j :: 0 <= j < |xs| && SentBy(xs[j], e)
    decreases |xs|
  {
    var e := Emissions(lastSend, xs);
    match Decide(lastSend, xs[0])
    case Some(v) =>
      var rest := Emissions(xs[0].nowMs, xs[1..]);
      assert e == [Emission(xs[0].nowMs, v)] + rest;
      if k == 0 {
        assert SentBy(xs[0], e[0]);
      } else {
        EmissionNeedsArm(xs[0].nowMs, xs[1..], k - 1);
        var j :| 0 <= j < |xs[1..]| && SentBy(xs[1..][j], rest[k - 1]);
        assert SentBy(xs[j + 1], e[k]);
      }
    case None =>
      EmissionNeedsArm(lastSend, xs[1..], k);
      var j :| 0 <= j < |xs[1..]| && SentBy(xs[1..][j], e[k]);
      assert SentBy(xs[j + 1], e[k]);
  }

  /** With the arm held, a pass more than 500 ms after the last send always sends, 0 included. */
  lemma HeldArmRepeats(lastSend: int, x: Sample)
    requires x.arm == Low && x.nowMs - lastSend > DebounceMs
    ensures Decide(lastSend, x) == Some(Delta(x.inc, x.dec))
    ensures x.inc == High && x.dec == High ==> Decide(lastSend, x) == Some(0)
  {
  }
}
