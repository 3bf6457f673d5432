/**
 * The alarm coordinator of main.go (lines 84-133): one loop that takes either
 * a button event or a one-second clock tick, keeps the alarm minute, the last
 * string shown (`l`), the marker of the last alarm occurrence and the blink
 * cancel flag, and answers with a string for the display writer and/or the
 * start of a blink. The goroutines and channels become method calls; the
 * blink (lines 111-124) is a loop whose cancel point is a parameter.
 */
module Alarm {
  import opened Wrappers
  import opened Segments
  import opened Ht16k33
  import opened Driver
  import opened TimeFormat

  // ---------------------------------------------------------------------------
  // The coordinator as a function of its state

  /** `alarmTime.Add(±1 minute)` as "1504" sees it: minute arithmetic modulo one day. */
  function Shift(alarm: MinuteOfDay, op: int): MinuteOfDay
  {
    if op == 1 then (alarm + 1) % MinutesPerDay
    else if op == -1 then (alarm - 1) % MinutesPerDay
    else alarm
  }

  /** The coordinator's variables: the alarm minute, `l`, `lastAlarmOccurrence` and `cancel`. */
  datatype Snapshot = Snapshot(alarm: MinuteOfDay, l: string, lastAlarmOccurrence: string, cancel: bool)

  /** The state after an event, the string handed to the display writer, if any, and whether a blink starts. */
  datatype Reaction = Reaction(next: Snapshot, send: Option<string>, blink: bool)

  datatype Event = Button(op: int) | Tick(now: Instant)

  /** `case op := <-buttonPress`. */
  function OnButton(s: Snapshot, op: int): Reaction
  {
    var a := Shift(s.alarm, op);
    Reaction(Snapshot(a, Hhmm(a), s.lastAlarmOccurrence, true), Some(Hhmm(a)), false)
  }

  /** `case <-time.After(1 * time.Second)`. */
  function OnTick(s: Snapshot, now: Instant): Reaction
  {
    var t := Hhmm(MinuteOf(now));
    if s.l == t then Reaction(s, None, false)
    else if t == Hhmm(s.alarm) && Marker(now) != s.lastAlarmOccurrence then
      Reaction(s.(lastAlarmOccurrence := Marker(now), cancel := false), None, true)
    else Reaction(s.(l := t), Some(t), false)
  }

  function OnEvent(s: Snapshot, e: Event): Reaction
  {
    match e
    case Button(op) => OnButton(s, op)
    case Tick(now) => OnTick(s, now)
  }

  /** The instant of `e` if its reaction starts a blink. */
  function FireOf(e: Event, r: Reaction): seq<Instant>
  {
    match e
    case Tick(now) => if r.blink then [now] else []
    case Button(_) => []
  }

  function SendOf(r: Reaction): seq<string>
  {
    match r.send
    case Some(t) => [t]
    case None => []
  }

  /** The instants at which a sequence of events starts a blink, in order. */
  function Fires(s: Snapshot, events: seq<Event>): seq<Instant>
    decreases |events|
  {
    if events == [] then []
    else
      var r := OnEvent(s, events[0]);
      FireOf(events[0], r) + Fires(r.next, events[1..])
  }

  /** The strings a sequence of events hands to the display writer, in order. */
  function Sent(s: Snapshot, events: seq<Event>): seq<string>
    decreases |events|
  {
    if events == [] then []
    else
      var r := OnEvent(s, events[0]);
      SendOf(r) + Sent(r.next, events[1..])
  }

  // ---------------------------------------------------------------------------
  // The coordinator as the source runs it

  class Coordinator {
    var alarm: MinuteOfDay
    /** The last string handed to the display writer. */
    var l: string
    var lastAlarmOccurrence: string
    /** Read by the running blink, if any: set means stop. */
    var cancel: bool

    function State(): Snapshot
      reads this
    {
      Snapshot(alarm, l, lastAlarmOccurrence, cancel)
    }

    /** The initial alarm is a parameter: the configured time is parsed before the loop starts. */
    constructor (initialAlarm: MinuteOfDay)
      ensures State() == Snapshot(initialAlarm, "", "", false)
    {
      alarm := initialAlarm;
      l := "";
      lastAlarmOccurrence := "";
      cancel := false;
    }

    /**
     * Any event cancels the blink, 1 and -1 move the alarm by a minute, and
     * the alarm's "HHMM" becomes both `l` and the string sent.
     */
    method ButtonEvent(op: int) returns (send: string)
      modifies this
      ensures OnButton(old(State()), op) == Reaction(State(), Some(send), false)
      ensures cancel && alarm == Shift(old(alarm), op)
      ensures send == l == Hhmm(alarm)
      ensures lastAlarmOccurrence == old(lastAlarmOccurrence)
    {
      cancel := true;
      if op == 1 {
        alarm := (alarm + 1) % MinutesPerDay;
      } else if op == -1 {
        alarm := (alarm - 1) % MinutesPerDay;
      }
      l := Hhmm(alarm);
      send := l;
    }

    /**
     * Nothing while the time's "HHMM" equals `l`; otherwise either the alarm
     * fires (marker recorded, cancel cleared, nothing sent, `l` kept) or the
     * time is sent and becomes `l`.
     */
    method Tick(now: Instant) returns (send: Option<string>, blink: bool)
      modifies this
      ensures OnTick(old(State()), now) == Reaction(State(), send, blink)
      ensures alarm == old(alarm)
      ensures blink ==> lastAlarmOccurrence == Marker(now) != old(lastAlarmOccurrence) && !cancel
      ensures send.Some? ==> send.value == l == Hhmm(MinuteOf(now))
    {
      var s := Hhmm(MinuteOf(now));
      send, blink := None, false;
      if l != s {
        if s == Hhmm(alarm) && Marker(now) != lastAlarmOccurrence {
          lastAlarmOccurrence := Marker(now);
          cancel := false;
          blink := true;
        } else {
          l := s;
          send := Some(l);
        }
      }
    }
  }

  /** One turn of the select loop: the event's case, what it sends and whether it fires. */
  method Dispatch(c: Coordinator, e: Event) returns (out: seq<string>, fire: seq<Instant>)
    modifies c
    ensures c.State() == OnEvent(old(c.State()), e).next
    ensures out == SendOf(OnEvent(old(c.State()), e))
    ensures fire == FireOf(e, OnEvent(old(c.State()), e))
  {
    match e
    case Button(op) =>
      var t := c.ButtonEvent(op);
      out, fire := [t], [];
    case Tick(now) =>
      var t, blink := c.Tick(now);
      out := if t.Some? then [t.value] else [];
      fire := if blink then [now] else [];
  }

  /** The select loop over a finite run of events. */
  method Serve(c: Coordinator, events: seq<Event>) returns (sent: seq<string>, fires: seq<Instant>)
    modifies c
    ensures sent == Sent(old(c.State()), events)
    ensures fires == Fires(old(c.State()), events)
    ensures forall k :: 0 <= k < |fires| - 1 ==> Marker(fires[k]) != Marker(fires[k + 1])
  {
    ghost var s0 := c.State();
    sent, fires := [], [];
    for i := 0 to |events|
      invariant Sent(s0, events) == sent + Sent(c.State(), events[i..])
      invariant Fires(s0, events) == fires + Fires(c.State(), events[i..])
    {
      assert events[i..][1..] == events[i + 1..];
      var out, fire := Dispatch(c, events[i]);
      sent := sent + out;
      fires := fires + fire;
    }
    assert events[|events|..] == [];
    FireMarkersDistinct(s0, events);
  }

  // ---------------------------------------------------------------------------
  // Properties

  /** 23:59 plus a minute is 00:00, and 00:00 minus a minute is 23:59. */
  lemma ShiftWrapsAtMidnight()
    ensures Shift(1439, 1) == 0 && Hhmm(Shift(1439, 1)) == "0000"
    ensures Shift(0, -1) == 1439 && Hhmm(Shift(0, -1)) == "2359"
  {
  }

  /** One press up and one press down cancel out, in either order; other values leave the alarm alone. */
  lemma ShiftUndo(a: MinuteOfDay, op: int)
    ensures Shift(Shift(a, 1), -1) == a && Shift(Shift(a, -1), 1) == a
    ensures op != 1 && op != -1 ==> Shift(a, op) == a
  {
  }

  /**
   * A tick starts a blink exactly when the time's "HHMM" differs from `l`,
   * the minute is the alarm minute, and this minute-and-day has not fired.
   */
  lemma TickFiresExactlyWhen(s: Snapshot, now: Instant)
    ensures OnTick(s, now).blink <==>
      s.l != Hhmm(MinuteOf(now)) && MinuteOf(now) == s.alarm && Marker(now) != s.lastAlarmOccurrence
  {
    HhmmInjective(MinuteOf(now), s.alarm);
  }

  /**
   * A tick never both sends and blinks, never moves the alarm, and whatever it
   * sends is the current "HHMM", which `l` then equals.
   */
  lemma TickShape(s: Snapshot, now: Instant)
    ensures var r := OnTick(s, now);
      !(r.blink && r.send.Some?) &&
      r.next.alarm == s.alarm &&
      (r.send.Some? ==> r.send.value == r.next.l == Hhmm(MinuteOf(now))) &&
      (r.next.lastAlarmOccurrence != s.lastAlarmOccurrence ==> r.blink)
  {
  }

  /**
   * After the alarm fires, another tick in the same minute of the same day
   * does not fire again: it shows the time instead.
   */
  lemma RefireSuppressed(s: Snapshot, now: Instant, later: Instant)
    requires OnTick(s, now).blink
    requires MinuteOf(later) == MinuteOf(now) && later.day == now.day
    ensures var r := OnTick(OnTick(s, now).next, later);
      !r.blink && r.send == Some(Hhmm(MinuteOf(later))) && r.next.l == Hhmm(MinuteOf(later))
  {
    MarkerInjective(now, later);
  }

  /**
   * Over any run of events, the first firing differs from the recorded marker
   * and consecutive firings have different markers.
   */
  lemma {:induction false} FireMarkersDistinct(s: Snapshot, events: seq<Event>)
    ensures var f := Fires(s, events);
      (|f| > 0 ==> Marker(f[0]) != s.lastAlarmOccurrence) &&
      (forall k :: 0 <= k < |f| - 1 ==> Marker(f[k]) != Marker(f[k + 1]))
    decreases |events|
  {
    if events != [] {
      var r := OnEvent(s, events[0]);
      FireMarkersDistinct(r.next, events[1..]);
      match events[0]
      case Button(_) =>
      case Tick(now) =>
        if r.blink {
          assert r.next.lastAlarmOccurrence == Marker(now);
          assert Fires(s, events) == [now] + Fires(r.next, events[1..]);
        }
    }
  }

  /**
   * The alarm fires at most once per (minute, day of the month): no two
   * consecutive firings of a run share both.
   */
  lemma AtMostOncePerMinuteAndDay(s: Snapshot, events: seq<Event>)
    ensures var f := Fires(s, events);
      forall k :: 0 <= k < |f| - 1 ==> !(MinuteOf(f[k]) == MinuteOf(f[k + 1]) && f[k].day == f[k + 1].day)
  {
    var f := Fires(s, events);
    FireMarkersDistinct(s, events);
    forall k | 0 <= k < |f| - 1
      ensures !(MinuteOf(f[k]) == MinuteOf(f[k + 1]) && f[k].day == f[k + 1].day)
    {
      MarkerInjective(f[k], f[k + 1]);
    }
  }

  // ---------------------------------------------------------------------------
  // The blink

  /** Brightness of the k-th pass (from 0): full on the first, then off, on, ... */
  function BlinkLevel(k: nat): Byte
  {
    if k % 2 == 0 then 15 else 0
  }

  /** The dimming commands of the first `n` passes. */
  function ToggleOps(n: nat): seq<BusOp>
  {
    seq(n, k requires 0 <= k < n => Command(DimmingSet | BlinkLevel(k)))
  }

  /** A blink whose cancel flag is first seen set after `n` passes: the toggles, then brightness 1. */
  function BlinkOps(n: nat): seq<BusOp>
  {
    ToggleOps(n) + BrightnessOps(1)
  }

  /** The blink goroutine; `passes` is how many times it finds `cancel` clear. */
  method Blink(d: Display, passes: nat)
    requires d.Valid() && d.attached
    modifies d`bus
    ensures d.Valid()
    ensures d.bus == old(d.bus) + BlinkOps(passes)
  {
    var b: Byte := 0;
    var i := 0;
    while i < passes
      invariant 0 <= i <= passes
      invariant d.Valid()
      invariant b == if i == 0 then 0 else BlinkLevel(i - 1)
      invariant d.bus == old(d.bus) + ToggleOps(i)
    {
      if b == 0 {
        b := 15;
      } else {
        b := 0;
      }
      SetBrightness(d, b);
      assert ToggleOps(i + 1) == ToggleOps(i) + [Command(DimmingSet | BlinkLevel(i))];
      i := i + 1;
    }
    SetBrightness(d, 1);
  }

  /**
   * The blink's commands alternate 15, 0, 15, ... from 15, then end with the
   * default level 1, so the device is back at 1 whatever the cancel point.
   */
  lemma BlinkAlternatesThenRestores(prior: seq<BusOp>, n: nat)
    ensures var ops := BlinkOps(n);
      |ops| == n + 1 &&
      (forall k :: 0 <= k < n ==> ops[k] == Command(if k % 2 == 0 then 0xEF else 0xE0)) &&
      ops[n] == Command(0xE1) &&
      LastDimming(prior + ops) == Some(1)
  {
    BrightnessCommand(prior + ToggleOps(n), 1);
    assert prior + BlinkOps(n) == (prior + ToggleOps(n)) + BrightnessOps(1);
  }

  /** While the blink runs, after pass k the device is at level 15 for even k and 0 for odd k. */
  lemma BlinkLevelAfterPass(prior: seq<BusOp>, k: nat)
    ensures LastDimming(prior + ToggleOps(k + 1)) == Some(BlinkLevel(k))
  {
    assert ToggleOps(k + 1) == ToggleOps(k) + [Command(DimmingSet | BlinkLevel(k))];
    assert prior + ToggleOps(k + 1) == (prior + ToggleOps(k)) + BrightnessOps(BlinkLevel(k));
    BrightnessCommand(prior + ToggleOps(k), BlinkLevel(k));
  }
}
