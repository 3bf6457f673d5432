/**
 * The routines around the driver: the startup sequence and the display writer
 * goroutine of main.go (identical in 7seg-clock.go), and the change-only
 * clock loop of 7seg-clock.go.
 */
module Tasks {
  import opened Wrappers
  import opened Segments
  import opened Ht16k33
  import opened Driver
  import opened TimeFormat

  /**
   * main.go:68-74: Begin, Clear, colon on, with Begin behind the dry-run guard
   * (as written, a dry run panics in Begin; see `Driver.DryStartupPanics`).
   * A device is then at brightness 1 with four blank digits, the colon lit
   * and every other cell as it was; a dry run issues nothing.
   */
  method Startup(d: Display)
    requires d.Valid()
    modifies d`ram, d`bus
    ensures d.Valid()
    ensures d.bus == old(d.bus) + IntendedBeginOps(d.attached) + ClearOps(d.attached) + IntendedColonOps(d.attached, true)
    ensures d.attached ==> forall p :: 0 <= p < DigitCount ==> d.ram[DigitAddress(p)] == 0
    ensures d.attached ==> d.ram[ColonAddress] == ColonOn
    ensures d.attached ==> forall a :: 0 <= a < RamSize && !(a % 2 == 0 && a <= 8) ==> d.ram[a] == old(d.ram)[a]
    ensures d.attached ==> LastDimming(d.bus) == Some(1)
    ensures !d.attached ==> d.bus == old(d.bus) && d.ram == old(d.ram)
  {
    IntendedBegin(d);
    ghost var begun := d.bus;
    Clear(d);
    ghost var cleared := d.ram;
    SetColon(d, true);
    IntendedBeginGuarded(old(d.bus));
    if d.attached {
      ClearBlanksFiveCells(old(d.ram));
      IntendedColonFollowsOn(cleared, true);
      LastDimmingSkipsRamWrites(begun, ClearOps(true) + ColonOps(true, true));
      assert d.bus == begun + (ClearOps(true) + ColonOps(true, true));
    }
  }

  /** All transactions the writer issues for strings `i..` of a run, in arrival order. */
  function WriterOps(attached: bool, msgs: seq<string>, i: nat): seq<BusOp>
    decreases |msgs| - i
  {
    if i >= |msgs| then [] else WriteStringOps(attached, msgs[i]) + WriterOps(attached, msgs, i + 1)
  }

  /** The writer goroutine: `for s := range writer { WriteString(s) }`, over a finite run. */
  method DisplayWriter(d: Display, msgs: seq<string>)
    requires d.Valid()
    modifies d`ram, d`bus
    ensures d.Valid()
    ensures d.bus == old(d.bus) + WriterOps(d.attached, msgs, 0)
    ensures d.ram == ApplyAll(old(d.ram), WriterOps(d.attached, msgs, 0))
  {
    ghost var att := d.attached;
    ghost var done: seq<BusOp> := [];
    for i := 0 to |msgs|
      invariant d.Valid() && d.attached == att
      invariant d.bus == old(d.bus) + done
      invariant d.ram == ApplyAll(old(d.ram), done)
      invariant WriterOps(att, msgs, 0) == done + WriterOps(att, msgs, i)
    {
      done := ShowNext(d, att, msgs, i, old(d.bus), old(d.ram), done);
    }
    assert WriterOps(att, msgs, |msgs|) == [];
    assert done + [] == done;
  }

  /** One pass of the writer loop: the next string is drawn and the trace grows by its writes. */
  method ShowNext(d: Display, ghost att: bool, msgs: seq<string>, i: nat,
                  ghost bus0: seq<BusOp>, ghost ram0: seq<Byte>, ghost done: seq<BusOp>)
    returns (ghost done': seq<BusOp>)
    requires d.Valid() && d.attached == att && i < |msgs|
    requires d.bus == bus0 + done && d.ram == ApplyAll(ram0, done)
    requires WriterOps(att, msgs, 0) == done + WriterOps(att, msgs, i)
    modifies d`ram, d`bus
    ensures d.Valid() && d.attached == att
    ensures d.bus == bus0 + done' && d.ram == ApplyAll(ram0, done')
    ensures WriterOps(att, msgs, 0) == done' + WriterOps(att, msgs, i + 1)
  {
    ghost var next := WriteStringOps(att, msgs[i]);
    ghost var rest := WriterOps(att, msgs, i + 1);
    assert done + (next + rest) == (done + next) + rest;
    assert (bus0 + done) + next == bus0 + (done + next);
    ApplyAllAppend(ram0, done, next);
    WriteString(d, msgs[i]);
    done' := done + next;
  }

  /**
   * After the writer has drawn a run of four-character strings, the digits
   * show the last one and no other cell (the colon among them) has changed.
   */
  lemma {:induction false} WriterShowsLatest(ram: seq<Byte>, msgs: seq<string>, i: nat)
    requires |ram| == RamSize && i < |msgs|
    requires forall k :: 0 <= k < |msgs| ==> |msgs[k]| == DigitCount
    ensures var r := ApplyAll(ram, WriterOps(true, msgs, i));
      (forall p :: 0 <= p < DigitCount ==> r[DigitAddress(p)] == Pattern([msgs[|msgs| - 1][p]])) &&
      (forall a :: 0 <= a < RamSize && !IsDigitAddress(a) ==> r[a] == ram[a])
    decreases |msgs| - i
  {
    var first := ApplyAll(ram, WriteStringOps(true, msgs[i]));
    ApplyAllAppend(ram, WriteStringOps(true, msgs[i]), WriterOps(true, msgs, i + 1));
    FullStringReplacesDigits(ram, msgs[i]);
    if i + 1 < |msgs| {
      WriterShowsLatest(first, msgs, i + 1);
    } else {
      assert WriterOps(true, msgs, i + 1) == [];
    }
  }

  /** The strings the 7seg-clock loop sends, given `l` and the minutes it reads. */
  function Changes(l: string, ts: seq<MinuteOfDay>): seq<string>
    decreases |ts|
  {
    if ts == [] then []
    else
      var s := Hhmm(ts[0]);
      if l != s then [s] + Changes(s, ts[1..]) else Changes(l, ts[1..])
  }

  /**
   * 7seg-clock.go:76-87 over the minutes read on successive passes: the first
   * pass always sends (`l` starts empty), later passes send only when the
   * "HHMM" changed, and `l` is always the last string sent, which is the
   * current time.
   */
  method ClockLoop(times: seq<MinuteOfDay>) returns (sent: seq<string>, l: string)
    ensures sent == Changes("", times)
    ensures |sent| <= |times|
    ensures |times| > 0 ==> |sent| > 0 && sent[0] == Hhmm(times[0])
    ensures |times| > 0 ==> l == sent[|sent| - 1] == Hhmm(times[|times| - 1])
    ensures forall k :: 0 <= k < |sent| - 1 ==> sent[k] != sent[k + 1]
  {
    l := "";
    sent := [];
    for i := 0 to |times|
      invariant sent + Changes(l, times[i..]) == Changes("", times)
      invariant |sent| <= i
      invariant i == 0 ==> l == "" && sent == []
      invariant i > 0 ==> |sent| > 0 && sent[0] == Hhmm(times[0])
      invariant i > 0 ==> l == sent[|sent| - 1] == Hhmm(times[i - 1])
      invariant forall k :: 0 <= k < |sent| - 1 ==> sent[k] != sent[k + 1]
    {
      assert times[i..][1..] == times[i + 1..];
      var s := Hhmm(times[i]);
      if l != s {
        assert sent + ([s] + Changes(s, times[i + 1..])) == (sent + [s]) + Changes(s, times[i + 1..]);
        l := s;
        sent := sent + [l];
      }
    }
    assert times[|times|..] == [];
  }
}
