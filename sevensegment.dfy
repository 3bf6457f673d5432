/**
 * sevensegment.go: an earlier build with its own copies of Clear, Write and
 * WriteString that have no dry-run branch (the handle always exists: a
 * failed connect ends the program), and a main that clears the display,
 * lights the colon and rewrites the time forever.
 */
module SevenSegment {
  import opened Segments
  import opened Ht16k33
  import opened Driver
  import opened TimeFormat

  method Clear(d: Display)
    requires d.Valid() && d.attached
    modifies d`ram, d`bus
    ensures d.Valid()
    ensures d.bus == old(d.bus) + ClearOps(true)
    ensures d.ram == ApplyAll(old(d.ram), ClearOps(true))
  {
    for i := 0 to 5
      invariant d.Valid() && d.attached
      invariant d.bus == old(d.bus) + ClearWrites(i)
      invariant d.ram == ApplyAll(old(d.ram), ClearWrites(i))
    {
      d.WriteBytes(i * 2, 0x00);
      assert ClearWrites(i + 1) == ClearWrites(i) + [RamWrite(i * 2, 0)];
      ApplyAllAppend(old(d.ram), ClearWrites(i), [RamWrite(i * 2, 0)]);
    }
  }

  method Write(d: Display, pos: int, c: string)
    requires d.Valid() && d.attached
    modifies d`ram, d`bus
    ensures d.Valid()
    ensures d.bus == old(d.bus) + WriteOps(true, pos, c)
    ensures d.ram == ApplyAll(old(d.ram), WriteOps(true, pos, c))
  {
    if pos < 0 || pos > 3 {
      return;
    }
    var offset := 0;
    if pos >= 2 {
      offset := 1;
    }
    d.WriteBytes((pos + offset) * 2, Pattern(c));
  }

  method WriteString(d: Display, s: string)
    requires d.Valid() && d.attached
    modifies d`ram, d`bus
    ensures d.Valid()
    ensures d.bus == old(d.bus) + WriteStringOps(true, s)
    ensures d.ram == ApplyAll(old(d.ram), WriteStringOps(true, s))
  {
    if |s| > 4 {
      return;
    }
    assert StringOps(true, s, |s|) == [];
    assert old(d.bus) + [] == old(d.bus);
    var pos := 3;
    var i := |s| - 1;
    while i >= 0
      invariant -1 <= i < |s|
      invariant pos == i + DigitCount - |s|
      invariant d.Valid() && d.attached
      invariant d.bus == old(d.bus) + StringOps(true, s, i + 1)
      invariant d.ram == ApplyAll(old(d.ram), StringOps(true, s, i + 1))
    {
      DrawCharacter(d, s, i, pos, old(d.bus), old(d.ram));
      i := i - 1;
      pos := pos - 1;
    }
  }

  /** One pass of the WriteString loop: character `i` drawn at position `pos`. */
  method DrawCharacter(d: Display, s: string, i: nat, pos: int, ghost bus0: seq<BusOp>, ghost ram0: seq<Byte>)
    requires d.Valid() && d.attached && i < |s| <= DigitCount && pos == i + DigitCount - |s|
    requires d.bus == bus0 + StringOps(true, s, i + 1)
    requires d.ram == ApplyAll(ram0, StringOps(true, s, i + 1))
    modifies d`ram, d`bus
    ensures d.Valid() && d.attached
    ensures d.bus == bus0 + StringOps(true, s, i)
    ensures d.ram == ApplyAll(ram0, StringOps(true, s, i))
  {
    ghost var before := StringOps(true, s, i + 1);
    ghost var w := WriteOps(true, pos, [s[i]]);
    assert StringOps(true, s, i) == before + w;
    ApplyAllAppend(ram0, before, w);
    Write(d, pos, [s[i]]);
  }

  /**
   * sevensegment.go:42-57: Clear, then 0x02 to the colon cell. Clear comes
   * first, so the colon stays lit and the four digits are blank.
   */
  method Start(d: Display)
    requires d.Valid() && d.attached
    modifies d`ram, d`bus
    ensures d.Valid()
    ensures d.bus == old(d.bus) + ClearOps(true) + [RamWrite(ColonAddress, ColonOn)]
    ensures forall p :: 0 <= p < DigitCount ==> d.ram[DigitAddress(p)] == 0
    ensures d.ram[ColonAddress] == ColonOn
    ensures forall a :: 0 <= a < RamSize && !(a % 2 == 0 && a <= 8) ==> d.ram[a] == old(d.ram)[a]
  {
    Clear(d);
    ghost var cleared := d.ram;
    ClearBlanksFiveCells(old(d.ram));
    d.WriteBytes(ColonAddress, ColonOn & 0xFF);
    IntendedColonFollowsOn(cleared, true);
    assert d.ram == ApplyAll(cleared, IntendedColonOps(true, true));
  }

  /** The writes of a run of passes, one "HHMM" per minute read, in order. */
  function RunOps(times: seq<MinuteOfDay>): seq<BusOp>
  {
    if |times| == 0 then [] else RunOps(times[..|times| - 1]) + WriteStringOps(true, Hhmm(times[|times| - 1]))
  }

  /** Every transaction of a run of passes is a RAM write. */
  lemma {:induction false} RunOpsAreWrites(times: seq<MinuteOfDay>)
    ensures forall k :: 0 <= k < |RunOps(times)| ==> RunOps(times)[k].RamWrite?
  {
    if |times| > 0 {
      var s := Hhmm(times[|times| - 1]);
      RunOpsAreWrites(times[..|times| - 1]);
      StringOpsAreWrites(true, s, 0);
    }
  }

  /**
   * The build never sends a command after the device's own setup: Start and
   * every pass of the loop only write display RAM, so the brightness stays
   * whatever it was.
   */
  lemma RunKeepsBrightness(prior: seq<BusOp>, times: seq<MinuteOfDay>)
    ensures LastDimming(prior + ClearOps(true) + [RamWrite(ColonAddress, ColonOn)] + RunOps(times)) == LastDimming(prior)
  {
    var ys := ClearOps(true) + [RamWrite(ColonAddress, ColonOn)] + RunOps(times);
    RunOpsAreWrites(times);
    forall k | 0 <= k < |ys|
      ensures ys[k].RamWrite?
    {
      if k >= 6 {
        assert ys[k] == RunOps(times)[k - 6];
      }
    }
    assert prior + ClearOps(true) + [RamWrite(ColonAddress, ColonOn)] + RunOps(times) == prior + ys;
    LastDimmingSkipsRamWrites(prior, ys);
  }

  /** One pass of the loop: the minute read on pass `i` replaces the four digits and adds its writes to the bus. */
  method ShowTime(d: Display, times: seq<MinuteOfDay>, i: nat, ghost started: seq<BusOp>, ghost ram0: seq<Byte>)
    requires d.Valid() && d.attached && i < |times| && |ram0| == RamSize
    requires d.bus == started + RunOps(times[..i])
    requires d.ram[ColonAddress] == ColonOn
    requires forall a :: 0 <= a < RamSize && !(a % 2 == 0 && a <= 8) ==> d.ram[a] == ram0[a]
    modifies d`ram, d`bus
    ensures d.Valid()
    ensures d.bus == started + RunOps(times[..i + 1])
    ensures d.ram[ColonAddress] == ColonOn
    ensures forall p :: 0 <= p < DigitCount ==> d.ram[DigitAddress(p)] == Pattern([Hhmm(times[i])[p]])
    ensures forall a :: 0 <= a < RamSize && !(a % 2 == 0 && a <= 8) ==> d.ram[a] == ram0[a]
  {
    ghost var prev := RunOps(times[..i]);
    ghost var w := WriteStringOps(true, Hhmm(times[i]));
    RunOpsStep(times, i);
    ShowDigits(d, Hhmm(times[i]), ram0);
    assert d.bus == (started + prev) + w == started + (prev + w);
  }

  /** `WriteString` of four characters: they replace the four digits and every other cell is kept. */
  method ShowDigits(d: Display, s: string, ghost ram0: seq<Byte>)
    requires d.Valid() && d.attached && |s| == DigitCount && |ram0| == RamSize
    requires d.ram[ColonAddress] == ColonOn
    requires forall a :: 0 <= a < RamSize && !(a % 2 == 0 && a <= 8) ==> d.ram[a] == ram0[a]
    modifies d`ram, d`bus
    ensures d.Valid()
    ensures d.bus == old(d.bus) + WriteStringOps(true, s)
    ensures d.ram[ColonAddress] == ColonOn
    ensures forall p :: 0 <= p < DigitCount ==> d.ram[DigitAddress(p)] == Pattern([s[p]])
    ensures forall a :: 0 <= a < RamSize && !(a % 2 == 0 && a <= 8) ==> d.ram[a] == ram0[a]
  {
    FullStringReplacesDigits(d.ram, s);
    WriteString(d, s);
  }

  /** A run one pass longer issues that pass's writes after the others. */
  lemma RunOpsStep(times: seq<MinuteOfDay>, i: nat)
    requires i < |times|
    ensures RunOps(times[..i + 1]) == RunOps(times[..i]) + WriteStringOps(true, Hhmm(times[i]))
  {
    assert times[..i + 1][..i] == times[..i];
  }

  /**
   * sevensegment.go:42-62 over the minutes read on successive passes: every
   * pass rewrites all four digits with the current "HHMM", so the display
   * shows the latest time, the colon stays lit, nothing else changes and no
   * command is sent.
   */
  method Run(d: Display, times: seq<MinuteOfDay>)
    requires d.Valid() && d.attached
    modifies d`ram, d`bus
    ensures d.Valid()
    ensures d.bus == old(d.bus) + ClearOps(true) + [RamWrite(ColonAddress, ColonOn)] + RunOps(times)
    ensures LastDimming(d.bus) == LastDimming(old(d.bus))
    ensures d.ram[ColonAddress] == ColonOn
    ensures |times| == 0 ==> forall p :: 0 <= p < DigitCount ==> d.ram[DigitAddress(p)] == 0
    ensures |times| > 0 ==>
      forall p :: 0 <= p < DigitCount ==> d.ram[DigitAddress(p)] == Pattern([Hhmm(times[|times| - 1])[p]])
    ensures forall a :: 0 <= a < RamSize && !(a % 2 == 0 && a <= 8) ==> d.ram[a] == old(d.ram)[a]
  {
    Start(d);
    ghost var started := d.bus;
    for i := 0 to |times|
      invariant d.Valid() && d.attached
      invariant d.bus == started + RunOps(times[..i])
      invariant d.ram[ColonAddress] == ColonOn
      invariant i == 0 ==> forall p :: 0 <= p < DigitCount ==> d.ram[DigitAddress(p)] == 0
      invariant i > 0 ==>
        forall p :: 0 <= p < DigitCount ==> d.ram[DigitAddress(p)] == Pattern([Hhmm(times[i - 1])[p]])
      invariant forall a :: 0 <= a < RamSize && !(a % 2 == 0 && a <= 8) ==> d.ram[a] == old(d.ram)[a]
    {
      ShowTime(d, times, i, started, old(d.ram));
    }
    assert times[..|times|] == times;
    RunKeepsBrightness(old(d.bus), times);
  }
}
