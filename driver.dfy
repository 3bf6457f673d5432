/**
 * The display driver of main.go (lines 201-287). 7seg-clock.go (lines
 * 105-191) carries a character-for-character copy, so this one model serves
 * both. Each operation is a method on the `pack` handle, proved against a
 * function that lists the bus transactions it issues; the lemmas below say
 * what those transactions do to the display.
 */
module Driver {
  import opened Wrappers
  import opened Segments
  import opened Ht16k33

  // ---------------------------------------------------------------------------
  // The transactions each operation issues

  /** `Write(pos, c)`: one RAM write for a position 0..3 on an attached device, else nothing. */
  function WriteOps(attached: bool, pos: int, c: string): seq<BusOp>
  {
    if attached && 0 <= pos < DigitCount then [RamWrite(DigitAddress(pos), Pattern(c))] else []
  }

  /**
   * The writes `WriteString(s)` issues for characters `lo..|s|-1`, in the
   * order the loop issues them: last character first, character `i` at
   * position `i + 4 - |s|`.
   */
  function StringOps(attached: bool, s: string, lo: nat): seq<BusOp>
    requires |s| <= DigitCount
    decreases |s| - lo
  {
    if lo >= |s| then [] else StringOps(attached, s, lo + 1) + WriteOps(attached, lo + DigitCount - |s|, [s[lo]])
  }

  /** `WriteString(s)`: nothing at all for more than four characters. */
  function WriteStringOps(attached: bool, s: string): seq<BusOp>
  {
    if |s| > DigitCount then [] else StringOps(attached, s, 0)
  }

  /** `Clear()`: zero written to addresses 0, 2, 4, 6, 8 in that order. */
  function ClearOps(attached: bool): seq<BusOp>
  {
    if attached then ClearWrites(5) else []
  }

  /** The first `n` writes of `Clear()`: zero to addresses 0, 2, ..., 2n - 2. */
  function ClearWrites(n: nat): seq<BusOp>
    requires n <= 5
  {
    seq(n, k requires 0 <= k < n => RamWrite(2 * k, 0))
  }

  /** `setColon(on)` as written: 0x02 to the colon cell, whatever `on` is. */
  function ColonOps(attached: bool, on: bool): seq<BusOp>
  {
    if attached then [RamWrite(ColonAddress, ColonOn)] else []
  }

  /** `setColon(on)` as its parameter evidently intends: lit for true, dark for false. */
  function IntendedColonOps(attached: bool, on: bool): seq<BusOp>
  {
    if attached then [RamWrite(ColonAddress, if on then ColonOn else 0)] else []
  }

  /** `SetBrightness(b)`: one dimming command for 0..15; `b < 0` cannot hold for a byte. */
  function BrightnessOps(b: Byte): seq<BusOp>
  {
    if b > 15 then [] else [Command(DimmingSet | b)]
  }

  /** `Begin()`: oscillator on, display on without blinking, then brightness 1. */
  function BeginOps(): seq<BusOp>
  {
    [Command(SystemSetup | 0x01), Command(DisplaySetup | 0x01 | 0x00)] + BrightnessOps(1)
  }

  /** `Begin()` with the `pack != nil` guard the other operations have: nothing in a dry run. */
  function IntendedBeginOps(attached: bool): seq<BusOp>
  {
    if attached then BeginOps() else []
  }

  /** How a run of the startup sequence ends: its transactions, or a panic on the nil handle. */
  datatype Outcome = Completed(ops: seq<BusOp>) | NilDereference

  /** `Begin()` as written calls through `pack` without a guard, so a dry run panics at its first command. */
  function BeginAsWritten(attached: bool): Outcome
  {
    if attached then Completed(BeginOps()) else NilDereference
  }

  /** The startup of main.go and 7seg-clock.go as written: Begin, then Clear and setColon(true) if Begin returned. */
  function StartupAsWritten(attached: bool): Outcome
  {
    match BeginAsWritten(attached)
    case NilDereference => NilDereference
    case Completed(ops) => Completed(ops + ClearOps(attached) + ColonOps(attached, true))
  }

  // ---------------------------------------------------------------------------
  // The operations

  method Write(d: Display, pos: int, c: string)
    requires d.Valid()
    modifies d`ram, d`bus
    ensures d.Valid()
    ensures d.bus == old(d.bus) + WriteOps(d.attached, pos, c)
    ensures d.ram == ApplyAll(old(d.ram), WriteOps(d.attached, pos, c))
  {
    if d.attached {
      if pos < 0 || pos > 3 {
        return;
      }
      var offset := 0;
      if pos >= 2 {
        offset := 1;
      }
      d.WriteBytes((pos + offset) * 2, Pattern(c));
    }
    // else: the dry run only logs
  }

  method WriteString(d: Display, s: string)
    requires d.Valid()
    modifies d`ram, d`bus
    ensures d.Valid()
    ensures d.bus == old(d.bus) + WriteStringOps(d.attached, s)
    ensures d.ram == ApplyAll(old(d.ram), WriteStringOps(d.attached, s))
  {
    if |s| > 4 {
      return;
    }
    assert StringOps(d.attached, s, |s|) == [];
    assert old(d.bus) + [] == old(d.bus);
    var pos := 3;
    var i := |s| - 1;
    while i >= 0
      invariant -1 <= i < |s|
      invariant pos == i + DigitCount - |s|
      invariant d.Valid() && d.attached == old(d.attached)
      invariant d.bus == old(d.bus) + StringOps(d.attached, s, i + 1)
      invariant d.ram == ApplyAll(old(d.ram), StringOps(d.attached, s, i + 1))
    {
      DrawCharacter(d, s, i, pos, old(d.bus), old(d.ram));
      i := i - 1;
      pos := pos - 1;
    }
  }

  /** One pass of the WriteString loop: character `i` drawn at position `pos`. */
  method DrawCharacter(d: Display, s: string, i: nat, pos: int, ghost bus0: seq<BusOp>, ghost ram0: seq<Byte>)
    requires d.Valid() && i < |s| <= DigitCount && pos == i + DigitCount - |s|
    requires d.bus == bus0 + StringOps(d.attached, s, i + 1)
    requires d.ram == ApplyAll(ram0, StringOps(d.attached, s, i + 1))
    modifies d`ram, d`bus
    ensures d.Valid()
    ensures d.bus == bus0 + StringOps(d.attached, s, i)
    ensures d.ram == ApplyAll(ram0, StringOps(d.attached, s, i))
  {
    ghost var before := StringOps(d.attached, s, i + 1);
    ghost var w := WriteOps(d.attached, pos, [s[i]]);
    assert StringOps(d.attached, s, i) == before + w;
    ApplyAllAppend(ram0, before, w);
    Write(d, pos, [s[i]]);
  }

  method Clear(d: Display)
    requires d.Valid()
    modifies d`ram, d`bus
    ensures d.Valid()
    ensures d.bus == old(d.bus) + ClearOps(d.attached)
    ensures d.ram == ApplyAll(old(d.ram), ClearOps(d.attached))
  {
    if d.attached {
      for i := 0 to 5
        invariant d.Valid() && d.attached
        invariant d.bus == old(d.bus) + ClearWrites(i)
        invariant d.ram == ApplyAll(old(d.ram), ClearWrites(i))
      {
        d.WriteBytes(i * 2, 0x00);
        assert ClearWrites(i + 1) == ClearWrites(i) + [RamWrite(i * 2, 0)];
        ApplyAllAppend(old(d.ram), ClearWrites(i), [RamWrite(i * 2, 0)]);
      }
    }
  }

  method SetColon(d: Display, on: bool)
    requires d.Valid()
    modifies d`ram, d`bus
    ensures d.Valid()
    ensures d.bus == old(d.bus) + ColonOps(d.attached, on)
    ensures d.ram == ApplyAll(old(d.ram), ColonOps(d.attached, on))
  {
    if d.attached {
      d.WriteBytes(ColonAddress, ColonOn & 0xFF);
    }
  }

  /** The source calls it on a nil handle in a dry run and panics: a device is required. */
  method SetBrightness(d: Display, b: Byte)
    requires d.Valid() && d.attached
    modifies d`bus
    ensures d.Valid()
    ensures d.bus == old(d.bus) + BrightnessOps(b)
  {
    if b > 15 {
      return;
    }
    d.WriteRegU8(DimmingSet | b);
  }

  method Begin(d: Display)
    requires d.Valid() && d.attached
    modifies d`bus
    ensures d.Valid()
    ensures d.bus == old(d.bus) + BeginOps()
  {
    d.WriteRegU8(SystemSetup | 0x01);
    d.WriteRegU8(DisplaySetup | 0x01 | 0x00);
    SetBrightness(d, 1);
  }

  /** Begin behind the dry-run guard: a dry run issues nothing instead of panicking. */
  method IntendedBegin(d: Display)
    requires d.Valid()
    modifies d`bus
    ensures d.Valid()
    ensures d.bus == old(d.bus) + IntendedBeginOps(d.attached)
  {
    if d.attached {
      Begin(d);
    }
  }

  // ---------------------------------------------------------------------------
  // What the transactions do

  /**
   * A write on an attached device to position 0..3 changes exactly the cell
   * of that position to the character's pattern; any other call changes nothing.
   */
  lemma WriteDrawsOneDigit(attached: bool, ram: seq<Byte>, pos: int, c: string)
    requires |ram| == RamSize
    ensures var r := ApplyAll(ram, WriteOps(attached, pos, c));
      |r| == RamSize &&
      forall a :: 0 <= a < RamSize ==>
        r[a] == if attached && 0 <= pos < DigitCount && a == DigitAddress(pos) then Pattern(c) else ram[a]
  {
    var ops := WriteOps(attached, pos, c);
    if ops != [] {
      assert ApplyAll(ram, ops) == ApplyAll(Apply(ram, ops[0]), []);
    }
  }

  /**
   * The right-alignment rule, for the characters from `lo` on: character `i`
   * lands at position `i + 4 - |s|`, and every cell left of the first of
   * those positions, the colon cell included, keeps its contents.
   */
  lemma {:induction false} StringOpsDraw(ram: seq<Byte>, s: string, lo: nat)
    requires |ram| == RamSize && |s| <= DigitCount && lo <= |s|
    ensures var r := ApplyAll(ram, StringOps(true, s, lo));
      (forall i :: lo <= i < |s| ==> r[DigitAddress(i + DigitCount - |s|)] == Pattern([s[i]])) &&
      (forall a :: 0 <= a < RamSize && CellPosition(a) < lo + DigitCount - |s| ==> r[a] == ram[a])
    decreases |s| - lo
  {
    if lo < |s| {
      var rest := StringOps(true, s, lo + 1);
      var w := WriteOps(true, lo + DigitCount - |s|, [s[lo]]);
      StringOpsDraw(ram, s, lo + 1);
      ApplyAllAppend(ram, rest, w);
      var mid := ApplyAll(ram, rest);
      WriteDrawsOneDigit(true, mid, lo + DigitCount - |s|, [s[lo]]);
      forall p | lo + DigitCount - |s| < p < DigitCount
        ensures DigitAddress(p) != DigitAddress(lo + DigitCount - |s|)
      {
        DigitAddressInjective(p, lo + DigitCount - |s|);
      }
    }
  }

  /**
   * `WriteString` right-aligns: for a string of at most four characters on an
   * attached device, character `i` is drawn at position `4 - |s| + i` (so the
   * last one at position 3), and positions `0 .. 3 - |s|`, the colon and every
   * other cell keep what they held.
   */
  lemma WriteStringRightAligns(ram: seq<Byte>, s: string)
    requires |ram| == RamSize && |s| <= DigitCount
    ensures var r := ApplyAll(ram, WriteStringOps(true, s));
      |r| == RamSize &&
      (forall i :: 0 <= i < |s| ==> r[DigitAddress(DigitCount - |s| + i)] == Pattern([s[i]])) &&
      (forall p :: 0 <= p < DigitCount - |s| ==> r[DigitAddress(p)] == ram[DigitAddress(p)]) &&
      (forall a :: 0 <= a < RamSize && !IsDigitAddress(a) ==> r[a] == ram[a])
  {
    StringOpsDraw(ram, s, 0);
  }

  /** A four-character string overwrites all four digits: nothing drawn earlier survives. */
  lemma FullStringReplacesDigits(ram: seq<Byte>, s: string)
    requires |ram| == RamSize && |s| == DigitCount
    ensures var r := ApplyAll(ram, WriteStringOps(true, s));
      (forall p :: 0 <= p < DigitCount ==> r[DigitAddress(p)] == Pattern([s[p]])) &&
      (forall a :: 0 <= a < RamSize && !IsDigitAddress(a) ==> r[a] == ram[a])
  {
    WriteStringRightAligns(ram, s);
  }

  /** Longer than four characters: not a single transaction, nothing drawn partially. */
  lemma TooLongStringIsIgnored(attached: bool, ram: seq<Byte>, s: string)
    requires |s| > DigitCount
    ensures WriteStringOps(attached, s) == []
    ensures ApplyAll(ram, WriteStringOps(attached, s)) == ram
  {
  }

  lemma {:induction false} DryStringOpsEmpty(s: string, lo: nat)
    requires |s| <= DigitCount
    ensures StringOps(false, s, lo) == []
    decreases |s| - lo
  {
    if lo < |s| {
      DryStringOpsEmpty(s, lo + 1);
    }
  }

  /** WriteString only writes display RAM: it never issues a command, so it never changes the brightness. */
  lemma {:induction false} StringOpsAreWrites(attached: bool, s: string, lo: nat)
    requires |s| <= DigitCount
    ensures forall k :: 0 <= k < |StringOps(attached, s, lo)| ==> StringOps(attached, s, lo)[k].RamWrite?
    decreases |s| - lo
  {
    if lo < |s| {
      StringOpsAreWrites(attached, s, lo + 1);
    }
  }

  /** In a dry run (`pack == nil`) Write, WriteString, Clear and setColon touch neither bus nor RAM. */
  lemma DryRunIsSilent(pos: int, c: string, s: string, on: bool)
    ensures WriteOps(false, pos, c) == []
    ensures WriteStringOps(false, s) == []
    ensures ClearOps(false) == [] && ColonOps(false, on) == []
  {
    if |s| <= DigitCount {
      DryStringOpsEmpty(s, 0);
    }
  }

  /** Clear zeroes exactly the five cells 0, 2, 4, 6, 8 (the colon among them). */
  lemma ClearBlanksFiveCells(ram: seq<Byte>)
    requires |ram| == RamSize
    ensures var r := ApplyAll(ram, ClearOps(true));
      forall a :: 0 <= a < RamSize ==> r[a] == if a % 2 == 0 && a <= 8 then 0 else ram[a]
  {
    assert ClearOps(true) == ClearWrites(5);
    ClearPrefixBlanks(ram, 5);
  }

  /** After the first `i` clearing writes, the even cells below `2 * i` are zero and the rest are as they were. */
  lemma {:induction false} ClearPrefixBlanks(ram: seq<Byte>, i: nat)
    requires |ram| == RamSize && i <= 5
    ensures var r := ApplyAll(ram, ClearWrites(i));
      forall a :: 0 <= a < RamSize ==> r[a] == if a % 2 == 0 && a < 2 * i then 0 else ram[a]
  {
    if i == 0 {
      assert ClearWrites(0) == [];
    } else {
      var w := [RamWrite(2 * (i - 1), 0)];
      ClearPrefixBlanks(ram, i - 1);
      assert ClearWrites(i) == ClearWrites(i - 1) + w;
      ApplyAllAppend(ram, ClearWrites(i - 1), w);
    }
  }

  /** As written, `setColon(false)` lights the colon just like `setColon(true)`. */
  lemma ColonIgnoresOn(ram: seq<Byte>)
    requires |ram| == RamSize
    ensures ApplyAll(ram, ColonOps(true, false))[ColonAddress] == ColonOn != 0
    ensures ColonOps(true, false) == ColonOps(true, true)
  {
    assert ApplyAll(ram, ColonOps(true, false)) == ApplyAll(Apply(ram, RamWrite(ColonAddress, ColonOn)), []);
  }

  /** The intended colon switch: the colon cell is lit exactly when `on`, and no other cell changes. */
  lemma IntendedColonFollowsOn(ram: seq<Byte>, on: bool)
    requires |ram| == RamSize
    ensures var r := ApplyAll(ram, IntendedColonOps(true, on));
      (r[ColonAddress] != 0 <==> on) &&
      forall a :: 0 <= a < RamSize && a != ColonAddress ==> r[a] == ram[a]
    ensures IntendedColonOps(true, true) == ColonOps(true, true)
  {
    var w := RamWrite(ColonAddress, if on then ColonOn else 0);
    assert ApplyAll(ram, IntendedColonOps(true, on)) == ApplyAll(Apply(ram, w), []);
  }

  /**
   * SetBrightness: nothing above 15; otherwise the single command `0xE0 | b`,
   * which equals `0xE0 + b` and leaves the device at level `b`.
   */
  lemma BrightnessCommand(prior: seq<BusOp>, b: Byte)
    ensures b > 15 ==> BrightnessOps(b) == []
    ensures b <= 15 ==> BrightnessOps(b) == [Command(0xE0 + b)]
    ensures b <= 15 ==> LastDimming(prior + BrightnessOps(b)) == Some(b)
  {
    if b <= 15 {
      assert LastDimming(BrightnessOps(b)) == Some(b);
      LastDimmingAppend(prior, BrightnessOps(b));
    }
  }

  /** Begin sends 0x21, 0x81, 0xE1 in that order and leaves brightness at 1, whatever came before. */
  lemma BeginSequence(prior: seq<BusOp>)
    ensures BeginOps() == [Command(0x21), Command(0x81), Command(0xE1)]
    ensures LastDimming(prior + BeginOps()) == Some(1)
  {
    assert LastDimming(BeginOps()) == Some(1);
    LastDimmingAppend(prior, BeginOps());
  }

  /**
   * As written, a dry run never gets past Begin: the startup panics although
   * Clear and setColon would have issued nothing, so their dry-run branches
   * are never reached from it. Only an attached device completes it.
   */
  lemma DryStartupPanics(attached: bool)
    ensures StartupAsWritten(attached).Completed? <==> attached
    ensures StartupAsWritten(false) == NilDereference
    ensures ClearOps(false) + ColonOps(false, true) == []
    ensures attached ==> StartupAsWritten(attached).ops == BeginOps() + ClearOps(true) + ColonOps(true, true)
  {
  }

  /**
   * The guarded Begin: on a device it is the original sequence and leaves
   * brightness 1; in a dry run the whole startup issues nothing.
   */
  lemma IntendedBeginGuarded(prior: seq<BusOp>)
    ensures IntendedBeginOps(true) == BeginOps() == [Command(0x21), Command(0x81), Command(0xE1)]
    ensures LastDimming(prior + IntendedBeginOps(true)) == Some(1)
    ensures IntendedBeginOps(false) + ClearOps(false) + IntendedColonOps(false, true) == []
  {
    BeginSequence(prior);
  }
}
