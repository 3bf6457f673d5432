/**
 * The HT16K33 as the driver sees it over I2C: a display RAM written with
 * `WriteBytes([addr, value])` and one-byte commands written with
 * `WriteRegU8(cmd, 0x00)` (system setup 0x20, display setup 0x80, dimming 0xE0).
 */
module Ht16k33 {
  import opened Wrappers
  import opened Segments

  /** The display RAM has 16 bytes, addresses 0x00..0x0F. */
  const RamSize := 16

  /** Command bytes: system setup, display setup and dimming set, each or-ed with its argument. */
  const SystemSetup: Byte := 0x20
  const DisplaySetup: Byte := 0x80
  const DimmingSet: Byte := 0xE0

  /** One transaction on the bus. */
  datatype BusOp = RamWrite(addr: Addr, value: Byte) | Command(cmd: Byte)

  /** What one transaction does to the display RAM. */
  function Apply(ram: seq<Byte>, op: BusOp): (r: seq<Byte>)
    ensures |r| == |ram|
  {
    match op
    case RamWrite(a, v) => if a < |ram| then ram[a := v] else ram
    case Command(_) => ram
  }

  /** The display RAM after a sequence of transactions, applied in order. */
  function ApplyAll(ram: seq<Byte>, ops: seq<BusOp>): (r: seq<Byte>)
    ensures |r| == |ram|
    decreases |ops|
  {
    if ops == [] then ram else ApplyAll(Apply(ram, ops[0]), ops[1..])
  }

  /** Running two batches of transactions one after the other is running their concatenation. */
  lemma {:induction false} ApplyAllAppend(ram: seq<Byte>, xs: seq<BusOp>, ys: seq<BusOp>)
    ensures ApplyAll(ram, xs + ys) == ApplyAll(ApplyAll(ram, xs), ys)
    decreases |xs|
  {
    if xs == [] {
      assert xs + ys == ys;
    } else {
      assert (xs + ys)[1..] == xs[1..] + ys;
      ApplyAllAppend(Apply(ram, xs[0]), xs[1..], ys);
    }
  }

  /** A batch that only sends commands leaves the RAM as it was. */
  lemma {:induction false} CommandsKeepRam(ram: seq<Byte>, ops: seq<BusOp>)
    requires forall k :: 0 <= k < |ops| ==> ops[k].Command?
    ensures ApplyAll(ram, ops) == ram
    decreases |ops|
  {
    if ops != [] {
      CommandsKeepRam(ram, ops[1..]);
    }
  }

  /** Is `cmd` a dimming-set command (high nibble 0xE)? */
  predicate IsDimming(cmd: Byte)
  {
    cmd & 0xF0 == DimmingSet
  }

  /** The dimming level the device holds after `ops`: that of the last dimming command, if any. */
  function LastDimming(ops: seq<BusOp>): (r: Option<Byte>)
    ensures r.Some? ==> r.value <= 15
  {
    if ops == [] then None
    else
      var last := ops[|ops| - 1];
      if last.Command? && IsDimming(last.cmd) then Some(last.cmd & 0x0F)
      else LastDimming(ops[..|ops| - 1])
  }

  /** A later dimming command overrides everything sent before it. */
  lemma {:induction false} LastDimmingAppend(xs: seq<BusOp>, ys: seq<BusOp>)
    requires LastDimming(ys).Some?
    ensures LastDimming(xs + ys) == LastDimming(ys)
  {
    var zs := xs + ys;
    var last := ys[|ys| - 1];
    assert zs[|zs| - 1] == last;
    if !(last.Command? && IsDimming(last.cmd)) {
      assert zs[..|zs| - 1] == xs + ys[..|ys| - 1];
      LastDimmingAppend(xs, ys[..|ys| - 1]);
    }
  }

  /** RAM writes do not change the dimming level. */
  lemma {:induction false} LastDimmingSkipsRamWrites(xs: seq<BusOp>, ys: seq<BusOp>)
    requires forall k :: 0 <= k < |ys| ==> ys[k].RamWrite?
    ensures LastDimming(xs + ys) == LastDimming(xs)
    decreases |ys|
  {
    if ys == [] {
      assert xs + ys == xs;
    } else {
      var zs := xs + ys;
      assert zs[|zs| - 1] == ys[|ys| - 1];
      assert zs[..|zs| - 1] == xs + ys[..|ys| - 1];
      LastDimmingSkipsRamWrites(xs, ys[..|ys| - 1]);
    }
  }

  /**
   * The `pack` handle together with the device behind it. `attached` is false
   * in a dry run (`pack == nil`); `ram` is the device's display RAM and `bus`
   * records every transaction issued, in order. Each operation states its new
   * RAM as what its own transactions make of the old one.
   */
  class Display {
    var attached: bool
    var ram: seq<Byte>
    var bus: seq<BusOp>

    ghost predicate Valid()
      reads this
    {
      |ram| == RamSize
    }

    constructor (attached: bool, powerOn: seq<Byte>)
      requires |powerOn| == RamSize
      ensures Valid()
      ensures this.attached == attached && ram == powerOn && bus == []
    {
      this.attached := attached;
      this.ram := powerOn;
      this.bus := [];
    }

    /** `pack.WriteBytes([]byte{addr, value})`: one RAM write; bus errors are not modelled. */
    method WriteBytes(addr: Addr, value: Byte)
      requires Valid() && attached
      modifies this`ram, this`bus
      ensures Valid()
      ensures bus == old(bus) + [RamWrite(addr, value)]
      ensures ram == Apply(old(ram), RamWrite(addr, value))
    {
      bus := bus + [RamWrite(addr, value)];
      ram := Apply(ram, RamWrite(addr, value));
    }

    /** `pack.WriteRegU8(cmd, 0x00)`: one command byte; the RAM is untouched. */
    method WriteRegU8(cmd: Byte)
      requires Valid() && attached
      modifies this`bus
      ensures Valid()
      ensures bus == old(bus) + [Command(cmd)]
    {
      bus := bus + [Command(cmd)];
    }
  }
}
