/**
 The register-level layer shared by the SCH5127-based chassis drivers
 (src/led_control_sch5127_base.h): ICH9 GPIO registers reached from the LPC
 bridge's GPIOBASE, SCH5127 runtime registers, read-modify-write of a port,
 and the initialisation that finds both base addresses and disables the
 watchdog.

 I/O ports are a total map from 16-bit port number to the current value of
 the 32-bit register behind it. A register value is written as the set of
 positions (0 to 31) of its 1-bits, so `|`, `& ~` and a bit test become
 union, difference and membership. `inl`/`outl`/`outb` become reads and
 writes of that map, and every write is also appended to a log so that a
 skipped write is observable.
 */
module Sch5127 {

  // ICH9 GPIO registers, offsets from GPIOBASE
  const GPIO_USE_SEL: nat := 0x00
  const GP_IO_SEL: nat := 0x04
  const GP_LVL: nat := 0x0C
  const GPO_BLINK: nat := 0x18
  const GPIO_USE_SEL2: nat := 0x30
  const GP_IO_SEL2: nat := 0x34
  const GP_LVL2: nat := 0x38

  // SCH5127 runtime registers, offsets from the runtime register base
  const REG_GP1: nat := 0x4B
  const REG_WDT_TIME_OUT: nat := 0x65
  const REG_WDT_VAL: nat := 0x66
  const REG_WDT_CFG: nat := 0x67
  const REG_WDT_CTRL: nat := 0x68
  const REG_HWM_INDEX: nat := 0x70
  const REG_HWM_DATA: nat := 0x71

  /** Hardware-monitor register holding the PWM3 duty cycle (the LED brightness). */
  const HWM_PWM3_DUTY_CYCLE: bv8 := 0x32

  /** A 32-bit register value: the positions of its 1-bits. */
  type Reg = set<nat>

  // PCI configuration mechanism #1; the LPC bridge is bus 0, device 31, function 0
  /** 0x8000_F800: enable bit 31, device 31 (bits 11 to 15), register 0x00. */
  const CONF_VENDOR_ID: Reg := {31, 15, 14, 13, 12, 11}
  /** 0x8000_F848: as CONF_VENDOR_ID, register 0x48 (bits 3 and 6). */
  const CONF_GPIOBASE: Reg := {31, 15, 14, 13, 12, 11, 6, 3}
  const PCI_CONFIG_ADDRESS: nat := 0x0CF8
  const PCI_CONFIG_DATA: nat := 0x0CFC

  /** The watchdog registers, in the order they are cleared. */
  const WDT_REGS: seq<nat> := [REG_WDT_VAL, REG_WDT_TIME_OUT, REG_WDT_CFG, REG_WDT_CTRL]

  /** I/O port number (0 to 0xFFFF) to the value of its register. */
  type Ports = map<int, Reg>

  /** Every port has a value. */
  ghost predicate Total(ports: Ports) {
    forall p :: 0 <= p < 0x10000 ==> p in ports
  }

  datatype PortWrite = Outb(port: int, byte: bv8) | Outl(port: int, value: Reg)

  /** The port `base + offset` reaches: the unsigned sum wraps at 2^32 and
      `inl`/`outl`/`outb` take an unsigned short, so it is taken modulo 0x10000. */
  function Port(base: bv32, offset: nat): (p: int)
    ensures 0 <= p < 0x10000
  {
    (base as int + offset) % 0x10000
  }

  /** Two offsets below 0x10000 reach two different ports from any base. */
  lemma PortsDistinct(base: bv32, o1: nat, o2: nat)
    requires o1 < 0x10000 && o2 < 0x10000 && o1 != o2
    ensures Port(base, o1) != Port(base, o2)
  {
    var x, y := base as int + o1, base as int + o2;
    var qx, qy := x / 0x10000, y / 0x10000;
    assert x == 0x10000 * qx + Port(base, o1);
    assert y == 0x10000 * qy + Port(base, o2);
    assert Port(base, o1) - Port(base, o2) == (o1 - o2) - 0x10000 * (qx - qy);
    if qx > qy {
      assert 0x10000 * (qx - qy) >= 0x10000;
    } else if qx < qy {
      assert 0x10000 * (qy - qx) >= 0x10000;
    }
  }

  /** The one-bit masks of a byte, bit 0 first. */
  const BYTE_MASKS: seq<bv8> := [0x01, 0x02, 0x04, 0x08, 0x10, 0x20, 0x40, 0x80]

  /** The register value an `outb` of `v` leaves: the byte zero-extended. */
  function ByteBits(v: bv8): (r: Reg)
    ensures forall i :: i in r ==> i < 8
  {
    set i: nat | i < 8 && v & BYTE_MASKS[i] != 0
  }

  /** Writing the byte 0 clears the whole register. */
  lemma ZeroByteBits()
    ensures ByteBits(0) == {}
  {
    forall i: nat | i < 8
      ensures i !in ByteBits(0)
    {
      assert (0 as bv8) & BYTE_MASKS[i] == 0;
    }
  }

  /** The value `doBits_` computes: `bits` set or cleared, every other bit kept. */
  function BitsApplied(val: Reg, bits: Reg, state: bool): (r: Reg)
    ensures forall i :: i in r <==> if i in bits then state else i in val
  {
    if state then val + bits else val - bits
  }

  /** Applying the same change twice is applying it once. */
  lemma BitsAppliedIdempotent(val: Reg, bits: Reg, state: bool)
    ensures BitsApplied(BitsApplied(val, bits, state), bits, state) == BitsApplied(val, bits, state)
  {
    var once := BitsApplied(val, bits, state);
    var twice := BitsApplied(once, bits, state);
    assert forall i :: i in twice <==> i in once;
  }

  /** The write `doBits_` issues: none when the value would not change. */
  function ChangedWrite(port: int, val: Reg, newVal: Reg): (w: seq<PortWrite>)
    ensures |w| <= 1
    ensures w == [] <==> val == newVal
    ensures w != [] ==> w[0] == Outl(port, newVal)
  {
    if val == newVal then [] else [Outl(port, newVal)]
  }

  /** The position of a GPIO within its 32-bit register; for a GPIO at or
      above 32, `1 << bit` shifts by `bit` modulo 32 (the x86 shift). */
  function LevelBit(bit: nat): (i: nat)
    ensures i < 32
  {
    bit % 32
  }

  /** GPIOs 0..31 live in the first register of a pair, 32..63 in the second. */
  function WordPort(base: bv32, bit: nat, first: nat, second: nat): int {
    Port(base, if bit < 32 then first else second)
  }

  function LevelPort(base: bv32, bit: nat): int {
    WordPort(base, bit, GP_LVL, GP_LVL2)
  }

  function BlinkPort(base: bv32): int {
    Port(base, GPO_BLINK)
  }

  /** The level of a GPIO, read from GP_LVL or GP_LVL2. */
  ghost function Level(ports: Ports, base: bv32, bit: nat): bool
    requires Total(ports)
  {
    LevelBit(bit) in ports[LevelPort(base, bit)]
  }

  /** Whether a GPIO is selected as GPIO (GPIO_USE_SEL, GPIO_USE_SEL2). */
  ghost function UseSelected(ports: Ports, base: bv32, bit: nat): bool
    requires Total(ports)
  {
    LevelBit(bit) in ports[WordPort(base, bit, GPIO_USE_SEL, GPIO_USE_SEL2)]
  }

  /** Whether a GPIO is an input (GP_IO_SEL, GP_IO_SEL2). */
  ghost function IsInput(ports: Ports, base: bv32, bit: nat): bool
    requires Total(ports)
  {
    LevelBit(bit) in ports[WordPort(base, bit, GP_IO_SEL, GP_IO_SEL2)]
  }

  /** Whether blinking is enabled for one of GPIOs 0..31 (GPO_BLINK). */
  ghost function Blinking(ports: Ports, base: bv32, bit: nat): bool
    requires Total(ports)
  {
    LevelBit(bit) in ports[BlinkPort(base)]
  }

  /** Two different GPIOs below 64 never share a register and a bit position. */
  lemma WordBitsDistinct(base: bv32, a: nat, b: nat, first: nat, second: nat)
    requires a < 64 && b < 64 && a != b
    requires first < 0x10000 && second < 0x10000 && first != second
    ensures WordPort(base, a, first, second) != WordPort(base, b, first, second)
         || LevelBit(a) != LevelBit(b)
  {
    if (a < 32) != (b < 32) {
      PortsDistinct(base, first, second);
    }
  }

  /** The port map after `setGpLpcLvl_(bit, state)`. */
  function SetLevelPorts(ports: Ports, base: bv32, bit: nat, state: bool): (r: Ports)
    requires Total(ports)
    ensures Total(r)
    ensures (LevelBit(bit) in r[LevelPort(base, bit)]) == state
    ensures forall i :: i != LevelBit(bit) ==> (i in r[LevelPort(base, bit)] <==> i in ports[LevelPort(base, bit)])
    ensures forall p :: 0 <= p < 0x10000 && p != LevelPort(base, bit) ==> r[p] == ports[p]
  {
    var p := LevelPort(base, bit);
    ports[p := BitsApplied(ports[p], {LevelBit(bit)}, state)]
  }

  /** The write `setGpLpcLvl_(bit, state)` issues: none exactly when the GPIO already has that level. */
  function LevelWrite(ports: Ports, base: bv32, bit: nat, state: bool): (w: seq<PortWrite>)
    requires Total(ports)
    ensures w == [] <==> Level(ports, base, bit) == state
  {
    var p := LevelPort(base, bit);
    assert BitsApplied(ports[p], {LevelBit(bit)}, state) == ports[p] <==> Level(ports, base, bit) == state;
    ChangedWrite(p, ports[p], BitsApplied(ports[p], {LevelBit(bit)}, state))
  }

  /** Setting one GPIO level sets exactly that level and keeps every other GPIO's. */
  lemma SetLevelEffect(ports: Ports, base: bv32, bit: nat, state: bool, b: nat)
    requires Total(ports) && bit < 64 && b < 64
    ensures Level(SetLevelPorts(ports, base, bit, state), base, b)
         == if b == bit then state else Level(ports, base, b)
  {
    if b != bit {
      WordBitsDistinct(base, b, bit, GP_LVL, GP_LVL2);
    }
  }

  /** Driving a level leaves every GPIO's blink enable alone. */
  lemma SetLevelKeepsBlinking(ports: Ports, base: bv32, bit: nat, state: bool, b: nat)
    requires Total(ports)
    ensures Blinking(SetLevelPorts(ports, base, bit, state), base, b) == Blinking(ports, base, b)
  {
    PortsDistinct(base, GPO_BLINK, GP_LVL);
    PortsDistinct(base, GPO_BLINK, GP_LVL2);
  }

  /** Driving a level leaves every GPIO's use and I/O selection alone. */
  lemma SetLevelKeepsSelection(ports: Ports, base: bv32, bit: nat, state: bool, b: nat)
    requires Total(ports)
    ensures UseSelected(SetLevelPorts(ports, base, bit, state), base, b) == UseSelected(ports, base, b)
    ensures IsInput(SetLevelPorts(ports, base, bit, state), base, b) == IsInput(ports, base, b)
  {
    forall o | o in {GPIO_USE_SEL, GPIO_USE_SEL2, GP_IO_SEL, GP_IO_SEL2}
      ensures Port(base, o) != Port(base, GP_LVL) && Port(base, o) != Port(base, GP_LVL2)
    {
      PortsDistinct(base, o, GP_LVL);
      PortsDistinct(base, o, GP_LVL2);
    }
  }

  /** doBits_ on the blink register sets or clears exactly the given bits' blinking. */
  lemma BlinkWriteEffect(ports: Ports, base: bv32, bits: Reg, state: bool, b: nat)
    requires Total(ports) && b < 32
    ensures Blinking(ports[BlinkPort(base) := BitsApplied(ports[BlinkPort(base)], bits, state)], base, b)
         == if b in bits then state else Blinking(ports, base, b)
  {
  }

  /** Writing the blink register leaves every GPIO's level alone. */
  lemma BlinkWriteKeepsLevels(ports: Ports, base: bv32, v: Reg, b: nat)
    requires Total(ports)
    ensures Total(ports[BlinkPort(base) := v])
    ensures Level(ports[BlinkPort(base) := v], base, b) == Level(ports, base, b)
  {
    PortsDistinct(base, GPO_BLINK, GP_LVL);
    PortsDistinct(base, GPO_BLINK, GP_LVL2);
  }

  /** Writing the blink register leaves every GPIO's use and I/O selection alone. */
  lemma BlinkWriteKeepsSelection(ports: Ports, base: bv32, v: Reg, b: nat)
    requires Total(ports)
    ensures Total(ports[BlinkPort(base) := v])
    ensures UseSelected(ports[BlinkPort(base) := v], base, b) == UseSelected(ports, base, b)
    ensures IsInput(ports[BlinkPort(base) := v], base, b) == IsInput(ports, base, b)
  {
    forall o | o in {GPIO_USE_SEL, GPIO_USE_SEL2, GP_IO_SEL, GP_IO_SEL2}
      ensures Port(base, o) != Port(base, GPO_BLINK)
    {
      PortsDistinct(base, o, GPO_BLINK);
    }
  }

  /** The four selection registers `setGpioSelInput_` writes. */
  function SelInputTargets(base: bv32): set<int> {
    {Port(base, GPIO_USE_SEL), Port(base, GPIO_USE_SEL2), Port(base, GP_IO_SEL), Port(base, GP_IO_SEL2)}
  }

  /** The port map after `setGpioSelInput_` with the words `w`: the GPIOs of `w` are
      added to both use-select registers and removed from both I/O-select registers,
      and no other port changes. */
  function SelInputPorts(ports: Ports, base: bv32, w: Words): (r: Ports)
    requires Total(ports)
    ensures Total(r)
    ensures forall p :: 0 <= p < 0x10000 && p !in SelInputTargets(base) ==> r[p] == ports[p]
  {
    var use1, use2 := Port(base, GPIO_USE_SEL), Port(base, GPIO_USE_SEL2);
    var io1, io2 := Port(base, GP_IO_SEL), Port(base, GP_IO_SEL2);
    ports[use1 := ports[use1] + w.bits1][use2 := ports[use2] + w.bits2]
         [io1 := ports[io1] - w.bits1][io2 := ports[io2] - w.bits2]
  }

  /** The four `outl`s of `setGpioSelInput_`, in order. */
  function SelInputWrites(ports: Ports, base: bv32, w: Words): seq<PortWrite>
    requires Total(ports)
  {
    var use1, use2 := Port(base, GPIO_USE_SEL), Port(base, GPIO_USE_SEL2);
    var io1, io2 := Port(base, GP_IO_SEL), Port(base, GP_IO_SEL2);
    [Outl(use1, ports[use1] + w.bits1), Outl(use2, ports[use2] + w.bits2),
     Outl(io1, ports[io1] - w.bits1), Outl(io2, ports[io2] - w.bits2)]
  }

  /** The selection writes leave every GPIO's level and blink enable alone. */
  lemma SelInputKeepsLevels(ports: Ports, base: bv32, w: Words, b: nat)
    requires Total(ports)
    ensures Level(SelInputPorts(ports, base, w), base, b) == Level(ports, base, b)
    ensures Blinking(SelInputPorts(ports, base, w), base, b) == Blinking(ports, base, b)
  {
    forall o | o in {GPIO_USE_SEL, GPIO_USE_SEL2, GP_IO_SEL, GP_IO_SEL2}
      ensures Port(base, o) != Port(base, GP_LVL) && Port(base, o) != Port(base, GP_LVL2)
      ensures Port(base, o) != Port(base, GPO_BLINK)
    {
      PortsDistinct(base, o, GP_LVL);
      PortsDistinct(base, o, GP_LVL2);
      PortsDistinct(base, o, GPO_BLINK);
    }
  }

  /** The runtime register base read from the SuperI/O configuration bytes:
      `msb` is its high byte and `lsb` its low byte, so it is `msb * 256 + lsb` and below 0x10000. */
  function RuntimeBase(msb: bv8, lsb: bv8): (r: bv32)
    ensures r == msb as bv32 * 256 + lsb as bv32 && r <= 0xFFFF
    ensures r >> 8 == msb as bv32 && r & 0xFF == lsb as bv32
  {
    (msb as bv32 << 8) | lsb as bv32
  }

  /** The GPIOBASE sanity check: reserved bits zero and bit 0 (I/O space) hardwired to 1. */
  predicate ValidGpioBase(raw: bv32): (r: bool)
    ensures r <==> raw & 1 == 1 && raw & 0x7E == 0 && raw >> 16 == 0
  {
    raw & 0xFFFF_007F == 1
  }

  /** An accepted base, with bit 0 cleared, is 128-aligned and below 0x10000. */
  lemma AcceptedGpioBase(raw: bv32)
    requires ValidGpioBase(raw)
    ensures raw & !1 == raw - 1
    ensures (raw & !1) & 0x7F == 0
    ensures raw & !1 <= 0xFF80
  {}

  /** The smallest element, as `std::min_element` finds it. */
  method MinElement(a: seq<int>) returns (m: int)
    requires |a| > 0
    ensures m in a
    ensures forall i :: 0 <= i < |a| ==> m <= a[i]
  {
    m := a[0];
    var i := 1;
    while i < |a|
      invariant 1 <= i <= |a|
      invariant m in a[..i]
      invariant forall j :: 0 <= j < i ==> m <= a[j]
    {
      if a[i] < m {
        m := a[i];
      }
      i := i + 1;
    }
  }

  /** The largest element, as `std::max_element` finds it. */
  method MaxElement(a: seq<int>) returns (m: int)
    requires |a| > 0
    ensures m in a
    ensures forall i :: 0 <= i < |a| ==> a[i] <= m
  {
    m := a[0];
    var i := 1;
    while i < |a|
      invariant 1 <= i <= |a|
      invariant m in a[..i]
      invariant forall j :: 0 <= j < i ==> a[j] <= m
    {
      if m < a[i] {
        m := a[i];
      }
      i := i + 1;
    }
  }

  /** The writes of the watchdog loop, in order. */
  function WatchdogWrites(regs: bv32): (w: seq<PortWrite>)
    ensures |w| == |WDT_REGS|
  {
    seq(|WDT_REGS|, i requires 0 <= i < |WDT_REGS| => Outb(Port(regs, WDT_REGS[i]), 0))
  }

  /** The four watchdog registers are four different ports. */
  lemma WatchdogPortsDistinct(regs: bv32, i: int, j: int)
    requires 0 <= i < |WDT_REGS| && 0 <= j < |WDT_REGS| && i != j
    ensures WatchdogWrites(regs)[i].port != WatchdogWrites(regs)[j].port
  {
    PortsDistinct(regs, WDT_REGS[i], WDT_REGS[j]);
  }

  /** The port map after the first `n` iterations of the watchdog loop: those registers zeroed. */
  function ZeroedWatchdog(ports: Ports, regs: bv32, n: nat): (r: Ports)
    requires Total(ports) && n <= |WDT_REGS|
    ensures Total(r)
    ensures forall i :: 0 <= i < n ==> r[Port(regs, WDT_REGS[i])] == {}
  {
    if n == 0 then ports
    else
      var prev := ZeroedWatchdog(ports, regs, n - 1);
      forall i | 0 <= i < n - 1
        ensures Port(regs, WDT_REGS[i]) != Port(regs, WDT_REGS[n - 1])
      {
        PortsDistinct(regs, WDT_REGS[i], WDT_REGS[n - 1]);
      }
      prev[Port(regs, WDT_REGS[n - 1]) := {}]
  }

  /** What a successful base-class `Init` leaves in the port space: the PCI address
      register pointing at GPIOBASE and the watchdog registers zeroed. */
  function InitPorts(ports: Ports, regs: bv32): (r: Ports)
    requires Total(ports)
    ensures Total(r)
  {
    ZeroedWatchdog(ports[PCI_CONFIG_ADDRESS := CONF_GPIOBASE], regs, |WDT_REGS|)
  }

  /** The writes of a successful base-class `Init`, in order. */
  function InitWrites(regs: bv32): seq<PortWrite> {
    [Outl(PCI_CONFIG_ADDRESS, CONF_VENDOR_ID), Outl(PCI_CONFIG_ADDRESS, CONF_GPIOBASE)] + WatchdogWrites(regs)
  }

  /** The port map after a failed `initPciLpc_`. */
  function FailedInitPorts(ports: Ports, accepted: bool): Ports {
    ports[PCI_CONFIG_ADDRESS := if accepted then CONF_GPIOBASE else CONF_VENDOR_ID]
  }

  /** The writes of a failed `initPciLpc_`: the identity query, and the GPIOBASE query
      when the identity was accepted. */
  function FailedInitWrites(accepted: bool): seq<PortWrite> {
    [Outl(PCI_CONFIG_ADDRESS, CONF_VENDOR_ID)] + (if accepted then [Outl(PCI_CONFIG_ADDRESS, CONF_GPIOBASE)] else [])
  }

  /** A pair of GPIO words accumulated by `setBit32_`. */
  datatype Words = Words(bits1: Reg, bits2: Reg) {
    predicate Has(bit: nat) {
      LevelBit(bit) in (if bit < 32 then bits1 else bits2)
    }
  }

  /** `setBit32_` on a pair of words: the bit goes into the word that holds it. */
  function WithBit(bit: nat, w: Words): Words {
    if bit < 32 then w.(bits1 := w.bits1 + {LevelBit(bit)})
    else w.(bits2 := w.bits2 + {LevelBit(bit)})
  }

  /** Adding a GPIO below 64 adds exactly that GPIO. */
  lemma WithBitHas(bit: nat, w: Words, b: nat)
    requires bit < 64 && b < 64
    ensures WithBit(bit, w).Has(b) <==> b == bit || w.Has(b)
  {}

  /** The words holding every GPIO of `bits`, accumulated left to right. */
  function CollectBits(bits: seq<nat>): Words {
    if bits == [] then Words({}, {}) else WithBit(bits[|bits| - 1], CollectBits(bits[..|bits| - 1]))
  }

  lemma CollectBitsSnoc(bits: seq<nat>, bit: nat)
    ensures CollectBits(bits + [bit]) == WithBit(bit, CollectBits(bits))
  {
    assert (bits + [bit])[..|bits|] == bits;
  }

  /** The collected words hold exactly the listed GPIOs. */
  lemma {:induction false} CollectBitsExact(bits: seq<nat>, b: nat)
    requires forall i :: 0 <= i < |bits| ==> bits[i] < 64
    requires b < 64
    ensures CollectBits(bits).Has(b) <==> b in bits
  {
    if bits == [] {
    } else {
      var init := bits[..|bits| - 1];
      CollectBitsExact(init, b);
      WithBitHas(bits[|bits| - 1], CollectBits(init), b);
      assert bits == init + [bits[|bits| - 1]];
    }
  }

  /** `setBit32_`, with its by-reference words as in- and out-parameters. */
  method SetBit32(bit: nat, bits1: Reg, bits2: Reg) returns (r1: Reg, r2: Reg)
    ensures Words(r1, r2) == WithBit(bit, Words(bits1, bits2))
  {
    r1, r2 := bits1, bits2;
    if bit < 32 {
      r1 := r1 + {LevelBit(bit)};
    } else {
      r2 := r2 + {LevelBit(bit)};
    }
  }

  /** Register index that `setGpRegsLvl_` computes: `((bit >> 4) & 0xF) - 1`.
      `>>` on an int is a floor division and `& 0xF` a non-negative remainder,
      which are Dafny's `/` and `%`. */
  function GpRegsIndex(bit: int): (r: int)
    ensures -1 <= r <= 14
    ensures 0 <= bit < 256 ==> r == bit / 16 - 1
  {
    (bit / 16) % 16 - 1
  }

  /** The base class's state: the port space, the write log and the two discovered base addresses. */
  class Sch5127Base {
    var ports: Ports
    var writes: seq<PortWrite>
    var gpioBase: bv32
    var runtimeBase: bv32

    ghost predicate Valid()
      reads this
    {
      Total(ports)
    }

    constructor (initial: Ports)
      requires Total(initial)
      ensures Valid() && ports == initial && writes == []
      ensures gpioBase == 0 && runtimeBase == 0
    {
      ports := initial;
      writes := [];
      gpioBase := 0;
      runtimeBase := 0;
    }

    method Outl(value: Reg, port: int)
      requires Valid() && 0 <= port < 0x10000
      modifies this`ports, this`writes
      ensures Valid()
      ensures ports == old(ports)[port := value]
      ensures writes == old(writes) + [PortWrite.Outl(port, value)]
    {
      ports := ports[port := value];
      writes := writes + [PortWrite.Outl(port, value)];
    }

    method Outb(value: bv8, port: int)
      requires Valid() && 0 <= port < 0x10000
      modifies this`ports, this`writes
      ensures Valid()
      ensures ports == old(ports)[port := ByteBits(value)]
      ensures writes == old(writes) + [PortWrite.Outb(port, value)]
    {
      ports := ports[port := ByteBits(value)];
      writes := writes + [PortWrite.Outb(port, value)];
    }

    /** `doBits_`: read, set or clear `bits`, and write back only if the value changed. */
    method DoBits(bits: Reg, port: int, state: bool)
      requires Valid() && 0 <= port < 0x10000
      modifies this`ports, this`writes
      ensures Valid()
      ensures ports == old(ports)[port := BitsApplied(old(ports[port]), bits, state)]
      ensures writes == old(writes) + ChangedWrite(port, old(ports[port]), BitsApplied(old(ports[port]), bits, state))
    {
      var val := ports[port];
      var newVal := if state then val + bits else val - bits;
      if val != newVal {
        Outl(newVal, port);
      } else {
        assert ports == ports[port := newVal];
      }
    }

    /** `setGpLpcLvl_`: drive one GPIO level through GP_LVL or GP_LVL2. */
    method SetGpLpcLvl(bit: nat, state: bool)
      requires Valid()
      modifies this`ports, this`writes
      ensures Valid()
      ensures ports == SetLevelPorts(old(ports), gpioBase, bit, state)
      ensures writes == old(writes) + LevelWrite(old(ports), gpioBase, bit, state)
      ensures bit < 64 ==> forall b: nat :: b < 64 ==>
        Level(ports, gpioBase, b) == if b == bit then state else Level(old(ports), gpioBase, b)
      ensures writes == old(writes) <==> Level(old(ports), gpioBase, bit) == state
    {
      DoBits({LevelBit(bit)}, LevelPort(gpioBase, bit), state);
      if bit < 64 {
        forall b: nat | b < 64
          ensures Level(ports, gpioBase, b) == if b == bit then state else Level(old(ports), gpioBase, b)
        {
          SetLevelEffect(old(ports), gpioBase, bit, state, b);
        }
      }
      var p := LevelPort(gpioBase, bit);
      assert old(ports[p]) == ports[p] <==> Level(old(ports), gpioBase, bit) == state;
    }

    /** `setGpRegsLvl_`: drive one GPIO through the SCH5127 GP data registers;
        the source asserts that the register index is not negative. */
    method SetGpRegsLvl(bit: int, state: bool)
      requires Valid()
      requires GpRegsIndex(bit) >= 0
      modifies this`ports, this`writes
      ensures Valid()
      ensures var p := Port(runtimeBase, REG_GP1 + GpRegsIndex(bit));
        && ports == old(ports)[p := BitsApplied(old(ports[p]), {bit % 16}, state)]
        && writes == old(writes) + ChangedWrite(p, old(ports[p]), ports[p])
        && (bit % 16 in ports[p] <==> state)
    {
      var reg := GpRegsIndex(bit);
      DoBits({bit % 16}, Port(runtimeBase, REG_GP1 + reg), state);
    }

    /** `setGpioSelInput_`: make the given GPIOs GPIOs (use select) and outputs (I/O select). */
    method SetGpioSelInput(bits1: Reg, bits2: Reg)
      requires Valid()
      modifies this`ports, this`writes
      ensures Valid()
      ensures ports == SelInputPorts(old(ports), gpioBase, Words(bits1, bits2))
      ensures writes == old(writes) + SelInputWrites(old(ports), gpioBase, Words(bits1, bits2))
      ensures forall b: nat :: b < 64 ==>
        && UseSelected(ports, gpioBase, b) == (Words(bits1, bits2).Has(b) || UseSelected(old(ports), gpioBase, b))
        && IsInput(ports, gpioBase, b) == (!Words(bits1, bits2).Has(b) && IsInput(old(ports), gpioBase, b))
    {
      var use1, use2 := Port(gpioBase, GPIO_USE_SEL), Port(gpioBase, GPIO_USE_SEL2);
      var io1, io2 := Port(gpioBase, GP_IO_SEL), Port(gpioBase, GP_IO_SEL2);
      PortsDistinct(gpioBase, GPIO_USE_SEL, GPIO_USE_SEL2);
      PortsDistinct(gpioBase, GPIO_USE_SEL, GP_IO_SEL);
      PortsDistinct(gpioBase, GPIO_USE_SEL, GP_IO_SEL2);
      PortsDistinct(gpioBase, GPIO_USE_SEL2, GP_IO_SEL);
      PortsDistinct(gpioBase, GPIO_USE_SEL2, GP_IO_SEL2);
      PortsDistinct(gpioBase, GP_IO_SEL, GP_IO_SEL2);
      Outl(ports[use1] + bits1, use1);
      Outl(ports[use2] + bits2, use2);
      Outl(ports[io1] - bits1, io1);
      Outl(ports[io2] - bits2, io2);
    }

    /** `disableWatchDog_`: zero the four watchdog registers; returns the I/O permission range it needs. */
    method DisableWatchDog() returns (permFrom: int, permCount: int)
      requires Valid()
      modifies this`ports, this`writes
      ensures Valid()
      ensures permFrom == runtimeBase as int + REG_WDT_TIME_OUT && permCount == 4
      ensures writes == old(writes) + WatchdogWrites(runtimeBase)
      ensures ports == ZeroedWatchdog(old(ports), runtimeBase, |WDT_REGS|)
      ensures forall p :: 0 <= p < 0x10000 ==>
        ports[p] == if PortWrite.Outb(p, 0) in WatchdogWrites(runtimeBase) then {} else old(ports[p])
    {
      var regMin := MinElement(WDT_REGS);
      var regMax := MaxElement(WDT_REGS);
      assert regMin == REG_WDT_TIME_OUT by {
        assert regMin <= WDT_REGS[1];
        assert forall r :: r in WDT_REGS ==> r >= REG_WDT_TIME_OUT;
      }
      assert regMax == REG_WDT_CTRL by {
        assert regMax >= WDT_REGS[3];
        assert forall r :: r in WDT_REGS ==> r <= REG_WDT_CTRL;
      }
      var regCnt := regMax - regMin + 1;
      permFrom, permCount := runtimeBase as int + regMin, regCnt;
      ZeroByteBits();
      var i := 0;
      while i < |WDT_REGS|
        invariant 0 <= i <= |WDT_REGS|
        invariant Valid()
        invariant writes == old(writes) + WatchdogWrites(runtimeBase)[..i]
        invariant ports == ZeroedWatchdog(old(ports), runtimeBase, i)
        invariant forall p :: 0 <= p < 0x10000 ==>
          ports[p] == if PortWrite.Outb(p, 0) in WatchdogWrites(runtimeBase)[..i] then {} else old(ports[p])
      {
        Outb(0, Port(runtimeBase, WDT_REGS[i]));
        assert WatchdogWrites(runtimeBase)[..i + 1]
            == WatchdogWrites(runtimeBase)[..i] + [PortWrite.Outb(Port(runtimeBase, WDT_REGS[i]), 0)];
        i := i + 1;
      }
      assert WatchdogWrites(runtimeBase)[..i] == WatchdogWrites(runtimeBase);
    }

    /** `initPciLpc_`: check the LPC bridge's identity, then read and validate GPIOBASE.
        `accepts` is the driver's `chkPciDeviceVendorId_`; `didVid` and `rawBase`
        are what the PCI configuration data port returns. */
    method InitPciLpc(accepts: bv32 -> bool, didVid: bv32, rawBase: bv32) returns (ok: bool)
      requires Valid()
      modifies this`ports, this`writes, this`gpioBase
      ensures Valid()
      ensures ok == (accepts(didVid) && ValidGpioBase(rawBase))
      ensures gpioBase == if !accepts(didVid) then old(gpioBase)
                          else if ValidGpioBase(rawBase) then rawBase & !1 else rawBase
      ensures writes == old(writes) + [PortWrite.Outl(PCI_CONFIG_ADDRESS, CONF_VENDOR_ID)]
                      + (if accepts(didVid) then [PortWrite.Outl(PCI_CONFIG_ADDRESS, CONF_GPIOBASE)] else [])
      ensures ports == old(ports)[PCI_CONFIG_ADDRESS := if accepts(didVid) then CONF_GPIOBASE else CONF_VENDOR_ID]
      ensures ok ==> gpioBase & 0x7F == 0 && gpioBase <= 0xFF80
    {
      Outl(CONF_VENDOR_ID, PCI_CONFIG_ADDRESS);
      if !accepts(didVid) {
        return false;
      }
      Outl(CONF_GPIOBASE, PCI_CONFIG_ADDRESS);
      gpioBase := rawBase;
      if !ValidGpioBase(gpioBase) {
        return false;
      }
      AcceptedGpioBase(rawBase);
      gpioBase := gpioBase & !1;
      ok := true;
    }

    /** `initSch5127_` without the SuperI/O conversation: `msb` and `lsb` are the bytes it reads. */
    method InitSch5127(msb: bv8, lsb: bv8) returns (ok: bool)
      modifies this`runtimeBase
      ensures ok && runtimeBase == RuntimeBase(msb, lsb)
    {
      runtimeBase := (msb as bv32 << 8) | lsb as bv32;
      ok := true;
    }

    /** `Init`: both base addresses found, then the watchdog disabled. */
    method Init(accepts: bv32 -> bool, didVid: bv32, rawBase: bv32, msb: bv8, lsb: bv8) returns (ok: bool)
      requires Valid()
      modifies this`ports, this`writes, this`gpioBase, this`runtimeBase
      ensures Valid()
      ensures ok == (accepts(didVid) && ValidGpioBase(rawBase))
      ensures ok ==> gpioBase == rawBase & !1 && runtimeBase == RuntimeBase(msb, lsb)
      ensures ok ==> ports == InitPorts(old(ports), runtimeBase) && writes == old(writes) + InitWrites(runtimeBase)
      ensures ok ==> forall i :: 0 <= i < |WDT_REGS| ==> ports[Port(runtimeBase, WDT_REGS[i])] == {}
      ensures !ok ==>
        && ports == FailedInitPorts(old(ports), accepts(didVid))
        && writes == old(writes) + FailedInitWrites(accepts(didVid))
        && gpioBase == (if accepts(didVid) then rawBase else old(gpioBase))
        && runtimeBase == old(runtimeBase)
    {
      ok := InitPciLpc(accepts, didVid, rawBase);
      if !ok {
        return;
      }
      ok := InitSch5127(msb, lsb);
      var _, _ := DisableWatchDog();
    }
  }
}
