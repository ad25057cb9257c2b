/**
 The HP MediaSmart Server EX48X driver (src/led_hpex485.h): which GPIO
 drives which LED, and how the driver's operations go through the SCH5127
 register layer. The C++ class derives from the SCH5127 base class; here a
 driver object holds its base-class part as the constant field `hw`.

 The bay and system LEDs are active low: a level of false lights the LED.
 */
module HpEx48X {
  import opened LedControl
  import opened Sch5127

  // GPIO numbers of the LEDs
  const OUT_BLUE0: nat := 22
  const OUT_BLUE1: nat := 21
  const OUT_BLUE2: nat := 13
  const OUT_BLUE3: nat := 57
  const OUT_RED0: nat := 4
  const OUT_RED1: nat := 5
  const OUT_RED2: nat := 38
  const OUT_RED3: nat := 39
  const OUT_USB_DEVICE: nat := 7
  const OUT_SYSTEM_BLUE: nat := 28
  const OUT_SYSTEM_RED: nat := 27

  const MAX_HDD_LEDS: nat := 4

  const IO_LEDS_BLUE: seq<nat> := [OUT_BLUE0, OUT_BLUE1, OUT_BLUE2, OUT_BLUE3]
  const IO_LEDS_RED: seq<nat> := [OUT_RED0, OUT_RED1, OUT_RED2, OUT_RED3]

  /** Device and vendor id of the ICH9R LPC interface controller, 8086:2916. */
  const ICH9R_DID_VID: bv32 := 0x2916_8086

  /** Brightness level to PWM3 duty cycle. */
  const LED_BRIGHTNESS: seq<bv8> := [0x00, 0xbe, 0xc3, 0xcb, 0xd3, 0xdb, 0xe3, 0xeb, 0xf3, 0xff]

  /** The GPIOs `enableLeds_` makes GPIO outputs, in the order it collects them. */
  const ENABLE_ORDER: seq<nat> := [OUT_BLUE0, OUT_RED0, OUT_BLUE1, OUT_RED1, OUT_BLUE2, OUT_RED2,
                                   OUT_BLUE3, OUT_RED3, OUT_USB_DEVICE, OUT_SYSTEM_BLUE, OUT_SYSTEM_RED]

  /** `chkPciDeviceVendorId_`: only the ICH9R is accepted, vendor Intel (0x8086) in the low
      half and device 0x2916 in the high half. */
  predicate ChkPciDeviceVendorId(didVid: bv32): (r: bool)
    ensures r <==> didVid & 0xFFFF == 0x8086 && didVid >> 16 == 0x2916
  {
    didVid == ICH9R_DID_VID
  }

  /** `ioLedBlue_`; the source asserts the index is in range. */
  function IoLedBlue(ledIdx: nat): (bit: nat)
    requires ledIdx < MAX_HDD_LEDS
    ensures bit < 64 && bit in ENABLE_ORDER
  {
    IO_LEDS_BLUE[ledIdx]
  }

  /** `ioLedRed_`; the source asserts the index is in range. */
  function IoLedRed(ledIdx: nat): (bit: nat)
    requires ledIdx < MAX_HDD_LEDS
    ensures bit < 64 && bit in ENABLE_ORDER
  {
    IO_LEDS_RED[ledIdx]
  }

  /** Every LED has its own GPIO: no two bays share one, no blue one is a red
      one, and none is the USB or a system LED's. */
  lemma LedGpiosDistinct(i: nat, j: nat)
    requires i < MAX_HDD_LEDS && j < MAX_HDD_LEDS
    ensures IoLedBlue(i) != IoLedRed(j)
    ensures i != j ==> IoLedBlue(i) != IoLedBlue(j) && IoLedRed(i) != IoLedRed(j)
    ensures IoLedBlue(i) !in {OUT_USB_DEVICE, OUT_SYSTEM_BLUE, OUT_SYSTEM_RED}
    ensures IoLedRed(i) !in {OUT_USB_DEVICE, OUT_SYSTEM_BLUE, OUT_SYSTEM_RED}
  {}

  /** The GPIOs that are enabled: every bay LED, the USB device and both system LEDs. */
  ghost predicate Enabled(b: nat) {
    (exists i :: 0 <= i < MAX_HDD_LEDS && (b == IO_LEDS_BLUE[i] || b == IO_LEDS_RED[i]))
    || b == OUT_USB_DEVICE || b == OUT_SYSTEM_BLUE || b == OUT_SYSTEM_RED
  }

  lemma EnableOrderEnabled(b: nat)
    ensures b in ENABLE_ORDER <==> Enabled(b)
  {
    if b in ENABLE_ORDER && b !in {OUT_USB_DEVICE, OUT_SYSTEM_BLUE, OUT_SYSTEM_RED} {
      var k :| 0 <= k < 8 && ENABLE_ORDER[k] == b;
      assert b == IO_LEDS_BLUE[k / 2] || b == IO_LEDS_RED[k / 2];
    }
  }

  /** The brightness index `SetBrightness` uses: `val` clamped to 0..9. */
  function ClampBrightness(val: int): (r: nat)
    ensures r < |LED_BRIGHTNESS|
    ensures 0 <= val < |LED_BRIGHTNESS| ==> r == val
    ensures val < 0 ==> r == 0
    ensures val >= |LED_BRIGHTNESS| ==> r == |LED_BRIGHTNESS| - 1
  {
    if val < 0 then 0 else if val > |LED_BRIGHTNESS| - 1 then |LED_BRIGHTNESS| - 1 else val
  }

  /** Clamping keeps the order of brightness requests. */
  lemma ClampBrightnessMonotone(a: int, b: int)
    requires a <= b
    ensures ClampBrightness(a) <= ClampBrightness(b)
  {}

  /** The duty-cycle table rises strictly, 0 being off and 0xff full. */
  lemma BrightnessTableIncreasing(i: nat, j: nat)
    requires i < j < |LED_BRIGHTNESS|
    ensures LED_BRIGHTNESS[i] < LED_BRIGHTNESS[j]
    decreases j - i
  {
    if i + 1 < j {
      BrightnessTableIncreasing(i + 1, j);
      assert LED_BRIGHTNESS[i] < LED_BRIGHTNESS[i + 1];
    }
  }

  /** A GPIO that Set(led_type, led_idx, ...) drives. */
  ghost predicate Selected(ledType: int, ledIdx: nat, b: nat)
    requires ledIdx < MAX_HDD_LEDS
  {
    (HasBlue(ledType) && b == IoLedBlue(ledIdx)) || (HasRed(ledType) && b == IoLedRed(ledIdx))
  }

  /** A system LED GPIO that SetSystemLed(led_type, ...) drives. */
  ghost predicate SystemSelected(ledType: int, b: nat) {
    (HasBlue(ledType) && b == OUT_SYSTEM_BLUE) || (HasRed(ledType) && b == OUT_SYSTEM_RED)
  }

  /** The blink-register bits SetSystemLed computes in `val`. */
  function SystemBlinkBits(ledType: int): (bits: Reg)
    ensures forall b :: b in bits <==> SystemSelected(ledType, b)
  {
    (if HasBlue(ledType) then {OUT_SYSTEM_BLUE} else {}) + (if HasRed(ledType) then {OUT_SYSTEM_RED} else {})
  }

  /** The level registers after driving the blue and then the red GPIO of one LED
      to `level`, each only when `ledType` selects its colour (`Set`, `SetSystemLed`). */
  ghost function LedLevels(ports: Ports, base: bv32, ledType: int, blue: nat, red: nat, level: bool): (r: Ports)
    requires Total(ports)
    ensures Total(r)
  {
    var afterBlue := if HasBlue(ledType) then SetLevelPorts(ports, base, blue, level) else ports;
    if HasRed(ledType) then SetLevelPorts(afterBlue, base, red, level) else afterBlue
  }

  /** The writes of those two `setGpLpcLvl_` calls, in order. */
  ghost function LedLevelWrites(ports: Ports, base: bv32, ledType: int, blue: nat, red: nat, level: bool): seq<PortWrite>
    requires Total(ports)
  {
    var afterBlue := if HasBlue(ledType) then SetLevelPorts(ports, base, blue, level) else ports;
    (if HasBlue(ledType) then LevelWrite(ports, base, blue, level) else [])
      + (if HasRed(ledType) then LevelWrite(afterBlue, base, red, level) else [])
  }

  /** Driving two distinct GPIOs sets exactly the selected ones and keeps every other level. */
  lemma LedLevelsEffect(ports: Ports, base: bv32, ledType: int, blue: nat, red: nat, level: bool, b: nat)
    requires Total(ports) && blue < 64 && red < 64 && b < 64 && blue != red
    ensures Level(LedLevels(ports, base, ledType, blue, red, level), base, b)
         == if (HasBlue(ledType) && b == blue) || (HasRed(ledType) && b == red) then level else Level(ports, base, b)
  {
    var afterBlue := if HasBlue(ledType) then SetLevelPorts(ports, base, blue, level) else ports;
    if HasBlue(ledType) {
      SetLevelEffect(ports, base, blue, level, b);
    }
    if HasRed(ledType) {
      SetLevelEffect(afterBlue, base, red, level, b);
    }
  }

  /** No write is issued when every selected GPIO already has the level. */
  lemma LedLevelWritesNone(ports: Ports, base: bv32, ledType: int, blue: nat, red: nat, level: bool)
    requires Total(ports) && blue < 64 && red < 64 && blue != red
    requires HasBlue(ledType) ==> Level(ports, base, blue) == level
    requires HasRed(ledType) ==> Level(ports, base, red) == level
    ensures LedLevelWrites(ports, base, ledType, blue, red, level) == []
  {
    if HasBlue(ledType) {
      SetLevelEffect(ports, base, blue, level, red);
    }
  }

  /** Driving LED levels leaves every GPIO's use selection, I/O selection and blink enable alone. */
  lemma LedLevelsKeepSelection(ports: Ports, base: bv32, ledType: int, blue: nat, red: nat, level: bool, b: nat)
    requires Total(ports)
    ensures var r := LedLevels(ports, base, ledType, blue, red, level);
      && UseSelected(r, base, b) == UseSelected(ports, base, b)
      && IsInput(r, base, b) == IsInput(ports, base, b)
      && Blinking(r, base, b) == Blinking(ports, base, b)
  {
    var afterBlue := if HasBlue(ledType) then SetLevelPorts(ports, base, blue, level) else ports;
    if HasBlue(ledType) {
      SetLevelKeepsSelection(ports, base, blue, level, b);
      SetLevelKeepsBlinking(ports, base, blue, level, b);
    }
    if HasRed(ledType) {
      SetLevelKeepsSelection(afterBlue, base, red, level, b);
      SetLevelKeepsBlinking(afterBlue, base, red, level, b);
    }
  }

  /** The ports after SetSystemLed: the levels, then the blink bits when a colour is selected. */
  ghost function SystemLedPorts(ports: Ports, base: bv32, ledType: int, state: LedState): (r: Ports)
    requires Total(ports)
    ensures Total(r)
  {
    var levels := LedLevels(ports, base, ledType, OUT_SYSTEM_BLUE, OUT_SYSTEM_RED, state != On);
    var val := SystemBlinkBits(ledType);
    if val != {} then levels[BlinkPort(base) := BitsApplied(levels[BlinkPort(base)], val, state == Blink)]
    else levels
  }

  /** The writes of SetSystemLed: the level writes, then the blink write if its value changes. */
  ghost function SystemLedWrites(ports: Ports, base: bv32, ledType: int, state: LedState): seq<PortWrite>
    requires Total(ports)
  {
    var levels := LedLevels(ports, base, ledType, OUT_SYSTEM_BLUE, OUT_SYSTEM_RED, state != On);
    var val := SystemBlinkBits(ledType);
    LedLevelWrites(ports, base, ledType, OUT_SYSTEM_BLUE, OUT_SYSTEM_RED, state != On)
      + (if val != {} then
           ChangedWrite(BlinkPort(base), levels[BlinkPort(base)], BitsApplied(levels[BlinkPort(base)], val, state == Blink))
         else [])
  }

  /** The selected system GPIOs are lit for On and dark otherwise, and blink exactly for Blink;
      every other level and blink bit is kept. */
  lemma SystemLedEffect(ports: Ports, base: bv32, ledType: int, state: LedState, b: nat)
    requires Total(ports) && b < 64
    ensures Level(SystemLedPorts(ports, base, ledType, state), base, b)
         == if SystemSelected(ledType, b) then state != On else Level(ports, base, b)
    ensures b < 32 ==>
      Blinking(SystemLedPorts(ports, base, ledType, state), base, b)
        == if SystemSelected(ledType, b) then state == Blink else Blinking(ports, base, b)
    ensures UseSelected(SystemLedPorts(ports, base, ledType, state), base, b) == UseSelected(ports, base, b)
    ensures IsInput(SystemLedPorts(ports, base, ledType, state), base, b) == IsInput(ports, base, b)
  {
    var level := state != On;
    var afterBlue := if HasBlue(ledType) then SetLevelPorts(ports, base, OUT_SYSTEM_BLUE, level) else ports;
    if HasBlue(ledType) {
      SetLevelEffect(ports, base, OUT_SYSTEM_BLUE, level, b);
      SetLevelKeepsBlinking(ports, base, OUT_SYSTEM_BLUE, level, b);
    }
    if HasRed(ledType) {
      SetLevelEffect(afterBlue, base, OUT_SYSTEM_RED, level, b);
      SetLevelKeepsBlinking(afterBlue, base, OUT_SYSTEM_RED, level, b);
    }
    LedLevelsKeepSelection(ports, base, ledType, OUT_SYSTEM_BLUE, OUT_SYSTEM_RED, level, b);
    var levels := LedLevels(ports, base, ledType, OUT_SYSTEM_BLUE, OUT_SYSTEM_RED, level);
    var val := SystemBlinkBits(ledType);
    if val != {} {
      BlinkWriteKeepsLevels(levels, base, BitsApplied(levels[BlinkPort(base)], val, state == Blink), b);
      BlinkWriteKeepsSelection(levels, base, BitsApplied(levels[BlinkPort(base)], val, state == Blink), b);
      if b < 32 {
        BlinkWriteEffect(levels, base, val, state == Blink, b);
      }
    }
  }

  /** SystemLedEffect for every GPIO at once. */
  lemma SystemLedViews(before: Ports, after: Ports, base: bv32, ledType: int, state: LedState)
    requires Total(before) && after == SystemLedPorts(before, base, ledType, state)
    ensures forall b: nat :: b < 64 ==>
      Level(after, base, b) == if SystemSelected(ledType, b) then state != On else Level(before, base, b)
    ensures forall b: nat :: b < 32 ==>
      Blinking(after, base, b) == if SystemSelected(ledType, b) then state == Blink else Blinking(before, base, b)
    ensures forall b: nat :: b < 64 ==>
      UseSelected(after, base, b) == UseSelected(before, base, b) && IsInput(after, base, b) == IsInput(before, base, b)
  {
    forall b: nat | b < 64 {
      SystemLedEffect(before, base, ledType, state, b);
    }
  }

  class HpEx48X {
    const hw: Sch5127Base

    ghost predicate Valid()
      reads this, hw
    {
      hw.Valid()
    }

    constructor (initial: Ports)
      requires Total(initial)
      ensures Valid() && fresh(hw)
      ensures hw.ports == initial && hw.writes == []
    {
      hw := new Sch5127Base(initial);
    }

    /** `Init`: the base-class initialisation with this driver's PCI check, then `enableLeds_`. */
    method Init(didVid: bv32, rawBase: bv32, msb: bv8, lsb: bv8) returns (ok: bool)
      requires Valid()
      modifies hw
      ensures Valid()
      ensures ok == (ChkPciDeviceVendorId(didVid) && ValidGpioBase(rawBase))
      ensures ok ==> hw.gpioBase == rawBase & !1 && hw.runtimeBase == RuntimeBase(msb, lsb)
      ensures ok ==> forall b: nat :: b < 64 && Enabled(b) ==>
        UseSelected(hw.ports, hw.gpioBase, b) && !IsInput(hw.ports, hw.gpioBase, b)
      ensures ok ==>
        var initialised := InitPorts(old(hw.ports), hw.runtimeBase);
        && hw.ports == SelInputPorts(initialised, hw.gpioBase, CollectBits(ENABLE_ORDER))
        && hw.writes == old(hw.writes) + InitWrites(hw.runtimeBase)
                        + SelInputWrites(initialised, hw.gpioBase, CollectBits(ENABLE_ORDER))
      ensures ok ==> forall i :: 0 <= i < |WDT_REGS| && Port(hw.runtimeBase, WDT_REGS[i]) !in SelInputTargets(hw.gpioBase) ==>
        hw.ports[Port(hw.runtimeBase, WDT_REGS[i])] == {}
      ensures !ok ==>
        && hw.ports == FailedInitPorts(old(hw.ports), ChkPciDeviceVendorId(didVid))
        && hw.writes == old(hw.writes) + FailedInitWrites(ChkPciDeviceVendorId(didVid))
        && hw.gpioBase == (if ChkPciDeviceVendorId(didVid) then rawBase else old(hw.gpioBase))
        && hw.runtimeBase == old(hw.runtimeBase)
    {
      ok := hw.Init(ChkPciDeviceVendorId, didVid, rawBase, msb, lsb);
      if !ok {
        return;
      }
      EnableLeds();
    }

    /** `enableLeds_`: every LED GPIO becomes a GPIO output; no other GPIO's selection changes. */
    method EnableLeds()
      requires Valid()
      modifies hw`ports, hw`writes
      ensures Valid()
      ensures hw.ports == SelInputPorts(old(hw.ports), hw.gpioBase, CollectBits(ENABLE_ORDER))
      ensures hw.writes == old(hw.writes) + SelInputWrites(old(hw.ports), hw.gpioBase, CollectBits(ENABLE_ORDER))
      ensures forall b: nat :: b < 64 ==>
        && UseSelected(hw.ports, hw.gpioBase, b) == (Enabled(b) || UseSelected(old(hw.ports), hw.gpioBase, b))
        && IsInput(hw.ports, hw.gpioBase, b) == (!Enabled(b) && IsInput(old(hw.ports), hw.gpioBase, b))
      ensures forall b: nat :: b < 64 ==>
        && Level(hw.ports, hw.gpioBase, b) == Level(old(hw.ports), hw.gpioBase, b)
        && Blinking(hw.ports, hw.gpioBase, b) == Blinking(old(hw.ports), hw.gpioBase, b)
    {
      var bits1: Reg, bits2: Reg := {}, {};
      var i := 0;
      while i < MAX_HDD_LEDS
        invariant 0 <= i <= MAX_HDD_LEDS
        invariant hw.ports == old(hw.ports) && hw.writes == old(hw.writes)
        invariant Words(bits1, bits2) == CollectBits(ENABLE_ORDER[..2 * i])
      {
        assert ENABLE_ORDER[..2 * i + 1] == ENABLE_ORDER[..2 * i] + [IoLedBlue(i)];
        assert ENABLE_ORDER[..2 * i + 2] == ENABLE_ORDER[..2 * i + 1] + [IoLedRed(i)];
        CollectBitsSnoc(ENABLE_ORDER[..2 * i], IoLedBlue(i));
        CollectBitsSnoc(ENABLE_ORDER[..2 * i + 1], IoLedRed(i));
        bits1, bits2 := SetBit32(IoLedBlue(i), bits1, bits2);
        bits1, bits2 := SetBit32(IoLedRed(i), bits1, bits2);
        i := i + 1;
      }
      assert ENABLE_ORDER[..9] == ENABLE_ORDER[..8] + [OUT_USB_DEVICE];
      assert ENABLE_ORDER[..10] == ENABLE_ORDER[..9] + [OUT_SYSTEM_BLUE];
      assert ENABLE_ORDER == ENABLE_ORDER[..10] + [OUT_SYSTEM_RED];
      CollectBitsSnoc(ENABLE_ORDER[..8], OUT_USB_DEVICE);
      CollectBitsSnoc(ENABLE_ORDER[..9], OUT_SYSTEM_BLUE);
      CollectBitsSnoc(ENABLE_ORDER[..10], OUT_SYSTEM_RED);
      bits1, bits2 := SetBit32(OUT_USB_DEVICE, bits1, bits2);
      bits1, bits2 := SetBit32(OUT_SYSTEM_BLUE, bits1, bits2);
      bits1, bits2 := SetBit32(OUT_SYSTEM_RED, bits1, bits2);
      forall b: nat | b < 64
        ensures Words(bits1, bits2).Has(b) == Enabled(b)
      {
        CollectBitsExact(ENABLE_ORDER, b);
        EnableOrderEnabled(b);
      }
      hw.SetGpioSelInput(bits1, bits2);
      forall b: nat | b < 64 {
        SelInputKeepsLevels(old(hw.ports), hw.gpioBase, Words(bits1, bits2), b);
      }
    }

    /** `Set`: drive the selected colours of one bay LED; an index past the last bay does nothing.
        A call that finds the LEDs already in the requested state writes nothing. */
    method Set(ledType: int, ledIdx: nat, state: bool)
      requires Valid()
      modifies hw`ports, hw`writes
      ensures Valid()
      ensures ledIdx >= MAX_HDD_LEDS ==> hw.ports == old(hw.ports) && hw.writes == old(hw.writes)
      ensures ledIdx < MAX_HDD_LEDS ==>
        && hw.ports == LedLevels(old(hw.ports), hw.gpioBase, ledType, IoLedBlue(ledIdx), IoLedRed(ledIdx), !state)
        && hw.writes == old(hw.writes) + LedLevelWrites(old(hw.ports), hw.gpioBase, ledType, IoLedBlue(ledIdx), IoLedRed(ledIdx), !state)
      ensures ledIdx < MAX_HDD_LEDS ==> forall b: nat :: b < 64 ==>
        Level(hw.ports, hw.gpioBase, b) == if Selected(ledType, ledIdx, b) then !state else Level(old(hw.ports), hw.gpioBase, b)
      ensures ledIdx < MAX_HDD_LEDS
        && (forall b: nat :: b < 64 && Selected(ledType, ledIdx, b) ==> Level(old(hw.ports), hw.gpioBase, b) == !state)
        ==> hw.writes == old(hw.writes)
      ensures forall b: nat :: b < 64 ==>
        && UseSelected(hw.ports, hw.gpioBase, b) == UseSelected(old(hw.ports), hw.gpioBase, b)
        && IsInput(hw.ports, hw.gpioBase, b) == IsInput(old(hw.ports), hw.gpioBase, b)
        && Blinking(hw.ports, hw.gpioBase, b) == Blinking(old(hw.ports), hw.gpioBase, b)
    {
      if ledIdx >= MAX_HDD_LEDS {
        return;
      }
      SetLedLevels(ledType, IoLedBlue(ledIdx), IoLedRed(ledIdx), !state);
      ApplyLedLevels(old(hw.ports), ledType, ledIdx, !state);
    }

    /** The two `setGpLpcLvl_` calls that `Set` and `SetSystemLed` make: the blue GPIO
        if `ledType` selects blue, then the red one if it selects red. */
    method SetLedLevels(ledType: int, blue: nat, red: nat, level: bool)
      requires Valid()
      modifies hw`ports, hw`writes
      ensures Valid()
      ensures hw.ports == LedLevels(old(hw.ports), hw.gpioBase, ledType, blue, red, level)
      ensures hw.writes == old(hw.writes) + LedLevelWrites(old(hw.ports), hw.gpioBase, ledType, blue, red, level)
    {
      if HasBlue(ledType) {
        hw.SetGpLpcLvl(blue, level);
      }
      ghost var afterBlue, blueWrites := hw.ports, hw.writes;
      if HasRed(ledType) {
        hw.SetGpLpcLvl(red, level);
      }
      assert hw.writes == blueWrites + if HasRed(ledType) then LevelWrite(afterBlue, hw.gpioBase, red, level) else [];
    }

    /** What `Set`'s contract says about the views, from the port map it leaves. */
    lemma ApplyLedLevels(before: Ports, ledType: int, ledIdx: nat, level: bool)
      requires Total(before) && ledIdx < MAX_HDD_LEDS
      requires hw.ports == LedLevels(before, hw.gpioBase, ledType, IoLedBlue(ledIdx), IoLedRed(ledIdx), level)
      ensures forall b: nat :: b < 64 ==>
        Level(hw.ports, hw.gpioBase, b) == if Selected(ledType, ledIdx, b) then level else Level(before, hw.gpioBase, b)
      ensures (forall b: nat :: b < 64 && Selected(ledType, ledIdx, b) ==> Level(before, hw.gpioBase, b) == level)
        ==> LedLevelWrites(before, hw.gpioBase, ledType, IoLedBlue(ledIdx), IoLedRed(ledIdx), level) == []
      ensures forall b: nat :: b < 64 ==>
        && UseSelected(hw.ports, hw.gpioBase, b) == UseSelected(before, hw.gpioBase, b)
        && IsInput(hw.ports, hw.gpioBase, b) == IsInput(before, hw.gpioBase, b)
        && Blinking(hw.ports, hw.gpioBase, b) == Blinking(before, hw.gpioBase, b)
    {
      var blue, red := IoLedBlue(ledIdx), IoLedRed(ledIdx);
      LedGpiosDistinct(ledIdx, ledIdx);
      forall b: nat | b < 64
        ensures Level(hw.ports, hw.gpioBase, b) == if Selected(ledType, ledIdx, b) then level else Level(before, hw.gpioBase, b)
        ensures UseSelected(hw.ports, hw.gpioBase, b) == UseSelected(before, hw.gpioBase, b)
        ensures IsInput(hw.ports, hw.gpioBase, b) == IsInput(before, hw.gpioBase, b)
        ensures Blinking(hw.ports, hw.gpioBase, b) == Blinking(before, hw.gpioBase, b)
      {
        LedLevelsEffect(before, hw.gpioBase, ledType, blue, red, level, b);
        LedLevelsKeepSelection(before, hw.gpioBase, ledType, blue, red, level, b);
      }
      if forall b: nat :: b < 64 && Selected(ledType, ledIdx, b) ==> Level(before, hw.gpioBase, b) == level {
        LedLevelWritesNone(before, hw.gpioBase, ledType, blue, red, level);
      }
    }

    /** `SetSystemLed`: the selected system LEDs are lit for On and Blink, dark for Off,
        and blink exactly for Blink. */
    method SetSystemLed(ledType: int, state: LedState)
      requires Valid()
      modifies hw`ports, hw`writes
      ensures Valid()
      ensures forall b: nat :: b < 64 ==>
        Level(hw.ports, hw.gpioBase, b) == if SystemSelected(ledType, b) then state != On else Level(old(hw.ports), hw.gpioBase, b)
      ensures forall b: nat :: b < 32 ==>
        Blinking(hw.ports, hw.gpioBase, b) == if SystemSelected(ledType, b) then state == Blink else Blinking(old(hw.ports), hw.gpioBase, b)
      ensures !HasBlue(ledType) && !HasRed(ledType) ==> hw.ports == old(hw.ports) && hw.writes == old(hw.writes)
      ensures hw.ports == SystemLedPorts(old(hw.ports), hw.gpioBase, ledType, state)
      ensures hw.writes == old(hw.writes) + SystemLedWrites(old(hw.ports), hw.gpioBase, ledType, state)
      ensures forall b: nat :: b < 64 ==>
        && UseSelected(hw.ports, hw.gpioBase, b) == UseSelected(old(hw.ports), hw.gpioBase, b)
        && IsInput(hw.ports, hw.gpioBase, b) == IsInput(old(hw.ports), hw.gpioBase, b)
    {
      var onOffState := state == On;
      ghost var before := hw.ports;
      SetLedLevels(ledType, OUT_SYSTEM_BLUE, OUT_SYSTEM_RED, !onOffState);
      ghost var levels, levelWrites := hw.ports, hw.writes;
      var blinkState := state == Blink;
      var val := SystemBlinkBits(ledType);
      if val != {} {
        hw.DoBits(val, BlinkPort(hw.gpioBase), blinkState);
      }
      ghost var blinkWrite := if val != {} then
        ChangedWrite(BlinkPort(hw.gpioBase), levels[BlinkPort(hw.gpioBase)], BitsApplied(levels[BlinkPort(hw.gpioBase)], val, blinkState))
        else [];
      assert hw.writes == levelWrites + blinkWrite;
      ghost var levelPart := LedLevelWrites(before, hw.gpioBase, ledType, OUT_SYSTEM_BLUE, OUT_SYSTEM_RED, !onOffState);
      assert SystemLedWrites(before, hw.gpioBase, ledType, state) == levelPart + blinkWrite;
      assert hw.writes == old(hw.writes) + (levelPart + blinkWrite);
      SystemLedViews(before, hw.ports, hw.gpioBase, ledType, state);
    }

    /** `MountUsb`: the USB device GPIO takes the requested level; no other GPIO's
        level, selection or blink enable changes. */
    method MountUsb(state: bool)
      requires Valid()
      modifies hw`ports, hw`writes
      ensures Valid()
      ensures hw.ports == SetLevelPorts(old(hw.ports), hw.gpioBase, OUT_USB_DEVICE, state)
      ensures hw.writes == old(hw.writes) + LevelWrite(old(hw.ports), hw.gpioBase, OUT_USB_DEVICE, state)
      ensures forall b: nat :: b < 64 ==>
        Level(hw.ports, hw.gpioBase, b) == if b == OUT_USB_DEVICE then state else Level(old(hw.ports), hw.gpioBase, b)
      ensures forall b: nat :: b < 64 ==>
        && UseSelected(hw.ports, hw.gpioBase, b) == UseSelected(old(hw.ports), hw.gpioBase, b)
        && IsInput(hw.ports, hw.gpioBase, b) == IsInput(old(hw.ports), hw.gpioBase, b)
        && Blinking(hw.ports, hw.gpioBase, b) == Blinking(old(hw.ports), hw.gpioBase, b)
    {
      hw.SetGpLpcLvl(OUT_USB_DEVICE, state);
      forall b: nat | b < 64
        ensures UseSelected(hw.ports, hw.gpioBase, b) == UseSelected(old(hw.ports), hw.gpioBase, b)
        ensures IsInput(hw.ports, hw.gpioBase, b) == IsInput(old(hw.ports), hw.gpioBase, b)
        ensures Blinking(hw.ports, hw.gpioBase, b) == Blinking(old(hw.ports), hw.gpioBase, b)
      {
        SetLevelKeepsSelection(old(hw.ports), hw.gpioBase, OUT_USB_DEVICE, state, b);
        SetLevelKeepsBlinking(old(hw.ports), hw.gpioBase, OUT_USB_DEVICE, state, b);
      }
    }

    /** `SetBrightness`: select the PWM3 duty-cycle register, then write the clamped level's duty cycle. */
    method SetBrightness(val: int)
      requires Valid()
      modifies hw`ports, hw`writes
      ensures Valid()
      ensures hw.writes == old(hw.writes) + [
        PortWrite.Outb(Port(hw.runtimeBase, REG_HWM_INDEX), HWM_PWM3_DUTY_CYCLE),
        PortWrite.Outb(Port(hw.runtimeBase, REG_HWM_DATA), LED_BRIGHTNESS[ClampBrightness(val)])]
      ensures hw.ports == old(hw.ports)[Port(hw.runtimeBase, REG_HWM_INDEX) := ByteBits(HWM_PWM3_DUTY_CYCLE)]
                                       [Port(hw.runtimeBase, REG_HWM_DATA) := ByteBits(LED_BRIGHTNESS[ClampBrightness(val)])]
    {
      var level := ClampBrightness(val);
      hw.Outb(HWM_PWM3_DUTY_CYCLE, Port(hw.runtimeBase, REG_HWM_INDEX));
      hw.Outb(LED_BRIGHTNESS[level], Port(hw.runtimeBase, REG_HWM_DATA));
    }
  }
}
