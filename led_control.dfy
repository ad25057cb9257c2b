/**
 The abstract LED driver interface shared by every chassis driver
 (src/led_control_base.h): the colour selector bits, the system-LED states,
 the bool wrapper around SetSystemLed, and the driver itself as the daemon
 and the device monitor see it, a recorder of the calls made through the
 interface.
 */
module LedControl {
  import opened Wrappers

  /** Colour selector bits of `led_type`. */
  const LED_BLUE: int := 1
  const LED_RED: int := 2

  /** Bit `k` of `x` in two's complement, `x & (1 << k) != 0`: halving is an
      arithmetic shift (Dafny's `/` rounds down for a positive divisor) and
      `% 2` the low bit, for negative `x` too. */
  function TestBit(x: int, k: nat): bool
    decreases k
  {
    if k == 0 then x % 2 == 1 else TestBit(x / 2, k - 1)
  }

  /** `led_type & LED_BLUE` */
  predicate HasBlue(ledType: int) {
    TestBit(ledType, 0)
  }

  /** `led_type & LED_RED` */
  predicate HasRed(ledType: int) {
    TestBit(ledType, 1)
  }

  /** Each colour constant selects its own colour only; their union selects both. */
  lemma ColourSelectors()
    ensures HasBlue(LED_BLUE) && !HasRed(LED_BLUE)
    ensures HasRed(LED_RED) && !HasBlue(LED_RED)
    ensures HasBlue(LED_BLUE + LED_RED) && HasRed(LED_BLUE + LED_RED)
    ensures !HasBlue(0) && !HasRed(0)
  {
    assert TestBit(LED_RED, 1) == TestBit(1, 0);
    assert TestBit(LED_BLUE + LED_RED, 1) == TestBit(1, 0);
  }

  /** `~x`: the complement selects exactly the colours `x` does not. */
  lemma {:induction false} ComplementBit(x: int, k: nat)
    ensures TestBit(-x - 1, k) == !TestBit(x, k)
    decreases k
  {
    if k > 0 {
      assert (-x - 1) / 2 == -(x / 2) - 1;
      ComplementBit(x / 2, k - 1);
    }
  }

  /** The three states of a system LED (LED_OFF, LED_ON, LED_BLINK). */
  datatype LedState = Off | On | Blink

  /** The enumerator value of each state. */
  function StateCode(s: LedState): (c: int)
    ensures c == 1 || c == 2 || c == 4
  {
    match s
    case Off => 1
    case On => 2
    case Blink => 4
  }

  /** The three codes are distinct single bits. */
  lemma StateCodesDistinct(a: LedState, b: LedState)
    ensures StateCode(a) == StateCode(b) <==> a == b
  {
  }

  /** The `SetSystemLed(int, bool)` wrapper's choice of state. */
  function StateOfBool(state: bool): (s: LedState)
    ensures s != Blink
    ensures s == On <==> state
    ensures s == Off <==> !state
  {
    if state then On else Off
  }

  /** One call through the driver interface. */
  datatype LedCall =
    | Set(ledType: int, ledIdx: nat, state: bool)
    | SetBrightness(level: int)
    | SetSystemLed(ledType: int, ledState: LedState)
    | MountUsb(mount: bool)

  /** What the driver was last told for colour bit `colour` of bay `bay`, if anything. */
  function BayState(calls: seq<LedCall>, colour: nat, bay: nat): (r: Option<bool>)
    ensures r.Some? ==> exists k :: 0 <= k < |calls| && calls[k].Set? && calls[k].ledIdx == bay
                                     && TestBit(calls[k].ledType, colour) && calls[k].state == r.value
    decreases |calls|
  {
    if calls == [] then None
    else
      var c := calls[|calls| - 1];
      if c.Set? && c.ledIdx == bay && TestBit(c.ledType, colour) then Some(c.state)
      else BayState(calls[..|calls| - 1], colour, bay)
  }

  /** What the driver was last told for the system LED of colour bit `colour`. */
  function SystemState(calls: seq<LedCall>, colour: nat): (r: Option<LedState>)
    ensures r.Some? ==> exists k :: 0 <= k < |calls| && calls[k].SetSystemLed?
                                     && TestBit(calls[k].ledType, colour) && calls[k].ledState == r.value
    decreases |calls|
  {
    if calls == [] then None
    else
      var c := calls[|calls| - 1];
      if c.SetSystemLed? && TestBit(c.ledType, colour) then Some(c.ledState)
      else SystemState(calls[..|calls| - 1], colour)
  }

  /** The brightness level last requested. */
  function Brightness(calls: seq<LedCall>): (r: Option<int>)
    ensures r.Some? ==> exists k :: 0 <= k < |calls| && calls[k] == LedCall.SetBrightness(r.value)
    decreases |calls|
  {
    if calls == [] then None
    else
      var c := calls[|calls| - 1];
      if c.SetBrightness? then Some(c.level) else Brightness(calls[..|calls| - 1])
  }

  /** Later calls override earlier ones; calls that do not touch an LED leave its state. */
  lemma {:induction false} BayStateAppend(a: seq<LedCall>, b: seq<LedCall>, colour: nat, bay: nat)
    ensures BayState(a + b, colour, bay) == if BayState(b, colour, bay).Some? then BayState(b, colour, bay) else BayState(a, colour, bay)
    decreases |b|
  {
    if b != [] {
      assert (a + b)[..|a + b| - 1] == a + b[..|b| - 1];
      BayStateAppend(a, b[..|b| - 1], colour, bay);
    } else {
      assert a + b == a;
    }
  }

  lemma {:induction false} SystemStateAppend(a: seq<LedCall>, b: seq<LedCall>, colour: nat)
    ensures SystemState(a + b, colour) == if SystemState(b, colour).Some? then SystemState(b, colour) else SystemState(a, colour)
    decreases |b|
  {
    if b != [] {
      assert (a + b)[..|a + b| - 1] == a + b[..|b| - 1];
      SystemStateAppend(a, b[..|b| - 1], colour);
    } else {
      assert a + b == a;
    }
  }

  lemma {:induction false} BrightnessAppend(a: seq<LedCall>, b: seq<LedCall>)
    ensures Brightness(a + b) == if Brightness(b).Some? then Brightness(b) else Brightness(a)
    decreases |b|
  {
    if b != [] {
      assert (a + b)[..|a + b| - 1] == a + b[..|b| - 1];
      BrightnessAppend(a, b[..|b| - 1]);
    } else {
      assert a + b == a;
    }
  }

  /** An LED driver seen only through its interface: every call is recorded in order. */
  class LedRecorder {
    var calls: seq<LedCall>

    constructor ()
      ensures calls == []
    {
      calls := [];
    }

    method Set(ledType: int, ledIdx: nat, state: bool)
      modifies this
      ensures calls == old(calls) + [LedCall.Set(ledType, ledIdx, state)]
    {
      calls := calls + [LedCall.Set(ledType, ledIdx, state)];
    }

    method SetBrightness(level: int)
      modifies this
      ensures calls == old(calls) + [LedCall.SetBrightness(level)]
    {
      calls := calls + [LedCall.SetBrightness(level)];
    }

    method SetSystemLed(ledType: int, state: LedState)
      modifies this
      ensures calls == old(calls) + [LedCall.SetSystemLed(ledType, state)]
    {
      calls := calls + [LedCall.SetSystemLed(ledType, state)];
    }

    /** The wrapper: true means on, false means off, never blinking. */
    method SetSystemLedBool(ledType: int, state: bool)
      modifies this
      ensures calls == old(calls) + [LedCall.SetSystemLed(ledType, if state then On else Off)]
    {
      SetSystemLed(ledType, StateOfBool(state));
    }

    method MountUsb(state: bool)
      modifies this
      ensures calls == old(calls) + [LedCall.MountUsb(state)]
    {
      calls := calls + [LedCall.MountUsb(state)];
    }
  }
}
