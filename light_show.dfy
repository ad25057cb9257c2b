/**
 The light show of src/mediasmartserverd.cpp (`run_light_show`): decoding
 `--light-show=N` into a mode and a colour, the LED pattern each frame
 draws, the `state` counter that cycles between frames, and the loop that
 draws a frame every 200 ms until the wait is interrupted.

 The frames go through the abstract LED interface. The results of `rand()`
 that the holiday mode draws are an input.
 */
module LightShow {
  import opened Wrappers
  import opened LedControl

  // ---------------------------------------------------------------------
  // Decoding

  /** C `/` on `int`: the quotient truncated toward zero. */
  function CDiv(a: int, b: int): (q: int)
    requires b > 0
    ensures 0 <= a ==> 0 <= q && q * b <= a < q * b + b
    ensures a < 0 ==> q <= 0 && q * b - b < a <= q * b
  {
    if a >= 0 then
      FloorDivBounds(a, b);
      a / b
    else
      FloorDivBounds(-a, b);
      NegatedProduct((-a) / b, b);
      -((-a) / b)
  }

  lemma FloorDivBounds(m: int, b: int)
    requires 0 <= m && 0 < b
    ensures 0 <= m / b && (m / b) * b <= m < (m / b) * b + b
  {
  }

  lemma NegatedProduct(d: int, b: int)
    ensures (-d) * b == -(d * b)
  {
  }

  /** C `%` on `int`: the remainder takes the sign of the dividend. */
  function CRem(a: int, b: int): (r: int)
    requires b > 0
    ensures -b < r < b
    ensures 0 <= a ==> 0 <= r
    ensures a < 0 ==> r <= 0
    ensures 0 <= a ==> r == a % b
    ensures a < 0 ==> r == -((-a) % b)
  {
    a - CDiv(a, b) * b
  }

  lemma CDivRem(a: int, b: int)
    requires b > 0
    ensures a == CDiv(a, b) * b + CRem(a, b)
    ensures a >= 0 ==> 0 <= CRem(a, b) < b && CDiv(a, b) == a / b
    ensures a < 0 ==> -b < CRem(a, b) <= 0
  {
  }

  /** The show modes. `show_mode` is a `size_t`: a computed mode of 0 is the holiday mode, and
      a negative one becomes a huge value no case matches, `Unsupported`. */
  datatype Mode = Holiday | Descending | Ascending | KnightRider | Pulsing | Unsupported

  /** `show_mode` for a `light_show` argument. */
  function DecodeMode(lightShow: int): (mode: Mode)
    ensures lightShow >= 1 ==> (lightShow == 1 <==> mode == Holiday)
  {
    if lightShow == 1 then Holiday
    else
      var m := CRem(lightShow - 2, 4) + 1;
      if m == 0 then Holiday
      else if m == 1 then Descending
      else if m == 2 then Ascending
      else if m == 3 then KnightRider
      else if m == 4 then Pulsing
      else Unsupported
  }

  /** `light_leds` for a `light_show` argument (holiday mode chooses its own colours). */
  function DecodeColour(lightShow: int): (colour: int)
    ensures lightShow != 1 ==> colour == LED_BLUE || colour == LED_RED || colour == LED_BLUE + LED_RED
  {
    if lightShow == 1 then 0
    else
      var group := CDiv(lightShow - 2, 4);
      if group == 1 then LED_RED
      else if group == 2 then LED_BLUE + LED_RED
      else LED_BLUE
  }

  /** Every argument from 2 up selects one of the four patterns, `(N - 2) % 4 + 1`, and the
      colour group `(N - 2) / 4`: 0 blue, 1 red, 2 both, any greater group blue again. */
  lemma DecodeArguments(lightShow: int)
    requires lightShow >= 2
    ensures DecodeMode(lightShow) != Holiday && DecodeMode(lightShow) != Unsupported
    ensures DecodeMode(lightShow) == [Descending, Ascending, KnightRider, Pulsing][(lightShow - 2) % 4]
    ensures DecodeMode(lightShow + 4) == DecodeMode(lightShow)
    ensures DecodeColour(lightShow) == if 6 <= lightShow < 10 then LED_RED
                                       else if 10 <= lightShow < 14 then LED_BLUE + LED_RED
                                       else LED_BLUE
  {
    CDivRem(lightShow - 2, 4);
    CDivRem(lightShow + 2, 4);
  }

  /** Arguments below 1 (which `main` never passes) go through C's negative remainder: some are
      unsupported, some land on a pattern, and -3 gives a computed mode of 0, the holiday mode. */
  lemma DecodeNegativeArguments()
    ensures DecodeMode(0) == Unsupported && DecodeMode(-1) == Unsupported
    ensures DecodeMode(-2) == Descending && DecodeMode(-3) == Holiday && DecodeMode(-4) == Unsupported
  {
    assert CRem(-2, 4) == -2 && CRem(-3, 4) == -3 && CRem(-4, 4) == 0;
    assert CRem(-5, 4) == -1 && CRem(-6, 4) == -2;
  }

  // ---------------------------------------------------------------------
  // Frames

  /** The number of frames after which `state` returns to 0. */
  function Period(mode: Mode): (p: nat)
    ensures p > 0
  {
    match mode
    case Descending => 4
    case Ascending => 4
    case KnightRider => 6
    case Pulsing => 16
    case _ => 1
  }

  /** `++state`, reset to 0 at the period; the holiday mode leaves `state` alone. */
  function NextState(mode: Mode, state: nat): (next: nat)
    ensures next < Period(mode) || next == state
  {
    if mode == Holiday || mode == Unsupported then state
    else if state + 1 >= Period(mode) then 0
    else state + 1
  }

  /** `state` after `n` frames. */
  function StateAfter(mode: Mode, n: nat): nat {
    if n == 0 then 0 else NextState(mode, StateAfter(mode, n - 1))
  }

  /** `state` counts frames modulo the mode's period. */
  lemma {:induction false} StateCycles(mode: Mode, n: nat)
    ensures StateAfter(mode, n) == n % Period(mode)
  {
    if n > 0 {
      StateCycles(mode, n - 1);
      CountStep(n - 1, Period(mode));
    }
  }

  /** `state` stays below the period. */
  lemma {:induction false} StateBound(mode: Mode, n: nat)
    ensures StateAfter(mode, n) < Period(mode)
  {
    if n > 0 {
      StateBound(mode, n - 1);
    }
  }

  /** Counting one more modulo `p`. */
  lemma CountStep(m: nat, p: nat)
    requires p == 1 || p == 4 || p == 6 || p == 16
    ensures (m + 1) % p == if m % p + 1 >= p then 0 else m % p + 1
  {
  }

  /** The knight rider's lit bay: up from 0 to 3, then back down. */
  function KnightSel(state: nat): (bay: int)
    ensures state < 6 ==> 0 <= bay < 4
    ensures bay == 3 <==> state == 3
  {
    if state < 3 then state else 6 - state
  }

  /** The bay a chaser frame lights, or 4 (none) for a mode that is not a chaser. */
  function LitBay(mode: Mode, state: nat): (bay: int)
    ensures (mode == Descending || mode == Ascending || mode == KnightRider) && state < Period(mode) ==> 0 <= bay < 4
    ensures !(mode == Descending || mode == Ascending || mode == KnightRider) ==> bay == 4
  {
    match mode
    case Descending => 3 - state
    case Ascending => state
    case KnightRider => KnightSel(state)
    case _ => 4
  }

  /** Over one period every chaser frame lights one bay, sweeping down, up, or up and back. */
  lemma ChaserSweeps()
    ensures forall s | 0 <= s < 4 :: LitBay(Descending, s) == 3 - s && LitBay(Ascending, s) == s
    ensures [LitBay(KnightRider, 0), LitBay(KnightRider, 1), LitBay(KnightRider, 2),
             LitBay(KnightRider, 3), LitBay(KnightRider, 4), LitBay(KnightRider, 5)] == [0, 1, 2, 3, 2, 1]
  {
  }

  /** The pulsing brightness: up from 1 to 9, then back down. */
  function PulseLevel(state: nat): (level: int)
    ensures state < 16 ==> 1 <= level <= 9
  {
    1 + if state < 9 then state else 16 - state
  }

  /** Over one period the pulse stays within 1..9, peaks at 9 and is symmetric. */
  lemma PulseBounds(state: nat)
    requires state < 16
    ensures 1 <= PulseLevel(state) <= 9
    ensures PulseLevel(state) == 9 <==> state == 8
    ensures 0 < state ==> PulseLevel(state) == PulseLevel(16 - state)
  {
  }

  /** The colours a holiday bay shows for a draw of `rand() % 4`. */
  function HolidayLeds(r: nat): (leds: int)
    ensures r < 4 ==> leds == r && (HasBlue(leds) <==> r % 2 == 1) && (HasRed(leds) <==> r >= 2)
    ensures r >= 4 ==> leds == 0
  {
    if r == 1 then LED_BLUE
    else if r == 2 then LED_RED
    else if r == 3 then LED_BLUE + LED_RED
    else 0
  }

  /** The calls a frame makes for bay `i`; the holiday mode uses the draw `r`. */
  function BayCalls(mode: Mode, colour: int, state: nat, r: nat, i: nat): (calls: seq<LedCall>)
    ensures |calls| <= 2
    ensures forall j :: 0 <= j < |calls| ==> calls[j].Set? && calls[j].ledIdx == i
  {
    match mode
    case Holiday =>
      var leds := HolidayLeds(r % 4);
      [LedCall.Set(leds, i, true), LedCall.Set(-leds - 1, i, false)]
    case Pulsing => [LedCall.Set(colour, i, true)]
    case Unsupported => []
    case _ => [LedCall.Set(colour, i, i == LitBay(mode, state))]
  }

  /** The calls of the first `n` bays of a frame; `rands` holds the frame's four draws. */
  function BaysCalls(mode: Mode, colour: int, state: nat, rands: seq<nat>, n: nat): seq<LedCall>
    requires n <= |rands|
  {
    if n == 0 then [] else BaysCalls(mode, colour, state, rands, n - 1) + BayCalls(mode, colour, state, rands[n - 1], n - 1)
  }

  /** The calls of the first `n` bays set bay LEDs below `n` and nothing else. */
  lemma {:induction false} BaysCallsTouch(mode: Mode, colour: int, state: nat, rands: seq<nat>, n: nat)
    requires n <= |rands|
    ensures forall j :: 0 <= j < |BaysCalls(mode, colour, state, rands, n)| ==>
      BaysCalls(mode, colour, state, rands, n)[j].Set? && BaysCalls(mode, colour, state, rands, n)[j].ledIdx < n
  {
    if n > 0 {
      BaysCallsTouch(mode, colour, state, rands, n - 1);
    }
  }

  /** All calls of one frame: the four bays, then the brightness for pulsing. */
  function FrameCalls(mode: Mode, colour: int, state: nat, rands: seq<nat>): (calls: seq<LedCall>)
    requires |rands| == 4
    ensures forall j :: 0 <= j < |calls| ==> ShowCall(mode, calls[j])
  {
    BaysCallsTouch(mode, colour, state, rands, 4);
    BaysCalls(mode, colour, state, rands, 4) + if mode == Pulsing then [LedCall.SetBrightness(PulseLevel(state))] else []
  }

  lemma {:induction false} BaysCallsBays(mode: Mode, colour: int, state: nat, rands: seq<nat>, n: nat, c: nat, bay: nat)
    requires n <= |rands| && c < 2
    ensures BayState(BaysCalls(mode, colour, state, rands, n), c, bay)
         == if bay < n then BayState(BayCalls(mode, colour, state, rands[bay], bay), c, bay) else None
  {
    if n > 0 {
      var prev := BaysCalls(mode, colour, state, rands, n - 1);
      var last := BayCalls(mode, colour, state, rands[n - 1], n - 1);
      assert BaysCalls(mode, colour, state, rands, n) == prev + last;
      BaysCallsBays(mode, colour, state, rands, n - 1, c, bay);
      BayStateStep(prev, last, c, bay, n - 1);
      if bay == n - 1 {
        assert BayCalls(mode, colour, state, rands[bay], bay) == last;
      }
    }
  }

  /** Appending the calls of bay `i`, when no earlier call touched a bay from `i` on. */
  lemma BayStateStep(prev: seq<LedCall>, last: seq<LedCall>, c: nat, bay: nat, i: nat)
    requires forall j :: 0 <= j < |last| ==> last[j].Set? && last[j].ledIdx == i
    requires bay >= i ==> BayState(prev, c, bay) == None
    ensures BayState(prev + last, c, bay) == if bay == i then BayState(last, c, bay) else BayState(prev, c, bay)
  {
    BayStateAppend(prev, last, c, bay);
  }

  /** The calls for bay `i` leave every other bay alone. */
  lemma OtherBaysUntouched(mode: Mode, colour: int, state: nat, r: nat, i: nat, c: nat, bay: nat)
    requires bay != i
    ensures BayState(BayCalls(mode, colour, state, r, i), c, bay) == None
  {
  }

  lemma FrameBays(mode: Mode, colour: int, state: nat, rands: seq<nat>, c: nat, bay: nat)
    requires |rands| == 4 && c < 2
    ensures BayState(FrameCalls(mode, colour, state, rands), c, bay)
         == if bay < 4 then BayState(BayCalls(mode, colour, state, rands[bay], bay), c, bay) else None
  {
    BaysCallsBays(mode, colour, state, rands, 4, c, bay);
    var tail: seq<LedCall> := if mode == Pulsing then [LedCall.SetBrightness(PulseLevel(state))] else [];
    BayStateAppend(BaysCalls(mode, colour, state, rands, 4), tail, c, bay);
    if tail != [] {
      assert tail[..0] == [];
    }
  }

  /** A chaser frame lights exactly one bay in each selected colour and darkens the other
      three; colours not selected are left alone. */
  lemma ChaserFrame(mode: Mode, colour: int, state: nat, rands: seq<nat>, c: nat, bay: nat)
    requires mode == Descending || mode == Ascending || mode == KnightRider
    requires state < Period(mode) && |rands| == 4 && c < 2
    ensures 0 <= LitBay(mode, state) < 4
    ensures BayState(FrameCalls(mode, colour, state, rands), c, bay)
         == if bay < 4 && TestBit(colour, c) then Some(bay == LitBay(mode, state)) else None
  {
    FrameBays(mode, colour, state, rands, c, bay);
    if bay < 4 {
      var calls := BayCalls(mode, colour, state, rands[bay], bay);
      assert calls[..0] == [];
    }
  }

  /** A pulsing frame lights all four bays in each selected colour and sets the pulse level. */
  lemma PulsingFrame(colour: int, state: nat, rands: seq<nat>, c: nat, bay: nat)
    requires |rands| == 4 && c < 2
    ensures BayState(FrameCalls(Pulsing, colour, state, rands), c, bay)
         == if bay < 4 && TestBit(colour, c) then Some(true) else None
    ensures Brightness(FrameCalls(Pulsing, colour, state, rands)) == Some(PulseLevel(state))
  {
    FrameBays(Pulsing, colour, state, rands, c, bay);
    if bay < 4 {
      var calls := BayCalls(Pulsing, colour, state, rands[bay], bay);
      assert calls[..0] == [];
    }
    var all := FrameCalls(Pulsing, colour, state, rands);
    assert all[..|all| - 1] == BaysCalls(Pulsing, colour, state, rands, 4);
  }

  /** A holiday frame shows in each bay exactly the colours its draw picked: the first call lights
      them and the second, with the complement selector, darkens every other colour. */
  lemma HolidayFrame(rands: seq<nat>, c: nat, bay: nat)
    requires |rands| == 4 && c < 2 && bay < 4
    ensures BayState(FrameCalls(Holiday, 0, 0, rands), c, bay) == Some(TestBit(HolidayLeds(rands[bay] % 4), c))
  {
    FrameBays(Holiday, 0, 0, rands, c, bay);
    var leds := HolidayLeds(rands[bay] % 4);
    ComplementBit(leds, c);
    var calls := BayCalls(Holiday, 0, 0, rands[bay], bay);
    assert calls[..1] == [LedCall.Set(leds, bay, true)];
    assert calls[..1][..0] == [];
  }

  // ---------------------------------------------------------------------
  // The show

  /** The draws of frame `k`: the four `rand()` results in call order. */
  function FrameRands(rand: nat -> nat, k: nat): (r: seq<nat>)
    ensures |r| == 4
  {
    [rand(4 * k), rand(4 * k + 1), rand(4 * k + 2), rand(4 * k + 3)]
  }

  /** What a show may call: a bay LED, and the brightness when pulsing; never a system LED or the USB. */
  predicate ShowCall(mode: Mode, c: LedCall) {
    (c.Set? && c.ledIdx < 4) || (mode == Pulsing && c.SetBrightness?)
  }

  /** The calls of the first `n` frames of a show. */
  function ShowCalls(mode: Mode, colour: int, rand: nat -> nat, n: nat): (calls: seq<LedCall>)
    ensures forall j :: 0 <= j < |calls| ==> ShowCall(mode, calls[j])
  {
    if n == 0 then []
    else ShowCalls(mode, colour, rand, n - 1) + FrameCalls(mode, colour, StateAfter(mode, n - 1), FrameRands(rand, n - 1))
  }

  /** Frame `k` of a show is drawn with `state == k % period`. */
  lemma ShowFrameState(mode: Mode, colour: int, rand: nat -> nat, n: nat)
    requires n > 0
    ensures ShowCalls(mode, colour, rand, n)
         == ShowCalls(mode, colour, rand, n - 1) + FrameCalls(mode, colour, (n - 1) % Period(mode), FrameRands(rand, n - 1))
  {
    StateCycles(mode, n - 1);
  }

  /** The holiday case: each bay draws `rand() % 4`, lights the drawn colours and darkens the rest. */
  method DrawHoliday(leds: LedRecorder, colour: int, state: nat, rands: seq<nat>)
    requires |rands| == 4
    modifies leds
    ensures leds.calls == old(leds.calls) + BaysCalls(Holiday, colour, state, rands, 4)
  {
    for i := 0 to 4
      invariant leds.calls == old(leds.calls) + BaysCalls(Holiday, colour, state, rands, i)
    {
      var lightLeds := HolidayLeds(rands[i] % 4);
      leds.Set(lightLeds, i, true);
      leds.Set(-lightLeds - 1, i, false);
    }
  }

  /** The chaser cases: bay `i` is lit exactly when it is the selected bay `sel`. */
  method DrawChaser(leds: LedRecorder, mode: Mode, colour: int, state: nat, rands: seq<nat>, sel: int)
    requires mode == Descending || mode == Ascending || mode == KnightRider
    requires sel == LitBay(mode, state) && |rands| == 4
    modifies leds
    ensures leds.calls == old(leds.calls) + BaysCalls(mode, colour, state, rands, 4)
  {
    for i := 0 to 4
      invariant leds.calls == old(leds.calls) + BaysCalls(mode, colour, state, rands, i)
    {
      leds.Set(colour, i, i == sel);
    }
  }

  /** The pulsing case: all bays lit, then the brightness set to the pulse level. */
  method DrawPulse(leds: LedRecorder, colour: int, state: nat, rands: seq<nat>)
    requires |rands| == 4
    modifies leds
    ensures leds.calls == old(leds.calls) + FrameCalls(Pulsing, colour, state, rands)
  {
    for i := 0 to 4
      invariant leds.calls == old(leds.calls) + BaysCalls(Pulsing, colour, state, rands, i)
    {
      leds.Set(colour, i, true);
    }
    var sel := 1 + if state < 9 then state else 16 - state;
    leds.SetBrightness(sel);
  }

  /** Appending frame `k` to the calls of the first `k` frames gives the calls of `k + 1`. */
  lemma ShowStep(mode: Mode, colour: int, rand: nat -> nat, k: nat, state: nat,
                 base: seq<LedCall>, before: seq<LedCall>, after: seq<LedCall>)
    requires state == StateAfter(mode, k) && before == base + ShowCalls(mode, colour, rand, k)
    requires after == before + FrameCalls(mode, colour, state, FrameRands(rand, k))
    ensures after == base + ShowCalls(mode, colour, rand, k + 1)
  {
  }

  /** While a chaser show runs, the bays show the latest frame: after `n` frames exactly the bay
      selected by `state == (n - 1) % period` is lit in each selected colour. */
  lemma ChaserShowState(mode: Mode, colour: int, rand: nat -> nat, n: nat, c: nat, bay: nat)
    requires mode == Descending || mode == Ascending || mode == KnightRider
    requires n > 0 && c < 2 && bay < 4 && TestBit(colour, c)
    ensures BayState(ShowCalls(mode, colour, rand, n), c, bay) == Some(bay == LitBay(mode, (n - 1) % Period(mode)))
  {
    var state := (n - 1) % Period(mode);
    var frame := FrameCalls(mode, colour, state, FrameRands(rand, n - 1));
    ShowFrameState(mode, colour, rand, n);
    ChaserFrame(mode, colour, state, FrameRands(rand, n - 1), c, bay);
    BayStateAppend(ShowCalls(mode, colour, rand, n - 1), frame, c, bay);
  }

  /** While a pulsing show runs, the brightness is the pulse level of the latest frame. */
  lemma PulsingShowLevel(colour: int, rand: nat -> nat, n: nat)
    requires n > 0
    ensures Brightness(ShowCalls(Pulsing, colour, rand, n)) == Some(PulseLevel((n - 1) % 16))
  {
    var state := (n - 1) % 16;
    var frame := FrameCalls(Pulsing, colour, state, FrameRands(rand, n - 1));
    ShowFrameState(Pulsing, colour, rand, n);
    PulsingFrame(colour, state, FrameRands(rand, n - 1), 0, 0);
    BrightnessAppend(ShowCalls(Pulsing, colour, rand, n - 1), frame);
  }

  /** One pass of the `switch (show_mode)`: draw the frame for `state` and advance it. */
  method ShowFrame(leds: LedRecorder, mode: Mode, colour: int, state: nat, rands: seq<nat>) returns (next: nat)
    requires mode != Unsupported && state < Period(mode) && |rands| == 4
    modifies leds
    ensures leds.calls == old(leds.calls) + FrameCalls(mode, colour, state, rands)
    ensures next == NextState(mode, state)
  {
    match mode {
      case Holiday =>
        DrawHoliday(leds, colour, state, rands);
        next := state;
      case Descending =>
        DrawChaser(leds, mode, colour, state, rands, 3 - state);
        next := if state + 1 >= 4 then 0 else state + 1;
      case Ascending =>
        DrawChaser(leds, mode, colour, state, rands, state);
        next := if state + 1 >= 4 then 0 else state + 1;
      case KnightRider =>
        var sel := if state < 3 then state else 6 - state;
        DrawChaser(leds, mode, colour, state, rands, sel);
        next := if state + 1 >= 6 then 0 else state + 1;
      case Pulsing =>
        DrawPulse(leds, colour, state, rands);
        next := if state + 1 >= 16 then 0 else state + 1;
    }
  }

  /** `run_light_show`: an unsupported mode returns 1 before drawing; otherwise a frame is drawn,
      then the show waits 200 ms. The first `timeouts` waits time out and the next one ends the
      show: a signal returns 0, any other failure raises "select". */
  method RunLightShow(leds: LedRecorder, lightShow: int, timeouts: nat, end: WaitEnd, rand: nat -> nat)
    returns (r: Outcome)
    modifies leds
    ensures var mode := DecodeMode(lightShow);
      if mode == Unsupported then r == Exit(1) && leds.calls == old(leds.calls)
      else
        && r == (if end == Interrupted then Exit(0) else Raised("select"))
        && leds.calls == old(leds.calls) + ShowCalls(mode, DecodeColour(lightShow), rand, timeouts + 1)
  {
    var mode := DecodeMode(lightShow);
    var colour := DecodeColour(lightShow);
    if mode == Unsupported {
      return Exit(1);
    }
    var state := DrawFrames(leds, mode, colour, rand, timeouts + 1);
    if end == Interrupted {
      return Exit(0);
    }
    return Raised("select");
  }

  /** The first `n` passes of the show loop, each a frame followed by a wait that timed out or
      (for the last) ended the show; returns `state` after them. */
  method DrawFrames(leds: LedRecorder, mode: Mode, colour: int, rand: nat -> nat, n: nat) returns (state: nat)
    requires mode != Unsupported
    modifies leds
    ensures state == StateAfter(mode, n)
    ensures leds.calls == old(leds.calls) + ShowCalls(mode, colour, rand, n)
  {
    state := 0;
    for k := 0 to n
      invariant state == StateAfter(mode, k)
      invariant leds.calls == old(leds.calls) + ShowCalls(mode, colour, rand, k)
    {
      StateBound(mode, k);
      ghost var before := leds.calls;
      ghost var drawn := state;
      state := ShowFrame(leds, mode, colour, state, FrameRands(rand, k));
      ShowStep(mode, colour, rand, k, drawn, old(leds.calls), before, leds.calls);
    }
  }
}
