/**
 The daemon's entry point (src/mediasmartserverd.cpp): probing for an LED
 driver, the start-up LED sequence of `main`, and the three ways it carries
 on: the all-lit "xmas" exit, the light show, or the device monitor followed
 by restoring the blinking system LED.

 Command-line parsing is left out; its results arrive as `Options`. The Acer
 H340 driver is not part of this model: whether its `Init` succeeds is an input.
 */
module Daemon {
  import opened Wrappers
  import opened LedControl
  import opened Sch5127
  import opened HpEx48X
  import LightShow
  import DeviceMonitor

  // ---------------------------------------------------------------------
  // Finding a driver

  /** The drivers `get_led_interface` tries. */
  datatype Driver = AcerH340 | HpMediaSmart48X

  /** `get_led_interface`: the first driver whose `Init` succeeds, the H340 before the 48X. */
  function GetLedInterface(h340Ok: bool, hpOk: bool): (d: Option<Driver>)
    ensures d == Some(AcerH340) <==> h340Ok
    ensures d == Some(HpMediaSmart48X) <==> !h340Ok && hpOk
    ensures d == None <==> !h340Ok && !hpOk
  {
    if h340Ok then Some(AcerH340)
    else if hpOk then Some(HpMediaSmart48X)
    else None
  }

  /** `get_led_interface` with the 48X driver's own `Init` run on the machine's ports and PCI
      configuration; the H340 probe's outcome is given. */
  method ProbeLedInterface(h340Ok: bool, ports: Ports, didVid: bv32, rawBase: bv32, msb: bv8, lsb: bv8)
    returns (found: Option<Driver>)
    requires Total(ports)
    ensures found == GetLedInterface(h340Ok, ChkPciDeviceVendorId(didVid) && ValidGpioBase(rawBase))
  {
    if h340Ok {
      return Some(AcerH340);
    }
    var hp := new HpEx48X(ports);
    var ok := hp.Init(didVid, rawBase, msb, lsb);
    if ok {
      return Some(HpMediaSmart48X);
    }
    return None;
  }

  // ---------------------------------------------------------------------
  // main

  /** The parsed command line: `--brightness`, `--light-show`, `--usb` (each `atoi` of its
      argument) and `--xmas`. */
  datatype Options = Options(brightness: int, lightShow: int, mountUsb: int, xmas: bool)

  /** The values `main` starts from when an option is not given. */
  const DEFAULT_OPTIONS: Options := Options(-1, 0, -1, false)

  const NO_DRIVER: string := "Failed to find an LED control interface"

  /** The calls `main` makes before it decides how to carry on; every bay call among them
      sets the xmas state. */
  function StartupCalls(opts: Options): (calls: seq<LedCall>)
    ensures forall i :: 0 <= i < |calls| && calls[i].Set? ==> calls[i].state == opts.xmas
  {
    ConfigCalls(opts) + ClearCalls(opts.xmas)
  }

  /** The USB, system-LED and brightness calls of the start-up sequence: no bay LED, and the
      USB and brightness calls exactly when their options are given. */
  function ConfigCalls(opts: Options): (calls: seq<LedCall>)
    ensures forall c :: c in calls ==> !c.Set?
    ensures opts.mountUsb >= 0 ==> LedCall.MountUsb(opts.mountUsb != 0) in calls
    ensures opts.mountUsb < 0 ==> forall c :: c in calls ==> !c.MountUsb?
    ensures opts.brightness >= 0 ==> LedCall.SetBrightness(opts.brightness) in calls
    ensures opts.brightness < 0 ==> forall c :: c in calls ==> !c.SetBrightness?
  {
    (if opts.mountUsb >= 0 then [LedCall.MountUsb(opts.mountUsb != 0)] else [])
    + [LedCall.SetSystemLed(LED_RED, Off), LedCall.SetSystemLed(LED_BLUE, On)]
    + (if opts.brightness >= 0 then [LedCall.SetBrightness(opts.brightness)] else [])
  }

  /** Setting all four bays, both colours, to the xmas state. */
  function ClearCalls(xmas: bool): (calls: seq<LedCall>)
    ensures |calls| == MAX_HDD_LEDS
    ensures forall i :: 0 <= i < |calls| ==>
      calls[i].Set? && calls[i].ledType == LED_BLUE + LED_RED && calls[i].ledIdx == i && calls[i].state == xmas
  {
    [LedCall.Set(LED_BLUE + LED_RED, 0, xmas), LedCall.Set(LED_BLUE + LED_RED, 1, xmas),
     LedCall.Set(LED_BLUE + LED_RED, 2, xmas), LedCall.Set(LED_BLUE + LED_RED, 3, xmas)]
  }

  /** How the device monitor runs: the first failing step of its `Init`, the attached devices
      it enumerates, the notifications it receives and how its wait finally ends. */
  datatype MonitorRun = MonitorRun(fault: DeviceMonitor.InitFault, devices: seq<Option<DeviceMonitor.Device>>,
                                   events: seq<DeviceMonitor.Notification>, end: WaitEnd)

  /** The offset enumeration leaves for the hotplug phase, starting from the constructor's 0. */
  function MonitorOffset(run: MonitorRun): int {
    var m := DeviceMonitor.Collected(run.devices, 0);
    DeviceMonitor.EnumOffset(DeviceMonitor.SortedKeys(m.Keys), m, 0)
  }

  /** The calls of the monitor phase; after a successful run, the system LED blinks blue again.
      Nothing is called when `Init` fails before enumerating. */
  function MonitorCalls(run: MonitorRun): (calls: seq<LedCall>)
    ensures run.fault != DeviceMonitor.NoFault && run.fault != DeviceMonitor.EnableReceivingFails ==> calls == []
  {
    var enumerated := run.fault == DeviceMonitor.NoFault || run.fault == DeviceMonitor.EnableReceivingFails;
    (if enumerated then EnumerationCalls(run) else [])
    + if run.fault != DeviceMonitor.NoFault then []
      else HotplugPhaseCalls(run) + RestoreCalls(run)
  }

  /** The monitor phase touches only blue bay LEDs and, at its end, the blinking blue system LED. */
  lemma MonitorTouches(run: MonitorRun)
    ensures forall c :: c in MonitorCalls(run) ==>
      (c.Set? && c.ledType == LED_BLUE) || c == LedCall.SetSystemLed(LED_BLUE, Blink)
  {
    var e := if run.fault == DeviceMonitor.NoFault || run.fault == DeviceMonitor.EnableReceivingFails
             then EnumerationCalls(run) else [];
    assert forall c :: c in e ==> c.Set? && c.ledType == LED_BLUE;
    if run.fault == DeviceMonitor.NoFault {
      assert forall c :: c in HotplugPhaseCalls(run) ==> c.Set? && c.ledType == LED_BLUE;
    }
  }

  /** The calls of the start-up enumeration. */
  function EnumerationCalls(run: MonitorRun): seq<LedCall> {
    var m := DeviceMonitor.Collected(run.devices, 0);
    DeviceMonitor.PresentCalls(DeviceMonitor.SortedKeys(m.Keys), m)
  }

  /** The calls of the hotplug loop. */
  function HotplugPhaseCalls(run: MonitorRun): seq<LedCall> {
    DeviceMonitor.HotplugCalls(run.events, MonitorOffset(run))
  }

  /** The blinking system LED restored after `Main` returns normally. */
  function RestoreCalls(run: MonitorRun): seq<LedCall> {
    if run.end == Interrupted then [LedCall.SetSystemLed(LED_BLUE, Blink)] else []
  }

  /** `main` after the command line: find a driver, then set the LEDs and run the chosen mode.
      An exception is caught, its message written to stderr (`message`), and 1 returned. The
      light show's waits are `timeouts` time-outs and then `run.end`; its draws are `rand`. */
  method RunMain(opts: Options, found: Option<Driver>, leds: LedRecorder, run: MonitorRun,
                 timeouts: nat, rand: nat -> nat)
    returns (code: int, message: Option<string>)
    modifies leds
    ensures found.None? ==> code == 1 && message == Some(NO_DRIVER) && leds.calls == old(leds.calls)
    ensures found.Some? && opts.xmas ==>
      code == 0 && message == None && leds.calls == old(leds.calls) + StartupCalls(opts)
    ensures found.Some? && !opts.xmas && opts.lightShow > 0 ==>
      var mode := LightShow.DecodeMode(opts.lightShow);
      var shown := if mode == LightShow.Unsupported then []
                   else LightShow.ShowCalls(mode, LightShow.DecodeColour(opts.lightShow), rand, timeouts + 1);
      && leds.calls == old(leds.calls) + StartupCalls(opts) + shown
      && (code, message) == (if mode == LightShow.Unsupported then (1, None)
                             else if run.end == Interrupted then (0, None) else (1, Some("select")))
    ensures found.Some? && !opts.xmas && opts.lightShow <= 0 ==>
      && leds.calls == old(leds.calls) + StartupCalls(opts) + MonitorCalls(run)
      && (code, message) == (if run.fault != DeviceMonitor.NoFault then (1, DeviceMonitor.FaultName(run.fault))
                             else if run.end == Interrupted then (0, None) else (1, Some("select")))
  {
    if found.None? {
      return 1, Some(NO_DRIVER);
    }
    ghost var start := leds.calls;
    StartLeds(leds, opts);
    if opts.xmas {
      return 0, None;
    }
    if opts.lightShow > 0 {
      var r := LightShow.RunLightShow(leds, opts.lightShow, timeouts, run.end, rand);
      match r {
        case Exit(c) => return c, None;
        case Raised(what) => return 1, Some(what);
      }
    }
    code, message := RunMonitor(leds, run);
  }

  /** The start-up sequence of `main`: mount or unmount the USB device if asked, stop the red
      system LED and light the blue one, set the brightness if given, and set every bay to
      the xmas state. */
  method StartLeds(leds: LedRecorder, opts: Options)
    modifies leds
    ensures leds.calls == old(leds.calls) + StartupCalls(opts)
  {
    ConfigureLeds(leds, opts);
    ClearBays(leds, opts.xmas);
    Append(old(leds.calls), ConfigCalls(opts), ClearCalls(opts.xmas));
  }

  /** The USB, system-LED and brightness steps of the start-up sequence. */
  method ConfigureLeds(leds: LedRecorder, opts: Options)
    modifies leds
    ensures leds.calls == old(leds.calls) + ConfigCalls(opts)
  {
    ghost var start := leds.calls;
    ghost var made: seq<LedCall> := [];
    if opts.mountUsb >= 0 {
      leds.MountUsb(opts.mountUsb != 0);
      made := [LedCall.MountUsb(opts.mountUsb != 0)];
    }
    assert leds.calls == start + made;
    leds.SetSystemLedBool(LED_RED, false);
    leds.SetSystemLedBool(LED_BLUE, true);
    Append(start, made, [LedCall.SetSystemLed(LED_RED, Off), LedCall.SetSystemLed(LED_BLUE, On)]);
    made := made + [LedCall.SetSystemLed(LED_RED, Off), LedCall.SetSystemLed(LED_BLUE, On)];
    if opts.brightness >= 0 {
      leds.SetBrightness(opts.brightness);
      Append(start, made, [LedCall.SetBrightness(opts.brightness)]);
      made := made + [LedCall.SetBrightness(opts.brightness)];
    }
    assert made == ConfigCalls(opts);
  }

  /** "clear out LEDs": both colours of every bay set to the xmas state. */
  method ClearBays(leds: LedRecorder, xmas: bool)
    modifies leds
    ensures leds.calls == old(leds.calls) + ClearCalls(xmas)
  {
    leds.Set(LED_BLUE + LED_RED, 0, xmas);
    leds.Set(LED_BLUE + LED_RED, 1, xmas);
    leds.Set(LED_BLUE + LED_RED, 2, xmas);
    leds.Set(LED_BLUE + LED_RED, 3, xmas);
  }

  lemma Append(a: seq<LedCall>, b: seq<LedCall>, c: seq<LedCall>)
    ensures a + b + c == a + (b + c)
  {
  }

  /** The device-monitor phase of `main`: construct, `Init` with the driver, `Main`, and then
      make the blue system LED blink again. */
  method RunMonitor(leds: LedRecorder, run: MonitorRun) returns (code: int, message: Option<string>)
    modifies leds
    ensures leds.calls == old(leds.calls) + MonitorCalls(run)
    ensures (code, message) == (if run.fault != DeviceMonitor.NoFault then (1, DeviceMonitor.FaultName(run.fault))
                                else if run.end == Interrupted then (0, None) else (1, Some("select")))
  {
    var monitor := new DeviceMonitor.Monitor();
    ghost var start := leds.calls;
    var err := monitor.Init(leds, run.fault, run.devices);
    ghost var enumerated := leds.calls;
    if err.Some? {
      MonitorFailsEarly(run, enumerated[|start|..]);
      assert enumerated == start + enumerated[|start|..];
      return 1, err;
    }
    assert monitor.ledIndexOfs == MonitorOffset(run);
    err := monitor.EventLoop(run.events, run.end);
    ghost var hotplug := leds.calls;
    if err.Some? {
      assert hotplug + RestoreCalls(run) == hotplug;
      MonitorSteps(run, start, enumerated, hotplug, hotplug);
      return 1, err;
    }
    leds.SetSystemLed(LED_BLUE, Blink);
    MonitorSteps(run, start, enumerated, hotplug, leds.calls);
    return 0, None;
  }

  /** When the monitor's `Init` fails, only its enumeration (if it got that far) made calls. */
  lemma MonitorFailsEarly(run: MonitorRun, made: seq<LedCall>)
    requires run.fault != DeviceMonitor.NoFault
    requires made == if run.fault == DeviceMonitor.EnableReceivingFails then EnumerationCalls(run) else []
    ensures made == MonitorCalls(run)
  {
  }

  /** The calls of a monitor run that got past `Init`: enumeration, then hotplug, then the
      blinking system LED if the wait ended on a signal. */
  lemma MonitorSteps(run: MonitorRun, start: seq<LedCall>, enumerated: seq<LedCall>, hotplug: seq<LedCall>, final: seq<LedCall>)
    requires run.fault == DeviceMonitor.NoFault
    requires enumerated == start + EnumerationCalls(run)
    requires hotplug == enumerated + HotplugPhaseCalls(run)
    requires final == hotplug + RestoreCalls(run)
    ensures final == start + MonitorCalls(run)
  {
    Append(start + EnumerationCalls(run), HotplugPhaseCalls(run), RestoreCalls(run));
    Append(start, EnumerationCalls(run), HotplugPhaseCalls(run) + RestoreCalls(run));
  }

  // ---------------------------------------------------------------------
  // What main leaves the LEDs showing

  /** After start-up every bay shows the xmas state in both colours, the system LED is blue
      and not red, and the brightness is the requested one if any was given. */
  lemma StartupState(opts: Options, c: nat, bay: nat)
    requires c < 2
    ensures BayState(StartupCalls(opts), c, bay) == if bay < 4 then Some(opts.xmas) else None
    ensures SystemState(StartupCalls(opts), 0) == Some(On)
    ensures SystemState(StartupCalls(opts), 1) == Some(Off)
    ensures Brightness(StartupCalls(opts)) == if opts.brightness >= 0 then Some(opts.brightness) else None
  {
    StartupBays(opts, c, bay);
    StartupSystem(opts);
  }

  lemma StartupBays(opts: Options, c: nat, bay: nat)
    requires c < 2
    ensures BayState(StartupCalls(opts), c, bay) == if bay < 4 then Some(opts.xmas) else None
  {
    ClearedBays(opts.xmas, c, bay);
    BayStateAppend(ConfigCalls(opts), ClearCalls(opts.xmas), c, bay);
  }

  /** Clearing sets every bay in both colours, and nothing outside the four bays. */
  lemma ClearedBays(xmas: bool, c: nat, bay: nat)
    requires c < 2
    ensures BayState(ClearCalls(xmas), c, bay) == if bay < 4 then Some(xmas) else None
  {
    ColourSelectors();
    assert TestBit(LED_BLUE + LED_RED, c);
    var sets := ClearCalls(xmas);
    assert sets[..3][..2][..1][..0] == [];
    if bay < 3 {
      assert BayState(sets, c, bay) == BayState(sets[..3], c, bay);
      if bay < 2 {
        assert BayState(sets[..3], c, bay) == BayState(sets[..2], c, bay) by { assert sets[..3][..2] == sets[..2]; }
        if bay < 1 {
          assert BayState(sets[..2], c, bay) == BayState(sets[..1], c, bay) by { assert sets[..2][..1] == sets[..1]; }
        }
      }
    }
  }

  lemma StartupSystem(opts: Options)
    ensures SystemState(StartupCalls(opts), 0) == Some(On)
    ensures SystemState(StartupCalls(opts), 1) == Some(Off)
    ensures Brightness(StartupCalls(opts)) == if opts.brightness >= 0 then Some(opts.brightness) else None
  {
    ConfiguredSystem(opts);
    ClearedSystem(opts.xmas);
    SystemStateAppend(ConfigCalls(opts), ClearCalls(opts.xmas), 0);
    SystemStateAppend(ConfigCalls(opts), ClearCalls(opts.xmas), 1);
    BrightnessAppend(ConfigCalls(opts), ClearCalls(opts.xmas));
  }

  /** Clearing the bays touches neither the system LED nor the brightness. */
  lemma ClearedSystem(xmas: bool)
    ensures SystemState(ClearCalls(xmas), 0) == None && SystemState(ClearCalls(xmas), 1) == None
    ensures Brightness(ClearCalls(xmas)) == None
  {
    var sets := ClearCalls(xmas);
    assert sets[..3][..2][..1][..0] == [];
  }

  lemma ConfiguredSystem(opts: Options)
    ensures SystemState(ConfigCalls(opts), 0) == Some(On)
    ensures SystemState(ConfigCalls(opts), 1) == Some(Off)
    ensures Brightness(ConfigCalls(opts)) == if opts.brightness >= 0 then Some(opts.brightness) else None
  {
    ColourSelectors();
    var mount: seq<LedCall> := if opts.mountUsb >= 0 then [LedCall.MountUsb(opts.mountUsb != 0)] else [];
    var system := [LedCall.SetSystemLed(LED_RED, Off), LedCall.SetSystemLed(LED_BLUE, On)];
    var bright: seq<LedCall> := if opts.brightness >= 0 then [LedCall.SetBrightness(opts.brightness)] else [];
    assert system[..1][..0] == [];
    SystemStateAppend(mount, system, 0);
    SystemStateAppend(mount, system, 1);
    SystemStateAppend(mount + system, bright, 0);
    SystemStateAppend(mount + system, bright, 1);
    if mount != [] {
      assert mount[..0] == [];
    }
    BrightnessAppend(mount, system);
    BrightnessAppend(mount + system, bright);
    if bright != [] {
      assert bright[..0] == [];
    }
  }

  /** After a device-monitor run that ends on a signal, the blue system LED blinks again. */
  lemma MonitorEndsBlinking(run: MonitorRun)
    requires run.fault == DeviceMonitor.NoFault && run.end == Interrupted
    ensures SystemState(MonitorCalls(run), 0) == Some(Blink)
  {
    ColourSelectors();
    var last := [LedCall.SetSystemLed(LED_BLUE, Blink)];
    assert MonitorCalls(run) == MonitorCalls(run)[..|MonitorCalls(run)| - 1] + last;
    SystemStateAppend(MonitorCalls(run)[..|MonitorCalls(run)| - 1], last, 0);
  }
}
