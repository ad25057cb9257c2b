# mediasmartserverd: a Dafny model of the LED daemon's core

mediasmartserverd drives the drive-bay and system LEDs of HP MediaSmart Server EX48X machines
(an Acer H340 driver exists too). It finds a driver, performs a fixed start-up sequence of LED
calls, and then carries on in one of three ways:

- it leaves every LED lit ("xmas") and exits;
- it runs a light show;
- it runs a udev device monitor that lights a bay's blue LED while a disk is attached to it.

This model covers the core of that program in seven modules:

- `Wrappers` (wrappers.dfy): `Option`, how a blocking wait ends (`WaitEnd`), and how `main` or the
  light show ends (`Outcome`).
- `LedControl` (led_control.dfy): the abstract driver interface of src/led_control_base.h.
  - The colour selector bits and the system-LED states.
  - The bool wrapper around `SetSystemLed`.
  - A class `LedRecorder`: a driver as its callers see it, which records every call made through
    the interface. The functions `BayState`, `SystemState` and `Brightness` read off what the
    driver was last told for a bay colour, a system LED colour, or the brightness.
- `Sch5127` (sch5127.dfy): the register layer of src/led_control_sch5127_base.h.
  - A class `Sch5127Base` holding the I/O port space, a log of every port write, and the
    discovered GPIO and runtime base addresses.
  - Its methods: `doBits_`, `setGpLpcLvl_`, `setGpRegsLvl_`, `setGpioSelInput_`,
    `disableWatchDog_`, `initPciLpc_`, `initSch5127_` and `Init`.
  - Functions and lemmas about ports, GPIO levels, blink enables and use/I-O selection.
- `HpEx48X` (hp_ex48x.dfy): the EX48X driver of src/led_hpex485.h.
  - The GPIO map of every LED and the PCI identity check.
  - The brightness clamp and duty-cycle table.
  - A class `HpEx48X` whose `Init`, `Set`, `SetSystemLed`, `MountUsb` and `SetBrightness` go
    through its `Sch5127Base` part.
- `DeviceMonitor` (device_monitor.dfy): src/device_monitor.cpp and src/device_monitor.h.
  - `atoi`.
  - The resolution of a device's topology to a signed LED index.
  - The ordered map built at enumeration, the offset its leading markers set, and the calls the
    walk over it makes.
  - The projection of an index onto one `Set` call, and the case-insensitive action dispatch.
  - A class `Monitor` with the fields `led_index_ofs_` and `leds_` and the methods
    `deviceChanged_`, `deviceAdded_`, `deviceRemove_`, `enumDevices_`, `Init` and `Main` (as `EventLoop`).
- `LightShow` (light_show.dfy): `run_light_show`.
  - Decoding `--light-show=N` with C's truncating `/` and `%` and the `size_t` mode.
  - The frame each mode draws and the `state` counter.
  - The loop of frames and waits.
- `Daemon` (daemon.dfy): `get_led_interface` and `main` after option parsing.
  - The driver probe order.
  - The start-up LED sequence.
  - The xmas exit, the light show, and the monitor phase with the final blinking LED.
  - Exceptions are caught as `main` catches them.

## Modelling decisions

- **Calls through the interface.** A driver seen through the interface is the sequence of calls
  made on it. Every operation above the interface is specified by the exact calls it makes, in
  order. Lemmas then state what the LEDs end up showing.
- **Register values.** A 32-bit register value is the set of positions of its 1-bits.
  - `val | bits` is union and `val & ~bits` is difference.
  - `outb(v, p)` leaves the register holding the zero-extended byte.
- **Port addresses.** A port is `(base + offset) mod 0x10000`, because `inl`/`outl`/`outb` take
  an unsigned short.
- **Hardware inputs.** The values the hardware returns are parameters:
  - the PCI device/vendor id;
  - the raw GPIOBASE;
  - the two SuperI/O base-address bytes.
- **Inheritance.** The C++ class `LedHpEx48X` derives from `LedControlSCH5127Base`. Here the
  driver holds its base part as the field `hw`, and the derived class's PCI check is passed to
  the base `Init`.
- **libudev.** A device is a record:
  - an optional `scsi_host` ancestor;
  - that ancestor's optional sysnum;
  - an optional parent, whose subsystem is optional too.

  Enumeration is a sequence of such devices, where `None` stands for a syspath that yields no
  device. Hotplug is a sequence of notifications, each an optional action and a device.
- **Waits.** A blocking wait in `Main` or in the light show is an input:
  - the light show times out a given number of times;
  - then its wait ends in an interruption (EINTR) or another failure.
- **The holiday show's `rand()`.** Its results are an input function, indexed by the order of
  the calls.

The model follows the code where the code and its documented intent differ:

- **Enumeration uses the insertion-time key.** Enumeration lights bay `key - 1`, where `key` is
  the index computed when the device was inserted, with the offset still 0. `deviceChanged_`
  does not re-resolve an index that is already positive. A later hotplug of the same device
  resolves against the new offset instead, so the two light different bays whenever leading
  markers moved the offset. `EnumerationExample` and `HotplugExample` show such a device: it is
  lit as bay 2 at enumeration and as bay 0 when it is added again.
- **No device after the markers.** When the map holds only markers, the offset becomes the
  largest marker key, not 0.
- **Missing parent versus missing subsystem.** A host with no parent resolves to 0. A parent
  that reports no subsystem resolves to the positive index.
- **Computed mode 0.** `show_mode` is a `size_t`. Any argument whose computed mode
  `(N - 2) % 4 + 1` is 0 (for example N = -3) runs the holiday show. A negative computed mode
  is unsupported.

## Model

| member | source | states |
|---|---|---|
| LedControl.ColourSelectors | src/led_control_base.h:37-40 | `LED_BLUE` selects blue only, `LED_RED` red only, `LED_BLUE \| LED_RED` both, and 0 neither |
| LedControl.ComplementBit | src/mediasmartserverd.cpp:157-158 | the complement `~x` of a selector selects exactly the colours `x` does not, for every int including negative ones |
| LedControl.StateCode | src/led_control_base.h:42-46 | each system-LED state is coded as one of the single bits 1, 2, 4 |
| LedControl.StateCodesDistinct | src/led_control_base.h:42-46 | two states have the same code exactly when they are the same state |
| LedControl.StateOfBool | src/led_control_base.h:63-65 | the bool wrapper gives `LED_ON` for true and `LED_OFF` for false, and never `LED_BLINK` |
| LedControl.BayState | src/led_control_base.h:58 | the state reported for a bay's colour is the state of some `Set` call that selected that bay and colour |
| LedControl.SystemState | src/led_control_base.h:60 | the state reported for a system LED's colour is the state of some `SetSystemLed` call that selected that colour |
| LedControl.Brightness | src/led_control_base.h:59 | the brightness reported is the level of some `SetBrightness` call |
| LedControl.BayStateAppend | src/led_control_base.h:58 | a later call to a bay's colour overrides earlier ones; calls that do not touch it keep its earlier state |
| LedControl.SystemStateAppend | src/led_control_base.h:60 | a later call to a system LED's colour overrides earlier ones; other calls keep its state |
| LedControl.BrightnessAppend | src/led_control_base.h:59 | the last brightness request wins; other calls keep the level |
| LedControl.LedRecorder.constructor | src/led_control_base.h:68 | a new driver has received no calls |
| LedControl.LedRecorder.Set | src/led_control_base.h:58 | the driver receives exactly one `Set` with the given arguments, after all earlier calls |
| LedControl.LedRecorder.SetBrightness | src/led_control_base.h:59 | the driver receives exactly one `SetBrightness` |
| LedControl.LedRecorder.SetSystemLed | src/led_control_base.h:60 | the driver receives exactly one `SetSystemLed` with the given state |
| LedControl.LedRecorder.SetSystemLedBool | src/led_control_base.h:63-65 | the bool overload makes exactly one `SetSystemLed` call, with On for true and Off for false |
| LedControl.LedRecorder.MountUsb | src/led_control_base.h:57 | the driver receives exactly one `MountUsb` |
| Sch5127.Port | src/led_control_sch5127_base.h:259-265 | the port a base plus offset reaches is a 16-bit port number |
| Sch5127.PortsDistinct | src/led_control_sch5127_base.h:68-85 | two different register offsets reach two different ports from any base |
| Sch5127.ByteBits | src/led_control_sch5127_base.h:244 | an `outb` leaves only bits 0 to 7 of the register set |
| Sch5127.ZeroByteBits | src/led_control_sch5127_base.h:243-245 | writing the byte 0 clears the whole register |
| Sch5127.BitsApplied | src/led_control_sch5127_base.h:259-264 | bit `i` of `doBits_`'s new value is `state` when `i` is in the mask, else bit `i` of the old value |
| Sch5127.BitsAppliedIdempotent | src/led_control_sch5127_base.h:259-265 | applying the same mask and state twice gives the value that applying it once gives |
| Sch5127.ChangedWrite | src/led_control_sch5127_base.h:265 | `doBits_` writes nothing exactly when the value is unchanged, and otherwise writes the new value once to the port |
| Sch5127.LevelBit | src/led_control_sch5127_base.h:272 | the mask position of a GPIO within its register is below 32 |
| Sch5127.WordBitsDistinct | src/led_control_sch5127_base.h:270-276 | two different GPIOs below 64 never share both a level register and a bit position |
| Sch5127.SetLevelPorts | src/led_control_sch5127_base.h:270-276 | `setGpLpcLvl_` changes only the GPIO's level register: its bit becomes `state`, every other bit of that register and every other port is kept |
| Sch5127.LevelWrite | src/led_control_sch5127_base.h:265-275 | `setGpLpcLvl_` writes nothing exactly when the GPIO already has the requested level |
| Sch5127.SetLevelEffect | src/led_control_sch5127_base.h:270-276 | after `setGpLpcLvl_(bit, state)` that GPIO's level is `state` and every other GPIO's level below 64 is unchanged |
| Sch5127.SetLevelKeepsBlinking | src/led_control_sch5127_base.h:270-276 | driving a level changes no GPIO's blink enable |
| Sch5127.SetLevelKeepsSelection | src/led_control_sch5127_base.h:270-276 | driving a level changes no GPIO's use or I/O selection |
| Sch5127.BlinkWriteEffect | src/led_hpex485.h:83 | writing the blink register through `doBits_` sets exactly the masked GPIOs' blink enable to `state` and keeps the others |
| Sch5127.BlinkWriteKeepsLevels | src/led_hpex485.h:83 | writing the blink register changes no GPIO's level |
| Sch5127.BlinkWriteKeepsSelection | src/led_hpex485.h:83 | writing the blink register changes no GPIO's use or I/O selection |
| Sch5127.SelInputPorts | src/led_control_sch5127_base.h:293-320 | `setGpioSelInput_` changes only the two use-select and the two I/O-select registers |
| Sch5127.SelInputKeepsLevels | src/led_control_sch5127_base.h:293-320 | the selection writes change no GPIO's level or blink enable |
| Sch5127.RuntimeBase | src/led_control_sch5127_base.h:210-215 | the runtime register base has `msb` as its high byte and `lsb` as its low byte: it is `msb * 256 + lsb`, below 0x10000 |
| Sch5127.ValidGpioBase | src/led_control_sch5127_base.h:143-147 | GPIOBASE is accepted exactly when bit 0 is 1, bits 1 to 6 are 0 and the upper 16 bits are 0 |
| Sch5127.AcceptedGpioBase | src/led_control_sch5127_base.h:143-147 | an accepted GPIOBASE with bit 0 cleared is 128-aligned and at most 0xFF80 |
| Sch5127.MinElement | src/led_control_sch5127_base.h:235 | the result is an element of the list and no element is smaller |
| Sch5127.MaxElement | src/led_control_sch5127_base.h:236 | the result is an element of the list and no element is larger |
| Sch5127.WatchdogWrites | src/led_control_sch5127_base.h:243-245 | the watchdog loop makes one write per watchdog register |
| Sch5127.WatchdogPortsDistinct | src/led_control_sch5127_base.h:231-245 | the four watchdog writes go to four different ports |
| Sch5127.ZeroedWatchdog | src/led_control_sch5127_base.h:243-245 | after `n` passes of the watchdog loop the first `n` watchdog registers are zero |
| Sch5127.WithBitHas | src/led_control_sch5127_base.h:252-255 | adding a GPIO below 64 to a pair of words adds exactly that GPIO |
| Sch5127.CollectBitsSnoc | src/led_hpex485.h:166-172 | accumulating one more GPIO is one `setBit32_` on the words collected so far |
| Sch5127.CollectBitsExact | src/led_hpex485.h:163-174 | the words collected from a list of GPIOs below 64 hold exactly the listed GPIOs |
| Sch5127.SetBit32 | src/led_control_sch5127_base.h:252-255 | the bit goes into `bits1` when it is below 32 and into `bits2` otherwise; the other word is unchanged |
| Sch5127.GpRegsIndex | src/led_control_sch5127_base.h:281 | the register index lies in -1..14 and is `bit / 16 - 1` for a bit in 0..255 |
| Sch5127.Sch5127Base.constructor | src/led_control_sch5127_base.h:46-49 | both base addresses start at 0, on the given port contents, with no write made |
| Sch5127.Sch5127Base.Outl | src/led_control_sch5127_base.h:265 | `outl` sets the register to the value and logs one write |
| Sch5127.Sch5127Base.Outb | src/led_control_sch5127_base.h:244 | `outb` sets the register to the zero-extended byte and logs one write |
| Sch5127.Sch5127Base.DoBits | src/led_control_sch5127_base.h:259-266 | the port takes the new value and no other port changes; a write is logged exactly when the value changed |
| Sch5127.Sch5127Base.SetGpLpcLvl | src/led_control_sch5127_base.h:270-276 | the port space becomes exactly `SetLevelPorts` of the old one (only that GPIO's level bit changes, to `state`); the write log grows by `LevelWrite`, empty exactly when the level already was `state`; every other level is kept |
| Sch5127.Sch5127Base.SetGpRegsLvl | src/led_control_sch5127_base.h:280-289 | with a non-negative register index, bit `bit & 0xF` of runtime register `REG_GP1 + index` becomes `state` through `doBits_` |
| Sch5127.Sch5127Base.SetGpioSelInput | src/led_control_sch5127_base.h:293-320 | the port space becomes exactly `SelInputPorts` of the old one and the log grows by the four writes use-select, use-select 2, I/O-select, I/O-select 2; the given GPIOs become GPIOs and outputs and every other GPIO keeps its selection |
| Sch5127.Sch5127Base.DisableWatchDog | src/led_control_sch5127_base.h:229-249 | the requested range starts at `regs + 0x65` and is 4 ports wide; the port space becomes exactly `ZeroedWatchdog` of the old one (the four watchdog registers zeroed, no other port changed) and the log grows by the four writes, in order |
| Sch5127.Sch5127Base.InitPciLpc | src/led_control_sch5127_base.h:117-154 | success exactly when the identity is accepted and GPIOBASE passes `(raw & 0xFFFF007F) == 1`; the stored base is the raw value with bit 0 cleared; GPIOBASE is requested only after an accepted identity |
| Sch5127.Sch5127Base.InitSch5127 | src/led_control_sch5127_base.h:209-215 | the runtime base is `msb << 8 \| lsb` and the step succeeds |
| Sch5127.Sch5127Base.Init | src/led_control_sch5127_base.h:56-63 | success exactly as in `initPciLpc_`. On success both bases are set, the ports are `InitPorts` (PCI address register at GPIOBASE, watchdog zeroed) and the log grows by the two PCI queries and the four watchdog writes. On failure the ports and log hold only the PCI queries made, GPIOBASE is the raw value if it was read, and the runtime base is untouched |
| HpEx48X.IoLedBlue | src/led_hpex485.h:148-152 | a bay's blue LED is a GPIO below 64 that `enableLeds_` enables |
| HpEx48X.IoLedRed | src/led_hpex485.h:155-159 | a bay's red LED is a GPIO below 64 that `enableLeds_` enables |
| HpEx48X.LedGpiosDistinct | src/led_hpex485.h:120-135 | the eight bay GPIOs are pairwise distinct and none is the USB or a system LED's GPIO |
| HpEx48X.ChkPciDeviceVendorId | src/led_hpex485.h:141-144 | the identity is accepted exactly when the vendor is 0x8086 (Intel) and the device 0x2916 (ICH9R) |
| HpEx48X.EnableOrderEnabled | src/led_hpex485.h:163-175 | `enableLeds_` collects exactly the eight bay GPIOs, the USB GPIO and the two system GPIOs |
| HpEx48X.ClampBrightness | src/led_hpex485.h:99 | the index is the level clamped to 0..9: unchanged inside that range, 0 below it, 9 above it |
| HpEx48X.ClampBrightnessMonotone | src/led_hpex485.h:99 | a higher request never gives a lower index |
| HpEx48X.BrightnessTableIncreasing | src/led_hpex485.h:96-98 | the duty-cycle table rises strictly |
| HpEx48X.SystemBlinkBits | src/led_hpex485.h:80-82 | the blink mask holds exactly the selected system GPIOs |
| HpEx48X.LedLevelsEffect | src/led_hpex485.h:110-115 | driving a blue/red pair sets the level of each selected colour's GPIO and keeps every other GPIO's level |
| HpEx48X.LedLevelWritesNone | src/led_hpex485.h:110-115 | when each selected colour already has the level, driving the pair writes nothing |
| HpEx48X.LedLevelsKeepSelection | src/led_hpex485.h:110-115 | driving a blue/red pair changes no GPIO's use or I/O selection and no blink enable |
| HpEx48X.SystemLedEffect | src/led_hpex485.h:74-84 | each selected system GPIO's level is `!(state == LED_ON)` and its blink enable is `state == LED_BLINK`; every other GPIO keeps its level and blink enable |
| HpEx48X.SystemLedViews | src/led_hpex485.h:74-84 | the system-LED update, stated for all GPIOs at once: levels and blink enables as in `SystemLedEffect`, and no selection changed |
| HpEx48X.HpEx48X.constructor | src/led_hpex485.h:42 | a new driver's base part is fresh, holds the given ports and has written nothing |
| HpEx48X.HpEx48X.Init | src/led_hpex485.h:52-70 | success exactly when the ICH9R identity (0x29168086) is found and GPIOBASE is valid. On success the ports are the base `Init`'s followed by `enableLeds_`'s selection writes, the log is the base writes then the four selection writes, every LED GPIO is a GPIO output, and the watchdog registers not shared with a selection register are zero. On failure the state is exactly the failed base `Init`'s |
| HpEx48X.HpEx48X.EnableLeds | src/led_hpex485.h:163-175 | the ports become `SelInputPorts` with exactly the LED GPIOs and the log grows by its four writes; every LED GPIO becomes a GPIO output, no other GPIO's selection changes, and no level or blink enable changes |
| HpEx48X.HpEx48X.Set | src/led_hpex485.h:110-115 | a bay index of 4 or more changes nothing. Otherwise the ports become `LedLevels` of the bay's two GPIOs at level `!state` (active low) and the log grows by their writes: each selected colour's level becomes `!state`, every other level is kept, no selection or blink enable changes, and nothing is written when the LEDs already show the state |
| HpEx48X.HpEx48X.SetLedLevels | src/led_hpex485.h:112-113 | the blue GPIO (if selected) and then the red one (if selected) are driven by `setGpLpcLvl_`: the ports become `LedLevels` and the log grows by exactly those writes |
| HpEx48X.HpEx48X.ApplyLedLevels | src/led_hpex485.h:110-115 | after driving a bay's pair, each selected GPIO has the level and all others are kept; nothing was written when the levels were already right; no selection or blink enable changed |
| HpEx48X.HpEx48X.SetSystemLed | src/led_hpex485.h:74-84 | the ports become `SystemLedPorts` and the log grows by `SystemLedWrites`: selected system LEDs are lit for On and Blink and dark for Off, and blink exactly for Blink; other GPIOs keep level and blink enable; no selection changes; with no colour selected nothing is written |
| HpEx48X.HpEx48X.MountUsb | src/led_hpex485.h:88-90 | the ports become `SetLevelPorts` for the USB GPIO at level `state`, not inverted, and the log grows by `LevelWrite`; every other level, every selection and every blink enable is kept |
| HpEx48X.HpEx48X.SetBrightness | src/led_hpex485.h:95-103 | exactly two writes: the PWM3 duty-cycle index to the HWM index register, then the clamped level's table entry to the HWM data register; the ports change in exactly those two registers |
| DeviceMonitor.SkipSpace | src/device_monitor.cpp:177 | the leading white space is removed, and only white space |
| DeviceMonitor.LeadingDigits | src/device_monitor.cpp:177 | the longest run of digits that starts the string |
| DeviceMonitor.ToDecimal | src/device_monitor.cpp:177 | a non-empty numeral whose decimal value is `n` |
| DeviceMonitor.Atoi | src/device_monitor.cpp:177 | a negative result needs a leading `-` after the white space; without a sign or digit there the result is 0 |
| DeviceMonitor.LeadingDigitsOfNumeral | src/device_monitor.cpp:177 | `atoi` reads a numeral up to the first non-digit and no further |
| DeviceMonitor.AtoiOfDigits | src/device_monitor.cpp:177 | `atoi` of a numeral followed by a non-digit is the numeral's value |
| DeviceMonitor.AtoiOfNegatedDigits | src/device_monitor.cpp:177 | `atoi` of a minus sign and a numeral is the negated value |
| DeviceMonitor.AtoiRoundTrip | src/device_monitor.cpp:177 | `atoi` reads back the decimal numeral of any `n`, signed or not |
| DeviceMonitor.LedIndexForDevice | src/device_monitor.cpp:165-196 | 0 with no scsi_host, no sysnum or no parent; otherwise `atoi(sysnum) - ofs + 1`, kept when the parent's subsystem is exactly "pci" or missing, negated otherwise |
| DeviceMonitor.LedIndexSign | src/device_monitor.cpp:165-196 | the index is 0 exactly when the topology is incomplete or the raw index is 0; it is positive exactly for a PCI host with a positive raw index or a non-PCI host with a negative one; its magnitude is the raw index's |
| DeviceMonitor.OffsetShiftsIndex | src/device_monitor.cpp:177 | the offset moves a PCI device's index down by exactly the offset |
| DeviceMonitor.Abs | src/device_monitor.cpp:235 | `abs` gives `x` or `-x` and is never negative |
| DeviceMonitor.Projection | src/device_monitor.cpp:153-159 | no call for an index of 0 or less, otherwise exactly one `Set(LED_BLUE, idx - 1, state)` |
| DeviceMonitor.ChangedIndex | src/device_monitor.cpp:152 | a positive index given by the caller is kept; otherwise the resolved index is used |
| DeviceMonitor.ProjectionBays | src/device_monitor.cpp:159 | a projected call sets only the blue LED of bay `idx - 1` and leaves the red LEDs and every other bay alone |
| DeviceMonitor.Collected | src/device_monitor.cpp:215-236 | every key of the enumeration map is positive |
| DeviceMonitor.KeysOf | src/device_monitor.cpp:230-235 | each device's key is `abs` of its index, or 0 for a missing device |
| DeviceMonitor.CollectedKeys | src/device_monitor.cpp:230-235 | a key is in the map exactly when it is nonzero and some device resolves to it |
| DeviceMonitor.CollectedFirstWins | src/device_monitor.cpp:235 | the entry under a key is the first device that resolved to it: a marker for a negative index, the device for a positive one |
| DeviceMonitor.SetMin | src/device_monitor.cpp:240 | the least key of a non-empty set is in the set and below every other key |
| DeviceMonitor.SortedKeys | src/device_monitor.cpp:240 | the map is walked over exactly its keys, in strictly ascending order |
| DeviceMonitor.FirstPresent | src/device_monitor.cpp:239-247 | the position of the first device in the walk: no earlier key holds a device |
| DeviceMonitor.LeadingMarkerPosition | src/device_monitor.cpp:239-245 | every marker below all device keys is reached before the first device |
| DeviceMonitor.LastKeyBeforeFirstPresent | src/device_monitor.cpp:239-245 | the key just before the first device is a marker below every device key |
| DeviceMonitor.EnumOffset | src/device_monitor.cpp:239-245 | the offset moves only to a marker key of the walk; a device at the first key leaves it; a walk of markers only ends on the last marker key |
| DeviceMonitor.EnumOffsetIsLastLeadingMarker | src/device_monitor.cpp:239-245 | the offset enumeration leaves is the largest marker key below every device key, or the previous offset when there is no such marker; later markers never move it |
| DeviceMonitor.PresentCalls | src/device_monitor.cpp:239-250 | the walk makes at most one call per key, each `Set(LED_BLUE, _, true)` |
| DeviceMonitor.PresentCallsBays | src/device_monitor.cpp:240-249 | the walk lights the blue LED of bay `key - 1` for exactly the keys that hold a device, using the insertion-time key, and touches nothing else |
| DeviceMonitor.PresentCallsLight | src/device_monitor.cpp:247-249 | every call of the walk is `Set(LED_BLUE, key - 1, true)` for a key that holds a device |
| DeviceMonitor.PresentCallsAscending | src/device_monitor.cpp:240-249 | the walk lights bays in strictly ascending order |
| DeviceMonitor.ExampleIndices | src/device_monitor.cpp:165-196 | USB hosts with sysnums 0 and 1 resolve to -1 and -2, and a PCI host with sysnum 2 resolves to 3 |
| DeviceMonitor.UsbHostIndex | src/device_monitor.cpp:186-195 | a host on the USB bus resolves to the negated raw index |
| DeviceMonitor.AtoiOneDigit | src/device_monitor.cpp:177 | `atoi` of one digit is that digit's value |
| DeviceMonitor.SortedOneTwoThree | src/device_monitor.cpp:240 | the keys {1, 2, 3} are walked as 1, 2, 3 |
| DeviceMonitor.CollectedSnoc | src/device_monitor.cpp:230-235 | one more device extends the map as one pass of the first loop does |
| DeviceMonitor.ExampleCollected | src/device_monitor.cpp:215-236 | two decoys resolving to -1 and -2 and a disk resolving to 3 give markers under 1 and 2 and the disk under 3 |
| DeviceMonitor.ExampleWalk | src/device_monitor.cpp:239-250 | walking that map moves the offset to 2 and lights only bay 2 |
| DeviceMonitor.EnumerationExample | src/device_monitor.cpp:200-251 | enumerating those three devices visits keys 1, 2, 3, sets the offset to 2, and lights bay 2 for the disk |
| DeviceMonitor.HotplugExample | src/device_monitor.cpp:148-159 | an "add" of the same disk after that enumeration lights bay 0, not bay 2 |
| DeviceMonitor.ToLowerAscii | src/device_monitor.cpp:120 | upper-case ASCII letters map to lower case and every other character is kept |
| DeviceMonitor.EqualsIgnoreCase | src/device_monitor.cpp:120-122 | `strcasecmp(a, b) == 0` exactly when the ASCII lower-case forms are equal; equal strings always compare equal |
| DeviceMonitor.ActionState | src/device_monitor.cpp:118-124 | a notification means "present" exactly for an action equal to "add" ignoring case, "absent" exactly for "remove", and is ignored otherwise, including a missing action |
| DeviceMonitor.ActionExamples | src/device_monitor.cpp:118-129 | "ADD" adds, "Remove" removes, and "change", "adds" or no action are ignored |
| DeviceMonitor.EventCalls | src/device_monitor.cpp:115-124 | one notification makes at most one call, a blue `Set`, and none for an ignored action |
| DeviceMonitor.HotplugCalls | src/device_monitor.cpp:101-131 | the notifications make at most one call each, and every call is a blue `Set` |
| DeviceMonitor.HotplugCallsAppend | src/device_monitor.cpp:101-131 | notifications are handled one at a time, in arrival order |
| DeviceMonitor.EventBays | src/device_monitor.cpp:118-123 | an add or remove of a device with a positive index sets that bay's blue LED to present or absent; any other notification changes no LED |
| DeviceMonitor.Monitor.constructor | src/device_monitor.cpp:49-53 | no udev context or monitor yet, offset 0, and no driver |
| DeviceMonitor.Monitor.DeviceChanged | src/device_monitor.cpp:148-160 | the driver, if present, receives exactly the projection of the given index, or of the resolved index when the given one is 0 or less (the default) |
| DeviceMonitor.Monitor.DeviceAdded | src/device_monitor.cpp:136-138 | `deviceChanged_` with state true and the default index 0 |
| DeviceMonitor.Monitor.DeviceRemove | src/device_monitor.cpp:142-144 | `deviceChanged_` with state false and the default index 0 |
| DeviceMonitor.FaultName | src/device_monitor.cpp:64-89 | no exception when no step fails; otherwise the non-empty name of the failing libudev call |
| DeviceMonitor.Monitor.CollectAttached | src/device_monitor.cpp:215-236 | the first loop builds exactly the enumeration map |
| DeviceMonitor.Monitor.LightCollected | src/device_monitor.cpp:239-250 | the second loop leaves the offset the leading markers set and makes exactly the walk's calls |
| DeviceMonitor.Monitor.EnumDevices | src/device_monitor.cpp:200-251 | enumeration sets the offset from the leading markers and lights the devices of the map, walking it in ascending key order |
| DeviceMonitor.Monitor.Init | src/device_monitor.cpp:64-89 | the driver is kept; the exception raised is exactly the failing libudev step's name, none when no step fails; enumeration happens exactly when the filter step succeeded |
| DeviceMonitor.Monitor.EventLoop | src/device_monitor.cpp:93-132 | the driver receives exactly the calls of the notifications, in order; a signal returns normally and any other wait failure raises "select" |
| LightShow.CDivRem | src/mediasmartserverd.cpp:129-130 | C's truncating `/` and `%`: they agree with the floor versions for a non-negative dividend, and the remainder is never positive for a negative one |
| LightShow.CDiv | src/mediasmartserverd.cpp:130 | C's `/` rounds toward zero: `q * b <= a < q * b + b` for a non-negative dividend and `q * b - b < a <= q * b` for a negative one |
| LightShow.CRem | src/mediasmartserverd.cpp:129 | C's `%` lies strictly between `-b` and `b`, takes the dividend's sign, and is `-((-a) % b)` for a negative dividend |
| LightShow.DecodeMode | src/mediasmartserverd.cpp:125-129 | for N of 1 or more, the holiday show is chosen exactly when N is 1 |
| LightShow.DecodeColour | src/mediasmartserverd.cpp:130-135 | for any N other than 1 the colour is blue, red, or both |
| LightShow.DecodeArguments | src/mediasmartserverd.cpp:125-136 | N of 2 or more selects pattern `(N - 2) % 4 + 1` with period 4 in N; N in 6..9 is red, 10..13 both colours, any other N blue |
| LightShow.DecodeNegativeArguments | src/mediasmartserverd.cpp:129 | 0, -1 and -4 are unsupported, -2 is the descending chaser, and -3 is the holiday show |
| LightShow.Period | src/mediasmartserverd.cpp:165-186 | every mode's period is positive |
| LightShow.NextState | src/mediasmartserverd.cpp:165-186 | the next state is below the period, or is the unchanged holiday state |
| LightShow.StateCycles | src/mediasmartserverd.cpp:139-186 | after `n` frames `state` is `n` modulo the mode's period |
| LightShow.StateBound | src/mediasmartserverd.cpp:139-186 | `state` stays below the period |
| LightShow.CountStep | src/mediasmartserverd.cpp:165-186 | `++state` with reset at the period counts modulo the period |
| LightShow.ChaserSweeps | src/mediasmartserverd.cpp:164-178 | descending lights `3 - state`, ascending `state`, and the knight rider 0, 1, 2, 3, 2, 1 over its period |
| LightShow.KnightSel | src/mediasmartserverd.cpp:176 | the knight rider selects a bay in 0..3 during its period, and bay 3 exactly at state 3 |
| LightShow.LitBay | src/mediasmartserverd.cpp:162-179 | a chaser lights one bay in 0..3 during its period; any other mode lights none |
| LightShow.PulseLevel | src/mediasmartserverd.cpp:184 | the pulse level stays in 1..9 during the period |
| LightShow.PulseBounds | src/mediasmartserverd.cpp:184 | the pulse level stays in 1..9, peaks at 9 exactly at state 8, and is symmetric |
| LightShow.HolidayLeds | src/mediasmartserverd.cpp:149-155 | a draw of 0..3 selects blue exactly for 1 and 3 and red exactly for 2 and 3 |
| LightShow.BayCalls | src/mediasmartserverd.cpp:146-187 | a frame makes at most two calls for a bay, all `Set`s of that bay |
| LightShow.BaysCallsTouch | src/mediasmartserverd.cpp:148-183 | the first `n` bays' calls are `Set`s of bays below `n` |
| LightShow.BaysCallsBays | src/mediasmartserverd.cpp:148-183 | a bay's state after a frame's first `n` bays is whatever that bay's own calls set |
| LightShow.BayStateStep | src/mediasmartserverd.cpp:148-183 | appending one bay's calls changes only that bay's state |
| LightShow.OtherBaysUntouched | src/mediasmartserverd.cpp:157-183 | the calls for one bay leave every other bay alone |
| LightShow.FrameBays | src/mediasmartserverd.cpp:145-188 | a frame sets each bay below 4 by that bay's own calls; the brightness call touches no bay |
| LightShow.FrameCalls | src/mediasmartserverd.cpp:145-188 | a frame only sets bays 0..3, plus the brightness in the pulsing mode |
| LightShow.ChaserFrame | src/mediasmartserverd.cpp:162-179 | a chaser frame lights exactly the selected bay in 0..3 in each chosen colour, darkens the other three, and leaves colours not chosen alone |
| LightShow.PulsingFrame | src/mediasmartserverd.cpp:181-187 | a pulsing frame lights all four bays in each chosen colour and sets the brightness to the pulse level |
| LightShow.HolidayFrame | src/mediasmartserverd.cpp:146-160 | a holiday frame shows in each bay exactly the colours its draw of `rand() % 4` picked |
| LightShow.ShowFrameState | src/mediasmartserverd.cpp:139-203 | frame `k` of a show is drawn with `state == k % period` |
| LightShow.ShowStep | src/mediasmartserverd.cpp:143-203 | drawing frame `k` after the first `k` frames gives the calls of `k + 1` frames |
| LightShow.ShowCalls | src/mediasmartserverd.cpp:143-203 | a show only sets bays 0..3, plus the brightness in the pulsing mode |
| LightShow.ChaserShowState | src/mediasmartserverd.cpp:143-203 | while a chaser show runs, exactly the bay selected by the latest frame's state is lit in each chosen colour |
| LightShow.PulsingShowLevel | src/mediasmartserverd.cpp:181-203 | while a pulsing show runs, the brightness is the latest frame's pulse level |
| LightShow.DrawHoliday | src/mediasmartserverd.cpp:146-160 | the holiday case makes exactly its two calls per bay |
| LightShow.DrawChaser | src/mediasmartserverd.cpp:162-179 | a chaser case makes exactly one `Set` per bay, lit only for the selected bay |
| LightShow.DrawPulse | src/mediasmartserverd.cpp:181-187 | the pulsing case makes exactly its four `Set`s and the brightness call |
| LightShow.ShowFrame | src/mediasmartserverd.cpp:145-188 | one pass of the switch makes exactly the frame's calls and advances `state` |
| LightShow.DrawFrames | src/mediasmartserverd.cpp:143-203 | `n` passes of the loop make exactly the calls of the first `n` frames and leave the state after them |
| LightShow.RunLightShow | src/mediasmartserverd.cpp:121-206 | an unsupported mode returns 1 with no call; otherwise frames are drawn until the wait ends, then a signal returns 0 and any other failure raises "select" |
| Daemon.GetLedInterface | src/mediasmartserverd.cpp:82-95 | the H340 exactly when its `Init` succeeds; otherwise the 48X exactly when its `Init` succeeds; otherwise none |
| Daemon.ProbeLedInterface | src/mediasmartserverd.cpp:82-95 | with the 48X driver's `Init` run on real register state, the probe finds the 48X exactly when the ICH9R is present and GPIOBASE is valid |
| Daemon.RunMain | src/mediasmartserverd.cpp:211-326 | no driver raises "Failed to find an LED control interface" and returns 1 before any call; otherwise each of the xmas exit, the light show and the monitor makes exactly its calls after the start-up sequence and returns its code; exceptions become 1 and their message |
| Daemon.StartLeds | src/mediasmartserverd.cpp:283-304 | the start-up sequence makes exactly its calls: USB if asked, red system LED off, blue on, brightness if given, then the four bays |
| Daemon.ConfigureLeds | src/mediasmartserverd.cpp:283-298 | the USB, system-LED and brightness steps make exactly their calls |
| Daemon.StartupCalls | src/mediasmartserverd.cpp:283-304 | every bay call of start-up uses the xmas state |
| Daemon.ConfigCalls | src/mediasmartserverd.cpp:283-298 | no bay call; `MountUsb(mount_usb != 0)` exactly when `mount_usb >= 0`; `SetBrightness(brightness)` exactly when `brightness >= 0` |
| Daemon.ClearCalls | src/mediasmartserverd.cpp:301-304 | four calls, the `i`-th `Set(LED_BLUE \| LED_RED, i, xmas)` |
| Daemon.ClearBays | src/mediasmartserverd.cpp:301-304 | both colours of bays 0 to 3 are set to the xmas state, in bay order |
| Daemon.RunMonitor | src/mediasmartserverd.cpp:309-319 | the monitor phase makes the enumeration, hotplug and restore calls of its run; a failing `Init` or wait returns 1 with the exception's message |
| Daemon.MonitorCalls | src/device_monitor.cpp:64-89 | a libudev failure before enumeration makes no call |
| Daemon.MonitorTouches | src/mediasmartserverd.cpp:309-319 | the monitor phase sets only blue bay LEDs, and the system LED only to blue blinking |
| Daemon.MonitorFailsEarly | src/device_monitor.cpp:64-89 | when `Init` fails, only the enumeration (if reached) made calls |
| Daemon.MonitorSteps | src/mediasmartserverd.cpp:310-317 | enumeration, then hotplug, then the restored blinking are exactly the monitor phase's calls |
| Daemon.StartupState | src/mediasmartserverd.cpp:283-304 | after start-up every bay shows the xmas state in both colours, the system LED is blue and not red, and the brightness is the requested one if any |
| Daemon.StartupBays | src/mediasmartserverd.cpp:283-304 | after start-up each of the four bays shows the xmas state in both colours, and no other bay is set |
| Daemon.ClearedBays | src/mediasmartserverd.cpp:301-304 | clearing sets every bay in both colours, and nothing outside the four bays |
| Daemon.StartupSystem | src/mediasmartserverd.cpp:294-304 | after start-up the blue system LED is on, the red off, and the brightness the requested one if any |
| Daemon.ClearedSystem | src/mediasmartserverd.cpp:301-304 | clearing the bays touches neither the system LED nor the brightness |
| Daemon.ConfiguredSystem | src/mediasmartserverd.cpp:283-298 | the USB, system and brightness calls leave blue on, red off, and the requested brightness |
| Daemon.MonitorEndsBlinking | src/mediasmartserverd.cpp:314-317 | after a monitor run that ends on a signal, the blue system LED blinks again |

## Left out

- libudev itself is not modelled: contexts, the netlink monitor, filters, the enumeration scan
  and reference counting. The devices and notifications it would deliver are inputs, and so is
  which `Init` step fails.
- `pselect`, signal handling and `init_signals` are not modelled. Only how each wait ends is
  modelled: a time-out (in the light show), an interruption, or another failure.
- Console and debug output is not modelled, and neither is `Desc()`.
- `srand(time(0))` is not modelled. The holiday show's `rand()` results are an input.
- Command-line parsing (`getopt_long`, help, version) is not modelled. Its results are the
  `Options` argument.
- `daemon()` and `drop_priviledges` are not modelled.
- The Acer H340 driver is not part of this model. Whether its `Init` succeeds is an input.
- `ioperm` is not modelled. Every permission request succeeds, so the `ErrnoException("ioperm")`
  paths are left out.
- The SuperI/O configuration conversation in `initSch5127_` is reduced to the two base-address
  bytes it reads. That includes the switch to port 0x4e, the writes to the index and data
  ports, and the configuration-mode enter and exit.
- Real port I/O is left out. A port's value is whatever the model last wrote, or its initial
  contents. Hardware that changes a register by itself is not modelled.
- The PCI configuration data port is not written to the port map. The values read from it are
  parameters.
- An exception's message is modelled as the string given to `ErrnoException` (or
  `runtime_error`). `main` prints `e.what()` (src/mediasmartserverd.cpp:321-322), but
  errno_exception.h is not part of this model, so any errno text it appends is not modelled.
- HpEx48X.HpEx48X.Init: a watchdog register is shown to be zero only when it does not share a
  port with one of the four selection registers that `enableLeds_` writes afterwards. When the
  two bases make them share a port, that port holds the selection value that was written last.
- HpEx48X.Init: the exception it throws when an `ioperm` request fails is not modelled. Only
  the returned bool is.
- Sch5127.LevelBit: `1 << bit` for a GPIO of 32 or more is undefined in C++. The model takes the
  x86 behaviour, a shift by `bit % 32`. Only GPIOs 0..63 are shown to select the right register.
- Sch5127.SetGpRegsLvl: the source's `assert(reg >= 0)` is a precondition here. The method is
  part of the base class but no modelled driver calls it.
- `atoi` is modelled for values that fit an `int`. Its undefined behaviour on overflow is left
  out, and so is 32-bit wrap-around in `sysnum - ofs + 1`.
- `size_t` wrap-around in the chaser selectors is avoided because `state` is below the period.
- `led_idx` conversions between `int` and `size_t` are avoided because `Set` receives a
  non-negative index wherever the model calls it.
