/**
 The drive-bay device monitor (src/device_monitor.cpp, src/device_monitor.h):
 resolving a SCSI device's topology to a signed LED index, the one-off
 enumeration of attached devices with its leading-decoy offset, the
 projection of an (index, present) pair onto the LED driver, and the
 hotplug event loop.

 libudev is reduced to a topology record per device; a notification is an
 optional action string and a device; the blocking wait ends in an
 interruption or a failure.
 */
module DeviceMonitor {
  import opened Wrappers
  import opened LedControl

  // ---------------------------------------------------------------------
  // Device topology

  /** The parent of the nearest `scsi_host` ancestor; its subsystem may be unreported. */
  datatype HostParent = HostParent(subsystem: Option<string>)

  /** The nearest `scsi`/`scsi_host` ancestor of a device. */
  datatype ScsiHost = ScsiHost(sysnum: Option<string>, parent: Option<HostParent>)

  /** A SCSI device as the monitor queries it. */
  datatype Device = Device(scsiHost: Option<ScsiHost>)

  // ---------------------------------------------------------------------
  // atoi

  predicate IsSpace(c: char) {
    c == ' ' || c == '\t' || c == '\n' || c == '\r' || c == '\U{000B}' || c == '\U{000C}'
  }

  predicate IsDigit(c: char) {
    '0' <= c <= '9'
  }

  predicate AllDigits(d: string) {
    forall i :: 0 <= i < |d| ==> IsDigit(d[i])
  }

  /** The input with its leading white space removed. */
  function SkipSpace(s: string): (t: string)
    ensures |t| <= |s| && t == s[|s| - |t|..]
    ensures t == [] || !IsSpace(t[0])
    ensures forall i :: 0 <= i < |s| - |t| ==> IsSpace(s[i])
  {
    if s != [] && IsSpace(s[0]) then SkipSpace(s[1..]) else s
  }

  /** The longest run of digits the input starts with. */
  function LeadingDigits(s: string): (d: string)
    ensures |d| <= |s| && d == s[..|d|]
    ensures AllDigits(d)
    ensures |d| < |s| ==> !IsDigit(s[|d|])
  {
    if s != [] && IsDigit(s[0]) then [s[0]] + LeadingDigits(s[1..]) else []
  }

  /** The value of a string of decimal digits, most significant first. */
  function DecimalValue(d: string): nat
    requires AllDigits(d)
  {
    if d == [] then 0 else DecimalValue(d[..|d| - 1]) * 10 + (d[|d| - 1] as int - '0' as int)
  }

  /** C `atoi` on a value that fits an `int`: white space, an optional sign, then digits.
      Only a leading minus gives a negative value, and text that does not start (after
      white space) with a sign or a digit reads as 0. */
  function Atoi(s: string): (r: int)
    ensures r < 0 ==> SkipSpace(s) != [] && SkipSpace(s)[0] == '-'
    ensures SkipSpace(s) == [] || !(SkipSpace(s)[0] in "+-" || IsDigit(SkipSpace(s)[0])) ==> r == 0
  {
    var t := SkipSpace(s);
    if t != [] && t[0] == '-' then -(DecimalValue(LeadingDigits(t[1..])) as int)
    else if t != [] && t[0] == '+' then DecimalValue(LeadingDigits(t[1..]))
    else DecimalValue(LeadingDigits(t))
  }

  /** The decimal numeral of `n`, without leading zeros. */
  function ToDecimal(n: nat): (d: string)
    ensures d != [] && AllDigits(d)
    ensures DecimalValue(d) == n
  {
    var c := ('0' as int + n % 10) as char;
    if n < 10 then [c]
    else
      var d := ToDecimal(n / 10) + [c];
      assert d[..|d| - 1] == ToDecimal(n / 10);
      d
  }

  lemma {:induction false} LeadingDigitsOfNumeral(d: string, rest: string)
    requires AllDigits(d)
    requires rest == [] || !IsDigit(rest[0])
    ensures LeadingDigits(d + rest) == d
    decreases |d|
  {
    if d != [] {
      assert (d + rest)[1..] == d[1..] + rest;
      LeadingDigitsOfNumeral(d[1..], rest);
    } else {
      assert d + rest == rest;
    }
  }

  lemma AtoiOfDigits(d: string, rest: string)
    requires d != [] && AllDigits(d)
    requires rest == [] || !IsDigit(rest[0])
    ensures Atoi(d + rest) == DecimalValue(d)
  {
    LeadingDigitsOfNumeral(d, rest);
    var t := d + rest;
    assert t[0] == d[0];
    assert SkipSpace(t) == t;
  }

  lemma AtoiOfNegatedDigits(d: string, rest: string)
    requires d != [] && AllDigits(d)
    requires rest == [] || !IsDigit(rest[0])
    ensures Atoi("-" + d + rest) == -(DecimalValue(d) as int)
  {
    LeadingDigitsOfNumeral(d, rest);
    var t := d + rest;
    var neg := ['-'] + t;
    assert "-" + d + rest == neg;
    assert SkipSpace(neg) == neg;
    assert neg[1..] == t;
  }

  /** `atoi` reads back any numeral, signed or not, up to the first non-digit. */
  lemma AtoiRoundTrip(n: nat, rest: string)
    requires rest == [] || !IsDigit(rest[0])
    ensures Atoi(ToDecimal(n) + rest) == n
    ensures Atoi("-" + ToDecimal(n) + rest) == -(n as int)
  {
    AtoiOfDigits(ToDecimal(n), rest);
    AtoiOfNegatedDigits(ToDecimal(n), rest);
  }

  // ---------------------------------------------------------------------
  // Resolution (getLedIndexForDevice_)

  /** The device has a `scsi_host` ancestor with a sysnum and a parent. */
  predicate Resolvable(dev: Device) {
    dev.scsiHost.Some? && dev.scsiHost.value.sysnum.Some? && dev.scsiHost.value.parent.Some?
  }

  /** The host's bay number before the sign is applied. */
  function RawIndex(dev: Device, ofs: int): int
    requires Resolvable(dev)
  {
    Atoi(dev.scsiHost.value.sysnum.value) - ofs + 1
  }

  /** The host's parent is on the PCI bus, or does not report a subsystem. */
  predicate OnPci(dev: Device)
    requires Resolvable(dev)
  {
    var sub := dev.scsiHost.value.parent.value.subsystem;
    sub.None? || sub.value == "pci"
  }

  /** `getLedIndexForDevice_`: the signed LED index of a device, 0 when the topology is incomplete. */
  function LedIndexForDevice(dev: Device, ofs: int): (idx: int)
    ensures !Resolvable(dev) ==> idx == 0
    ensures Resolvable(dev) ==> idx == if OnPci(dev) then RawIndex(dev, ofs) else -RawIndex(dev, ofs)
  {
    match dev.scsiHost
    case None => 0
    case Some(host) =>
      match host.sysnum
      case None => 0
      case Some(sysnum) =>
        var ledIdx := Atoi(sysnum) - ofs + 1;
        match host.parent
        case None => 0
        case Some(parent) =>
          match parent.subsystem
          case None => ledIdx
          case Some(subsystem) => if subsystem == "pci" then ledIdx else -ledIdx
  }

  /** The index is zero exactly when the topology is incomplete or the raw index is zero;
      it is positive exactly for a PCI host with a positive raw index, or a non-PCI host
      with a negative one. */
  lemma LedIndexSign(dev: Device, ofs: int)
    ensures LedIndexForDevice(dev, ofs) == 0 <==> !Resolvable(dev) || RawIndex(dev, ofs) == 0
    ensures LedIndexForDevice(dev, ofs) > 0 <==>
      Resolvable(dev) && (if OnPci(dev) then RawIndex(dev, ofs) > 0 else RawIndex(dev, ofs) < 0)
    ensures Resolvable(dev) ==> Abs(LedIndexForDevice(dev, ofs)) == Abs(RawIndex(dev, ofs))
  {
  }

  /** The offset moves a PCI device's index down by exactly the offset. */
  lemma OffsetShiftsIndex(dev: Device, ofs: int)
    requires Resolvable(dev) && OnPci(dev)
    ensures LedIndexForDevice(dev, ofs) == LedIndexForDevice(dev, 0) - ofs
  {
  }

  function Abs(x: int): (r: nat)
    ensures r == x || r == -x
  {
    if x < 0 then -x else x
  }

  // ---------------------------------------------------------------------
  // Projection (deviceChanged_)

  /** The LED calls for a resolved index: none unless it is positive, else one blue Set. */
  function Projection(ledIdx: int, state: bool): (calls: seq<LedCall>)
    ensures |calls| <= 1
    ensures |calls| == 1 <==> ledIdx > 0
    ensures ledIdx > 0 ==> calls[0] == LedCall.Set(LED_BLUE, ledIdx - 1, state)
  {
    if ledIdx <= 0 then [] else [LedCall.Set(LED_BLUE, ledIdx - 1, state)]
  }

  /** The index deviceChanged_ uses: the given one if positive, else the resolved one. */
  function ChangedIndex(dev: Device, ledIdx: int, ofs: int): (idx: int)
    ensures ledIdx > 0 ==> idx == ledIdx
    ensures ledIdx <= 0 ==> idx == LedIndexForDevice(dev, ofs)
  {
    if ledIdx <= 0 then LedIndexForDevice(dev, ofs) else ledIdx
  }

  /** A projected call lights or darkens the blue LED of bay `idx - 1` and leaves the red LEDs and
      every other bay alone. */
  lemma ProjectionBays(ledIdx: int, state: bool, colour: nat, bay: nat)
    requires colour < 2
    ensures BayState(Projection(ledIdx, state), colour, bay)
         == if ledIdx > 0 && bay == ledIdx - 1 && colour == 0 then Some(state) else None
  {
    ColourSelectors();
    var calls := Projection(ledIdx, state);
    if ledIdx > 0 {
      assert calls[..0] == [];
    }
  }

  // ---------------------------------------------------------------------
  // Enumeration (enumDevices_)

  /** An entry of the ordered device map: an excluded slot, or a device to light. */
  datatype Slot = Marker | Present(device: Device)

  type DeviceMap = map<nat, Slot>

  /** The map key of an enumerated device, 0 when it is dropped. */
  function KeyOf(dev: Option<Device>, ofs: int): nat {
    if dev.None? then 0 else Abs(LedIndexForDevice(dev.value, ofs))
  }

  /** What the map stores for a device with a nonzero index. */
  function SlotFor(dev: Device, ofs: int): Slot {
    if LedIndexForDevice(dev, ofs) < 0 then Marker else Present(dev)
  }

  /** The first enumeration loop: every device that resolves is inserted under its key,
      and `std::map::insert` keeps the entry already there. */
  function Collected(devices: seq<Option<Device>>, ofs: int): (m: DeviceMap)
    ensures forall k | k in m :: k > 0
    decreases |devices|
  {
    if devices == [] then map[]
    else
      var m := Collected(devices[..|devices| - 1], ofs);
      var dev := devices[|devices| - 1];
      var k := KeyOf(dev, ofs);
      if k == 0 || k in m then m else m[k := SlotFor(dev.value, ofs)]
  }

  /** The keys of the devices, in enumeration order (0 for one that is dropped). */
  function KeysOf(devices: seq<Option<Device>>, ofs: int): (r: seq<nat>)
    ensures |r| == |devices|
    ensures forall i :: 0 <= i < |devices| ==> r[i] == KeyOf(devices[i], ofs)
    decreases |devices|
  {
    if devices == [] then [] else KeysOf(devices[..|devices| - 1], ofs) + [KeyOf(devices[|devices| - 1], ofs)]
  }

  /** A key is present exactly when some device resolves to it. */
  lemma {:induction false} CollectedKeys(devices: seq<Option<Device>>, ofs: int, k: nat)
    ensures k in Collected(devices, ofs) <==> k != 0 && k in KeysOf(devices, ofs)
    decreases |devices|
  {
    if devices != [] {
      var init := devices[..|devices| - 1];
      CollectedKeys(init, ofs, k);
    }
  }

  /** The entry under a key belongs to the first device that resolves to it. */
  lemma {:induction false} CollectedFirstWins(devices: seq<Option<Device>>, ofs: int, i: nat)
    requires i < |devices| && KeyOf(devices[i], ofs) != 0
    requires forall j :: 0 <= j < i ==> KeyOf(devices[j], ofs) != KeyOf(devices[i], ofs)
    ensures KeyOf(devices[i], ofs) in Collected(devices, ofs)
    ensures Collected(devices, ofs)[KeyOf(devices[i], ofs)] == SlotFor(devices[i].value, ofs)
    decreases |devices|
  {
    var k := KeyOf(devices[i], ofs);
    var init := devices[..|devices| - 1];
    if i < |init| {
      assert init[i] == devices[i];
      forall j | 0 <= j < i ensures KeyOf(init[j], ofs) != k {
        assert init[j] == devices[j];
      }
      CollectedFirstWins(init, ofs, i);
    } else {
      forall j | 0 <= j < |init| ensures KeysOf(init, ofs)[j] != k {
        assert init[j] == devices[j];
      }
      CollectedKeys(init, ofs, k);
    }
  }

  /** Descending from any element of `s` reaches a least one. */
  lemma {:induction false} HasMinBelow(s: set<nat>, y: nat)
    requires y in s
    ensures exists m :: m in s && forall x | x in s :: m <= x
    decreases y
  {
    if exists x :: x in s && x < y {
      var x :| x in s && x < y;
      HasMinBelow(s, x);
    } else {
      assert forall x | x in s :: y <= x;
    }
  }

  lemma HasMin(s: set<nat>)
    requires s != {}
    ensures exists m :: m in s && forall x | x in s :: m <= x
  {
    var y :| y in s;
    HasMinBelow(s, y);
  }

  /** The least element of a non-empty set. */
  function SetMin(s: set<nat>): (m: nat)
    requires s != {}
    ensures m in s && forall x | x in s :: m <= x
  {
    HasMin(s);
    var m :| m in s && forall x | x in s :: m <= x;
    m
  }

  /** The elements of a set in ascending order: the `std::map` iteration order. */
  function SortedKeys(s: set<nat>): (r: seq<nat>)
    ensures forall x :: x in r <==> x in s
    ensures forall i, j :: 0 <= i < j < |r| ==> r[i] < r[j]
    decreases |s|
  {
    if s == {} then []
    else
      var m := SetMin(s);
      [m] + SortedKeys(s - {m})
  }

  /** The map has a device (not a marker) under `k`. */
  predicate IsPresent(m: DeviceMap, k: nat) {
    k in m && m[k].Present?
  }

  /** The LED calls of the second enumeration loop over the keys `ks`, in order: at most one
      per key, and each lights a blue bay LED. */
  function PresentCalls(ks: seq<nat>, m: DeviceMap): (calls: seq<LedCall>)
    ensures |calls| <= |ks|
    ensures forall i :: 0 <= i < |calls| ==> calls[i].Set? && calls[i].ledType == LED_BLUE && calls[i].state
    decreases |ks|
  {
    if ks == [] then []
    else
      var k := ks[|ks| - 1];
      PresentCalls(ks[..|ks| - 1], m) + (if IsPresent(m, k) then Projection(k, true) else [])
  }

  /** The position of the first device among the keys `ks`, |ks| if there is none. */
  function FirstPresent(ks: seq<nat>, m: DeviceMap): (f: nat)
    ensures f <= |ks|
    ensures forall j :: 0 <= j < f ==> !IsPresent(m, ks[j])
    ensures f < |ks| ==> IsPresent(m, ks[f])
    decreases |ks|
  {
    if ks == [] || IsPresent(m, ks[0]) then 0 else 1 + FirstPresent(ks[1..], m)
  }

  /** The offset the second loop leaves: the key just before the first device, or the
      previous offset when the first key already holds a device or the map is empty. */
  function EnumOffset(ks: seq<nat>, m: DeviceMap, ofs: int): (r: int)
    ensures r != ofs ==> r in ks && !IsPresent(m, r)
    ensures ks != [] && IsPresent(m, ks[0]) ==> r == ofs
    ensures ks != [] && (forall k :: k in ks ==> !IsPresent(m, k)) ==> r == ks[|ks| - 1]
  {
    var f := FirstPresent(ks, m);
    if f == 0 then ofs else ks[f - 1]
  }

  /** The marker keys below every device key. */
  ghost function LeadingMarkers(m: DeviceMap): set<nat> {
    set k: nat | k in m && m[k] == Marker && (forall p: nat | IsPresent(m, p) :: k < p)
  }

  lemma SortedPosition(ks: seq<nat>, i: nat, j: nat)
    requires forall x, y :: 0 <= x < y < |ks| ==> ks[x] < ks[y]
    requires i < |ks| && j < |ks| && ks[i] < ks[j]
    ensures i < j
  {
  }

  /** Every leading marker comes before the first device in key order. */
  lemma LeadingMarkerPosition(m: DeviceMap, k: nat)
    requires k in LeadingMarkers(m)
    ensures exists j :: 0 <= j < FirstPresent(SortedKeys(m.Keys), m) && SortedKeys(m.Keys)[j] == k
  {
    var ks := SortedKeys(m.Keys);
    var f := FirstPresent(ks, m);
    var j :| 0 <= j < |ks| && ks[j] == k;
    if f < |ks| {
      assert IsPresent(m, ks[f]);
      assert k < ks[f];
      SortedPosition(ks, j, f);
    }
    assert 0 <= j < f && ks[j] == k;
  }

  /** The key just before the first device is a leading marker. */
  lemma LastKeyBeforeFirstPresent(m: DeviceMap)
    requires FirstPresent(SortedKeys(m.Keys), m) > 0
    ensures SortedKeys(m.Keys)[FirstPresent(SortedKeys(m.Keys), m) - 1] in LeadingMarkers(m)
  {
    var ks := SortedKeys(m.Keys);
    var f := FirstPresent(ks, m);
    var k := ks[f - 1];
    assert k in m && m[k] == Marker;
    forall p: nat | IsPresent(m, p) ensures k < p {
      var j :| 0 <= j < |ks| && ks[j] == p;
      assert f - 1 < j;
    }
  }

  /** In set terms the enumeration offset is the largest marker key below every device key;
      it is the previous offset when there is no such marker. */
  lemma EnumOffsetIsLastLeadingMarker(m: DeviceMap, ofs: int)
    ensures LeadingMarkers(m) == {} ==> EnumOffset(SortedKeys(m.Keys), m, ofs) == ofs
    ensures LeadingMarkers(m) != {} ==>
      EnumOffset(SortedKeys(m.Keys), m, ofs) in LeadingMarkers(m) &&
      forall k | k in LeadingMarkers(m) :: k <= EnumOffset(SortedKeys(m.Keys), m, ofs)
  {
    var ks := SortedKeys(m.Keys);
    var f := FirstPresent(ks, m);
    if f == 0 {
      forall k: nat | k in m ensures k !in LeadingMarkers(m) {
        var j :| 0 <= j < |ks| && ks[j] == k;
        if j == 0 {
          assert IsPresent(m, k);
        } else {
          assert ks[0] < k && IsPresent(m, ks[0]);
        }
      }
    } else {
      LastKeyBeforeFirstPresent(m);
      forall k | k in LeadingMarkers(m) ensures k <= ks[f - 1] {
        LeadingMarkerPosition(m, k);
        var j :| 0 <= j < f && ks[j] == k;
        assert j <= f - 1;
      }
    }
  }

  /** The second loop lights exactly the bays of the devices in the map, using each key as
      it was computed at insertion, and touches nothing else. */
  lemma {:induction false} PresentCallsBays(ks: seq<nat>, m: DeviceMap, colour: nat, bay: nat)
    requires colour < 2
    ensures BayState(PresentCalls(ks, m), colour, bay)
         == if colour == 0 && bay + 1 in ks && IsPresent(m, bay + 1) then Some(true) else None
    decreases |ks|
  {
    if ks != [] {
      var init := ks[..|ks| - 1];
      var k := ks[|ks| - 1];
      PresentCallsBays(init, m, colour, bay);
      var tail := if IsPresent(m, k) then Projection(k, true) else [];
      BayStateAppend(PresentCalls(init, m), tail, colour, bay);
      ProjectionBays(k, true, colour, bay);
      assert bay + 1 in ks <==> bay + 1 in init || bay + 1 == k;
    }
  }

  /** Each call of the second loop is a blue Set lighting the bay of a device under one of the keys. */
  lemma {:induction false} PresentCallsLight(ks: seq<nat>, m: DeviceMap, i: nat)
    requires i < |PresentCalls(ks, m)|
    ensures PresentCalls(ks, m)[i].Set?
    ensures PresentCalls(ks, m)[i] == LedCall.Set(LED_BLUE, PresentCalls(ks, m)[i].ledIdx, true)
    ensures PresentCalls(ks, m)[i].ledIdx + 1 in ks && IsPresent(m, PresentCalls(ks, m)[i].ledIdx + 1)
    decreases |ks|
  {
    var init := ks[..|ks| - 1];
    var a := PresentCalls(init, m);
    if i < |a| {
      PresentCallsLight(init, m, i);
      assert a[i].ledIdx + 1 in init;
    }
  }

  /** The second loop lights the bays in strictly ascending order when the keys ascend. */
  lemma {:induction false} PresentCallsAscending(ks: seq<nat>, m: DeviceMap, i: nat, j: nat)
    requires forall x, y :: 0 <= x < y < |ks| ==> ks[x] < ks[y]
    requires i < j < |PresentCalls(ks, m)|
    ensures PresentCalls(ks, m)[i].Set? && PresentCalls(ks, m)[j].Set?
    ensures PresentCalls(ks, m)[i].ledIdx < PresentCalls(ks, m)[j].ledIdx
    decreases |ks|
  {
    PresentCallsLight(ks, m, i);
    PresentCallsLight(ks, m, j);
    var init := ks[..|ks| - 1];
    var k := ks[|ks| - 1];
    var a := PresentCalls(init, m);
    if j < |a| {
      PresentCallsAscending(init, m, i, j);
    } else {
      PresentCallsLight(init, m, i);
      var x :| 0 <= x < |init| && init[x] == a[i].ledIdx + 1;
      assert ks[x] == init[x];
    }
  }

  /** A scsi_host with the given sysnum whose parent is on the given bus. */
  function HostOn(sysnum: string, bus: string): Device {
    Device(Some(ScsiHost(Some(sysnum), Some(HostParent(Some(bus))))))
  }

  lemma AtoiOneDigit(d: string)
    requires |d| == 1 && IsDigit(d[0])
    ensures Atoi(d) == d[0] as int - '0' as int
  {
    AtoiOfDigits(d, []);
    assert d + [] == d;
    assert d[..0] == [];
  }

  lemma SortedOneTwoThree()
    ensures SortedKeys({1, 2, 3}) == [1, 2, 3]
  {
    assert SetMin({1, 2, 3}) == 1;
    assert {1, 2, 3} - {1} == {2, 3};
    assert SetMin({2, 3}) == 2;
    assert {2, 3} - {2} == {3};
    assert SetMin({3}) == 3;
    assert {3} - {3} == {};
  }

  /** The example's devices resolve to -1 and -2 (USB hosts) and 3 (the PCI disk). */
  lemma ExampleIndices()
    ensures LedIndexForDevice(HostOn("0", "usb"), 0) == -1
    ensures LedIndexForDevice(HostOn("1", "usb"), 0) == -2
    ensures LedIndexForDevice(HostOn("2", "pci"), 0) == 3
  {
    UsbHostIndex("0");
    UsbHostIndex("1");
    AtoiOneDigit("2");
  }

  /** A host on the USB bus resolves to the negated raw index. */
  lemma UsbHostIndex(sysnum: string)
    requires |sysnum| == 1 && IsDigit(sysnum[0])
    ensures LedIndexForDevice(HostOn(sysnum, "usb"), 0) == -(sysnum[0] as int - '0' as int + 1)
  {
    var dev := HostOn(sysnum, "usb");
    assert Resolvable(dev);
    assert !OnPci(dev) by {
      assert "usb"[0] != "pci"[0];
    }
    AtoiOneDigit(sysnum);
    assert RawIndex(dev, 0) == sysnum[0] as int - '0' as int + 1;
  }

  /** The example's map: two non-PCI hosts resolving to -1 and -2 become markers under keys 1
      and 2, and a PCI host resolving to 3 is stored under key 3. */
  lemma ExampleCollected(d0: Device, d1: Device, d2: Device)
    requires LedIndexForDevice(d0, 0) == -1 && LedIndexForDevice(d1, 0) == -2 && LedIndexForDevice(d2, 0) == 3
    ensures Collected([Some(d0), Some(d1), Some(d2)], 0) == map[1 := Marker, 2 := Marker, 3 := Present(d2)]
  {
    CollectedSnoc([], Some(d0), 0);
    assert [] + [Some(d0)] == [Some(d0)];
    CollectedSnoc([Some(d0)], Some(d1), 0);
    assert [Some(d0)] + [Some(d1)] == [Some(d0), Some(d1)];
    CollectedSnoc([Some(d0), Some(d1)], Some(d2), 0);
    assert [Some(d0), Some(d1)] + [Some(d2)] == [Some(d0), Some(d1), Some(d2)];
  }

  /** One more device extends the map as the loop body does. */
  lemma CollectedSnoc(init: seq<Option<Device>>, dev: Option<Device>, ofs: int)
    ensures Collected(init + [dev], ofs) ==
      var m := Collected(init, ofs);
      var k := KeyOf(dev, ofs);
      if k == 0 || k in m then m else m[k := SlotFor(dev.value, ofs)]
  {
    assert (init + [dev])[..|init|] == init;
  }

  /** The example's walk: the offset stops at the second marker and only the disk is lit. */
  lemma ExampleWalk(m: DeviceMap, disk: Device)
    requires m == map[1 := Marker, 2 := Marker, 3 := Present(disk)]
    ensures EnumOffset([1, 2, 3], m, 0) == 2
    ensures PresentCalls([1, 2, 3], m) == [LedCall.Set(LED_BLUE, 2, true)]
  {
    var ks: seq<nat> := [1, 2, 3];
    assert ks[1..][1..] == [3];
    assert FirstPresent(ks, m) == 2;
    assert ks[..3] == ks && ks[..3][..2] == [1, 2] && [1, 2][..1] == [1] && [1][..0] == [];
  }

  /** Two USB decoy hosts (sysnums 0 and 1) ahead of a PCI disk (sysnum 2), which resolve as
      `ExampleIndices` shows: the offset becomes 2 and enumeration lights LED 2 for the disk,
      under its insertion-time key 3. */
  lemma EnumerationExample(d0: Device, d1: Device, d2: Device)
    requires LedIndexForDevice(d0, 0) == -1 && LedIndexForDevice(d1, 0) == -2 && LedIndexForDevice(d2, 0) == 3
    ensures var m := Collected([Some(d0), Some(d1), Some(d2)], 0);
      && SortedKeys(m.Keys) == [1, 2, 3]
      && EnumOffset(SortedKeys(m.Keys), m, 0) == 2
      && PresentCalls(SortedKeys(m.Keys), m) == [LedCall.Set(LED_BLUE, 2, true)]
  {
    ExampleCollected(d0, d1, d2);
    var m := Collected([Some(d0), Some(d1), Some(d2)], 0);
    assert m.Keys == {1, 2, 3};
    SortedOneTwoThree();
    ExampleWalk(m, d2);
  }

  /** After that enumeration, an add of the same disk resolves against the offset 2 to LED 0. */
  lemma HotplugExample()
    ensures EventCalls(Notification(Some("add"), HostOn("2", "pci")), 2) == [LedCall.Set(LED_BLUE, 0, true)]
  {
    AtoiOneDigit("2");
    assert LedIndexForDevice(HostOn("2", "pci"), 2) == 1;
    assert EqualsIgnoreCase("add", "add");
  }

  // ---------------------------------------------------------------------
  // Event dispatch (Main)

  /** A udev monitor notification. */
  datatype Notification = Notification(action: Option<string>, device: Device)

  function ToLowerAscii(c: char): (l: char)
    ensures 'A' <= c <= 'Z' ==> l as int == c as int + 32
    ensures !('A' <= c <= 'Z') ==> l == c
  {
    if 'A' <= c <= 'Z' then (c as int + 32) as char else c
  }

  /** A string with every ASCII capital lowered. */
  function LowerAscii(s: string): string {
    seq(|s|, i requires 0 <= i < |s| => ToLowerAscii(s[i]))
  }

  /** `strcasecmp(a, b) == 0` in the C locale: the two strings agree once lowered. */
  predicate EqualsIgnoreCase(a: string, b: string): (r: bool)
    ensures r <==> LowerAscii(a) == LowerAscii(b)
    ensures a == b ==> r
  {
    assert |LowerAscii(a)| == |a| && forall i :: 0 <= i < |a| ==> LowerAscii(a)[i] == ToLowerAscii(a[i]);
    assert |LowerAscii(b)| == |b| && forall i :: 0 <= i < |b| ==> LowerAscii(b)[i] == ToLowerAscii(b[i]);
    |a| == |b| && forall i :: 0 <= i < |a| ==> ToLowerAscii(a[i]) == ToLowerAscii(b[i])
  }

  /** The device state an action means: "add" is present, "remove" absent, anything else
      (or no action) is ignored. */
  function ActionState(action: Option<string>): (r: Option<bool>)
    ensures r == Some(true) <==> action.Some? && EqualsIgnoreCase(action.value, "add")
    ensures r == Some(false) <==> action.Some? && EqualsIgnoreCase(action.value, "remove")
  {
    if action.None? then None
    else if EqualsIgnoreCase(action.value, "add") then Some(true)
    else if EqualsIgnoreCase(action.value, "remove") then Some(false)
    else None
  }

  /** The comparison ignores case in both directions and nothing else. */
  lemma ActionExamples()
    ensures ActionState(Some("ADD")) == Some(true)
    ensures ActionState(Some("Remove")) == Some(false)
    ensures ActionState(Some("change")) == None
    ensures ActionState(Some("adds")) == None
    ensures ActionState(None) == None
  {
    assert !EqualsIgnoreCase("change", "add");
    assert !EqualsIgnoreCase("change", "remove") by {
      assert ToLowerAscii("change"[0]) != ToLowerAscii("remove"[0]);
    }
  }

  /** The LED calls one notification produces: at most one, a blue bay LED, and none for an
      action other than add or remove. */
  function EventCalls(n: Notification, ofs: int): (calls: seq<LedCall>)
    ensures |calls| <= 1
    ensures ActionState(n.action).None? ==> calls == []
    ensures forall i :: 0 <= i < |calls| ==> calls[i].Set? && calls[i].ledType == LED_BLUE
  {
    match ActionState(n.action)
    case None => []
    case Some(state) => Projection(LedIndexForDevice(n.device, ofs), state)
  }

  /** The LED calls of a run of notifications, in arrival order: at most one per notification,
      and only blue bay LEDs. */
  function HotplugCalls(events: seq<Notification>, ofs: int): (calls: seq<LedCall>)
    ensures |calls| <= |events|
    ensures forall i :: 0 <= i < |calls| ==> calls[i].Set? && calls[i].ledType == LED_BLUE
    decreases |events|
  {
    if events == [] then []
    else HotplugCalls(events[..|events| - 1], ofs) + EventCalls(events[|events| - 1], ofs)
  }

  /** Notifications are handled one at a time in order, never batched or reordered. */
  lemma {:induction false} HotplugCallsAppend(a: seq<Notification>, b: seq<Notification>, ofs: int)
    ensures HotplugCalls(a + b, ofs) == HotplugCalls(a, ofs) + HotplugCalls(b, ofs)
    decreases |b|
  {
    if b == [] {
      assert a + b == a;
    } else {
      assert (a + b)[..|a + b| - 1] == a + b[..|b| - 1];
      HotplugCallsAppend(a, b[..|b| - 1], ofs);
    }
  }

  /** An add or remove of a device that resolves to a positive index sets that bay's blue LED to
      present or absent; any other notification changes no LED. */
  lemma EventBays(n: Notification, ofs: int, colour: nat, bay: nat)
    requires colour < 2
    ensures var idx := LedIndexForDevice(n.device, ofs);
      BayState(EventCalls(n, ofs), colour, bay)
        == if ActionState(n.action).Some? && idx > 0 && bay == idx - 1 && colour == 0
           then ActionState(n.action) else None
  {
    if ActionState(n.action).Some? {
      ProjectionBays(LedIndexForDevice(n.device, ofs), ActionState(n.action).value, colour, bay);
    }
  }

  /** What a source-level initialisation failure reports. */
  datatype InitFault = NoFault | UdevNewFails | MonitorNewFails | FilterFails | EnableReceivingFails

  /** The exception each failure raises (the failing libudev call's name); none without a failure. */
  function FaultName(f: InitFault): (r: Option<string>)
    ensures r.None? <==> f == NoFault
    ensures r.Some? ==> r.value != []
  {
    match f
    case NoFault => None
    case UdevNewFails => Some("udev_new")
    case MonitorNewFails => Some("udev_monitor_new_from_netlink")
    case FilterFails => Some("udev_monitor_filter_add_match_subsystem_devtype")
    case EnableReceivingFails => Some("udev_monitor_enable_receiving")
  }

  // ---------------------------------------------------------------------
  // The monitor

  class Monitor {
    /** `dev_context_` and `dev_monitor_` are non-null. */
    var hasContext: bool
    var hasMonitor: bool
    /** `led_index_ofs_`: offset of the LED index to bay zero. */
    var ledIndexOfs: int
    /** `leds_`: the LED driver, possibly empty. */
    var leds: LedRecorder?

    constructor ()
      ensures !hasContext && !hasMonitor && ledIndexOfs == 0 && leds == null
    {
      hasContext := false;
      hasMonitor := false;
      ledIndexOfs := 0;
      leds := null;
    }

    /** `deviceChanged_`: resolve the index if none is given; light or darken its blue LED. */
    method DeviceChanged(device: Device, state: bool, ledIdx: int := 0)
      modifies leds
      ensures leds != null ==> leds.calls == old(leds.calls) + Projection(ChangedIndex(device, ledIdx, ledIndexOfs), state)
    {
      var idx := ledIdx;
      if idx <= 0 {
        idx := LedIndexForDevice(device, ledIndexOfs);
      }
      if idx <= 0 {
        return;
      }
      if leds != null {
        leds.Set(LED_BLUE, idx - 1, state);
      }
    }

    /** `deviceAdded_` */
    method DeviceAdded(device: Device)
      modifies leds
      ensures leds != null ==> leds.calls == old(leds.calls) + Projection(LedIndexForDevice(device, ledIndexOfs), true)
    {
      DeviceChanged(device, true);
    }

    /** `deviceRemove_` */
    method DeviceRemove(device: Device)
      modifies leds
      ensures leds != null ==> leds.calls == old(leds.calls) + Projection(LedIndexForDevice(device, ledIndexOfs), false)
    {
      DeviceChanged(device, false);
    }

    /** The first loop of `enumDevices_`: insert every attached device (`None` where a syspath
        yields no device) into the ordered map under its key, keeping the first entry per key. */
    method CollectAttached(devices: seq<Option<Device>>) returns (scsiDevices: DeviceMap)
      ensures scsiDevices == Collected(devices, ledIndexOfs)
    {
      scsiDevices := map[];
      for i := 0 to |devices|
        invariant scsiDevices == Collected(devices[..i], ledIndexOfs)
      {
        assert devices[..i + 1][..i] == devices[..i];
        var device := devices[i];
        if device.None? {
          continue;
        }
        var ledIdx := LedIndexForDevice(device.value, ledIndexOfs);
        if ledIdx == 0 {
          continue;
        }
        var slot := if ledIdx < 0 then Marker else Present(device.value);
        if Abs(ledIdx) !in scsiDevices {
          scsiDevices := scsiDevices[Abs(ledIdx) := slot];
        }
      }
      assert devices[..|devices|] == devices;
    }

    /** The second loop of `enumDevices_`: walk the map in key order; a marker met before the
        first device moves the offset to its key, and every device is lit under its key. */
    method LightCollected(keys: seq<nat>, scsiDevices: DeviceMap)
      requires forall k | k in keys :: k in scsiDevices && k > 0
      modifies this, leds
      ensures leds == old(leds) && hasContext == old(hasContext) && hasMonitor == old(hasMonitor)
      ensures ledIndexOfs == EnumOffset(keys, scsiDevices, old(ledIndexOfs))
      ensures leds != null ==> leds.calls == old(leds.calls) + PresentCalls(keys, scsiDevices)
    {
      ghost var f := FirstPresent(keys, scsiDevices);
      var foundValid := false;
      for i := 0 to |keys|
        invariant leds == old(leds) && hasContext == old(hasContext) && hasMonitor == old(hasMonitor)
        invariant foundValid <==> f < i
        invariant ledIndexOfs == if i == 0 || f == 0 then old(ledIndexOfs) else keys[(if i < f then i else f) - 1]
        invariant leds != null ==> leds.calls == old(leds.calls) + PresentCalls(keys[..i], scsiDevices)
      {
        assert keys[..i + 1][..i] == keys[..i];
        var key := keys[i];
        var slot := scsiDevices[key];
        if slot.Marker? {
          if !foundValid {
            ledIndexOfs := key;
          }
          continue;
        }
        foundValid := true;
        DeviceChanged(slot.device, true, key);
      }
      assert keys[..|keys|] == keys;
    }

    /** `enumDevices_`: collect the attached devices into the ordered map, then walk it in
        ascending key order. */
    method EnumDevices(devices: seq<Option<Device>>)
      requires hasContext
      modifies this, leds
      ensures leds == old(leds) && hasContext == old(hasContext) && hasMonitor == old(hasMonitor)
      ensures var m := Collected(devices, old(ledIndexOfs));
        var ks := SortedKeys(m.Keys);
        && ledIndexOfs == EnumOffset(ks, m, old(ledIndexOfs))
        && (leds != null ==> leds.calls == old(leds.calls) + PresentCalls(ks, m))
    {
      var scsiDevices := CollectAttached(devices);
      LightCollected(SortedKeys(scsiDevices.Keys), scsiDevices);
    }

    /** `Init`: keep the driver, open the udev context and monitor, enumerate, then enable
        receiving; the first failing step raises its exception. */
    method Init(ledsIn: LedRecorder?, fault: InitFault, devices: seq<Option<Device>>) returns (err: Option<string>)
      modifies this, ledsIn
      ensures leds == ledsIn
      ensures err.None? <==> fault == NoFault
      ensures err == FaultName(fault)
      ensures fault == UdevNewFails ==> hasMonitor == old(hasMonitor)
      ensures fault != UdevNewFails ==> (hasMonitor <==> fault != MonitorNewFails)
      ensures var m := Collected(devices, old(ledIndexOfs));
        var ks := SortedKeys(m.Keys);
        var enumerated := fault == NoFault || fault == EnableReceivingFails;
        && ledIndexOfs == (if enumerated then EnumOffset(ks, m, old(ledIndexOfs)) else old(ledIndexOfs))
        && (ledsIn != null ==> ledsIn.calls == old(ledsIn.calls) + if enumerated then PresentCalls(ks, m) else [])
    {
      leds := ledsIn;
      hasContext := fault != UdevNewFails;
      if !hasContext {
        return FaultName(UdevNewFails);
      }
      hasMonitor := fault != MonitorNewFails;
      if !hasMonitor {
        return FaultName(MonitorNewFails);
      }
      if fault == FilterFails {
        return FaultName(FilterFails);
      }
      EnumDevices(devices);
      if fault == EnableReceivingFails {
        return FaultName(EnableReceivingFails);
      }
      return None;
    }

    /** The source's `Main`: handle each notification in turn until the wait ends; a signal returns
        normally, any other failure raises "select". */
    method EventLoop(events: seq<Notification>, end: WaitEnd) returns (err: Option<string>)
      requires hasMonitor
      modifies leds
      ensures err == if end == Interrupted then None else Some("select")
      ensures leds != null ==> leds.calls == old(leds.calls) + HotplugCalls(events, ledIndexOfs)
    {
      for i := 0 to |events|
        invariant leds != null ==> leds.calls == old(leds.calls) + HotplugCalls(events[..i], ledIndexOfs)
      {
        assert events[..i + 1][..i] == events[..i];
        var n := events[i];
        if n.action.None? {
        } else if EqualsIgnoreCase(n.action.value, "add") {
          DeviceAdded(n.device);
        } else if EqualsIgnoreCase(n.action.value, "remove") {
          DeviceRemove(n.device);
        }
      }
      assert events[..|events|] == events;
      if end == Interrupted {
        return None;
      }
      return Some("select");
    }
  }
}
