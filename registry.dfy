/**
 * The device registry of the audio manager: the Device entity, the object
 * path a device gets from the creation counter (`create_device`), and the
 * list operations the manager applies to the global `devices` list
 * (`find_device`, the path lookup of `device_path_cmp`, `g_slist_remove`,
 * and the default-headset re-scan of `am_remove_device`).
 */
module Registry {
  import opened Wrappers
  import opened Ints
  import opened Sdp
  import opened Classifier

  /** A Bluetooth device address (`bdaddr_t`): six bytes, compared bytewise by `bacmp`. */
  type Address = a: seq<bv8> | |a| == 6 witness [0, 0, 0, 0, 0, 0]

  /** Object path of the audio manager; device paths live below it. */
  const AUDIO_MANAGER_PATH := "/org/bluez/audio"
  const DEVICE_PREFIX := AUDIO_MANAGER_PATH + "/device"

  /** The decimal digit character of `d`. */
  function Digit(d: nat): char
    requires d < 10
  {
    (48 + d) as char
  }

  /** The decimal rendering `%d` gives a non-negative number, without leading zeros. */
  function Decimal(n: nat): (s: string)
    ensures |s| >= 1
    ensures |s| == 1 <==> n < 10
  {
    if n < 10 then [Digit(n)] else Decimal(n / 10) + [Digit(n % 10)]
  }

  /** Distinct numbers render differently. */
  lemma {:induction false} DecimalInjective(m: nat, n: nat)
    requires Decimal(m) == Decimal(n)
    ensures m == n
  {
    if m >= 10 && n >= 10 {
      var sm, sn := Decimal(m), Decimal(n);
      assert sm[|sm| - 1] == Digit(m % 10) && sn[|sn| - 1] == Digit(n % 10);
      assert sm[..|sm| - 1] == Decimal(m / 10) && sn[..|sn| - 1] == Decimal(n / 10);
      DecimalInjective(m / 10, n / 10);
    } else if m < 10 && n < 10 {
      assert Decimal(m)[0] == Digit(m) && Decimal(n)[0] == Digit(n);
    }
  }

  /** The path `create_device` gives the device with counter value `id`: "/org/bluez/audio/device<id>". */
  function DevicePath(id: nat): string {
    DEVICE_PREFIX + Decimal(id)
  }

  /** Paths from different counter values are different. */
  lemma DevicePathsDistinct(i: nat, j: nat)
    requires i != j
    ensures DevicePath(i) != DevicePath(j)
  {
    if DevicePath(i) == DevicePath(j) {
      assert DevicePath(i)[|DEVICE_PREFIX|..] == Decimal(i);
      assert DevicePath(j)[|DEVICE_PREFIX|..] == Decimal(j);
      DecimalInjective(i, j);
    }
  }

  /**
   * An audio device (`audio_device_t`): its address and path never change;
   * its profile slots are updated in place.
   */
  class Device {
    const bda: Address
    const id: nat
    const path: string
    var profiles: Profiles

    /** `create_device` without the counter: a zeroed device with address `bda` and path number `id`. */
    constructor (bda: Address, id: nat)
      ensures this.bda == bda && this.id == id && path == DevicePath(id)
      ensures profiles == NO_PROFILES
    {
      this.bda := bda;
      this.id := id;
      this.path := DevicePath(id);
      this.profiles := NO_PROFILES;
    }

    /**
     * `handle_record`: a record of the headset class fills an empty headset slot
     * with what `headset_init` returns (present when `headsetInit`) and
     * leaves a present one present (`headset_update`); records of every other
     * class, including handsfree, change nothing.
     */
    method HandleRecord(rec: ServiceRecord, headsetInit: bool)
      modifies this`profiles
      ensures profiles == if GetServiceUuid(rec) == HEADSET_SVCLASS_ID && !old(profiles.headset)
                          then old(profiles).(headset := headsetInit)
                          else old(profiles)
    {
      var uuid16 := GetServiceUuid(rec);
      if uuid16 == HEADSET_SVCLASS_ID {
        if !profiles.headset {
          profiles := profiles.(headset := headsetInit);
        }
      }
    }

    /**
     * `g_slist_foreach(records, handle_record, device)`: afterwards the headset
     * slot is present exactly when it was already, or when some record is of
     * the headset class and `headset_init` succeeds; no other slot changes.
     */
    method ApplyRecords(records: seq<ServiceRecord>, headsetInit: bool)
      modifies this`profiles
      ensures profiles == WithRecords(old(profiles), records, headsetInit)
    {
      var i := 0;
      while i < |records|
        invariant 0 <= i <= |records|
        invariant profiles == WithRecords(old(profiles), records[..i], headsetInit)
      {
        assert records[..i + 1] == records[..i] + [records[i]];
        HandleRecord(records[i], headsetInit);
        i := i + 1;
      }
      assert records[..i] == records;
    }
  }

  /** Some record in `records` is of the headset class. */
  predicate HasHeadsetRecord(records: seq<ServiceRecord>) {
    exists k :: 0 <= k < |records| && GetServiceUuid(records[k]) == HEADSET_SVCLASS_ID
  }

  /** The profile slots once every record has been handled: only the headset slot can appear. */
  function WithRecords(p: Profiles, records: seq<ServiceRecord>, headsetInit: bool): Profiles {
    p.(headset := p.headset || (headsetInit && HasHeadsetRecord(records)))
  }

  /**
   * `find_device`: the first device of the list whose address equals `bda`, or
   * null when there is none (`FindDeviceFirst` states it).
   */
  function FindDevice(devices: seq<Device>, bda: Address): (r: Device?)
    ensures r != null ==> r in devices && r.bda == bda
  {
    if devices == [] then null
    else if devices[0].bda == bda then devices[0]
    else FindDevice(devices[1..], bda)
  }

  /**
   * `find_device` finds nothing exactly when no device has the address, and
   * otherwise the first device that has it.
   */
  lemma {:induction false} FindDeviceFirst(devices: seq<Device>, bda: Address)
    ensures FindDevice(devices, bda) == null <==> forall k :: 0 <= k < |devices| ==> devices[k].bda != bda
    ensures FindDevice(devices, bda) != null ==>
              exists k :: 0 <= k < |devices| && devices[k] == FindDevice(devices, bda) && devices[k].bda == bda
                          && forall j :: 0 <= j < k ==> devices[j].bda != bda
  {
    if devices != [] && devices[0].bda != bda {
      FindDeviceFirst(devices[1..], bda);
      assert forall k :: 1 <= k < |devices| ==> devices[k] == devices[1..][k - 1];
      if FindDevice(devices, bda) != null {
        var k :| 0 <= k < |devices[1..]| && devices[1..][k] == FindDevice(devices, bda) && devices[1..][k].bda == bda
                 && forall j :: 0 <= j < k ==> devices[1..][j].bda != bda;
        assert devices[k + 1] == FindDevice(devices, bda);
      }
    }
  }

  /** The first device with address `bda` is what `find_device` finds. */
  lemma {:induction false} FindFirstAt(devices: seq<Device>, bda: Address, i: nat)
    requires i < |devices| && devices[i].bda == bda
    requires forall k :: 0 <= k < i ==> devices[k].bda != bda
    ensures FindDevice(devices, bda) == devices[i]
  {
    if i > 0 {
      FindFirstAt(devices[1..], bda, i - 1);
    }
  }

  /** A device appended to a list that holds no device with its address is what `find_device` then finds. */
  lemma FindAfterAppend(devices: seq<Device>, d: Device)
    requires FindDevice(devices, d.bda) == null
    ensures FindDevice(devices + [d], d.bda) == d
  {
    FindDeviceFirst(devices, d.bda);
    FindFirstAt(devices + [d], d.bda, |devices|);
  }

  /** Appending a device does not change what `find_device` finds for an address already present. */
  lemma FindUnaffectedByAppend(devices: seq<Device>, d: Device, bda: Address)
    requires FindDevice(devices, bda) != null
    ensures FindDevice(devices + [d], bda) == FindDevice(devices, bda)
  {
    FindDeviceFirst(devices, bda);
    var k :| 0 <= k < |devices| && devices[k] == FindDevice(devices, bda) && devices[k].bda == bda
             && forall j :: 0 <= j < k ==> devices[j].bda != bda;
    FindFirstAt(devices + [d], bda, k);
  }

  /** Once the only device with its address is removed, `find_device` finds nothing for that address. */
  lemma FindAfterRemove(devices: seq<Device>, d: Device)
    requires Distinct(devices) && d in devices
    requires forall k :: 0 <= k < |devices| && devices[k] != d ==> devices[k].bda != d.bda
    ensures FindDevice(RemoveFirst(devices, d), d.bda) == null
  {
    RemoveFirstSplit(devices, d);
    var i := IndexOf(devices, d);
    var r := RemoveFirst(devices, d);
    forall k | 0 <= k < |r| ensures r[k].bda != d.bda {
      var j := if k < i then k else k + 1;
      assert r[k] == devices[j];
      assert devices[j] != d;
    }
    FindDeviceFirst(r, d.bda);
  }

  /**
   * `g_slist_find_custom(devices, path, device_path_cmp)`: the first device
   * of the list whose object path equals `path`, or null.
   */
  function FindByPath(devices: seq<Device>, path: string): (r: Device?)
    ensures r == null <==> forall k :: 0 <= k < |devices| ==> devices[k].path != path
    ensures r != null ==> r in devices && r.path == path
  {
    if devices == [] then null
    else if StrCmp(devices[0].path, path) == 0 then devices[0]
    else FindByPath(devices[1..], path)
  }

  /** No object occurs twice in `s`. */
  predicate Distinct<T(==)>(s: seq<T>) {
    forall i, j :: 0 <= i < j < |s| ==> s[i] != s[j]
  }

  /** The position of the first occurrence of `x` in `s`. */
  function IndexOf(s: seq<Device>, x: Device): (k: nat)
    requires x in s
    ensures k < |s| && s[k] == x && x !in s[..k]
  {
    if s[0] == x then 0 else 1 + IndexOf(s[1..], x)
  }

  /**
   * `g_slist_remove`: drop the first occurrence of `x` and keep everything
   * else in order; a list without `x` is returned unchanged
   * (`RemoveFirstSplit` states it).
   */
  function RemoveFirst(s: seq<Device>, x: Device): seq<Device> {
    if s == [] then []
    else if s[0] == x then s[1..]
    else [s[0]] + RemoveFirst(s[1..], x)
  }

  /** The result is the list without `x`'s first occurrence, and the list itself when `x` does not occur. */
  lemma {:induction false} RemoveFirstSplit(s: seq<Device>, x: Device)
    ensures x !in s ==> RemoveFirst(s, x) == s
    ensures x in s ==> RemoveFirst(s, x) == s[..IndexOf(s, x)] + s[IndexOf(s, x) + 1..]
  {
    if s != [] && s[0] != x {
      RemoveFirstSplit(s[1..], x);
      assert s == [s[0]] + s[1..];
      if x in s {
        assert [s[0]] + s[1..][..IndexOf(s[1..], x)] == s[..IndexOf(s, x)];
      }
    }
  }

  /** Removing an element that was just appended to a list without it gives the list back. */
  lemma RemoveFirstAppended(s: seq<Device>, x: Device)
    requires x !in s
    ensures RemoveFirst(s + [x], x) == s
  {
    RemoveFirstSplit(s + [x], x);
    assert forall i :: 0 <= i < |s| ==> (s + [x])[i] == s[i];
    assert IndexOf(s + [x], x) == |s|;
    assert (s + [x])[..|s|] == s;
  }

  /** The position in the original list of position `i` of the list without position `k`. */
  function Skip(i: nat, k: nat): nat {
    if i < k then i else i + 1
  }

  /** Removing an element of a duplicate-free list removes it entirely and keeps the list duplicate-free. */
  lemma RemoveFirstOfDistinct(s: seq<Device>, x: Device)
    requires Distinct(s) && x in s
    ensures x !in RemoveFirst(s, x) && Distinct(RemoveFirst(s, x))
    ensures |RemoveFirst(s, x)| == |s| - 1
    ensures forall y :: y in RemoveFirst(s, x) <==> y in s && y != x
  {
    RemoveFirstSplit(s, x);
    var k := IndexOf(s, x);
    var r := RemoveFirst(s, x);
    assert |r| == |s| - 1;
    assert forall i :: 0 <= i < |r| ==> r[i] == s[Skip(i, k)];
    forall i, j | 0 <= i < j < |r| ensures r[i] != r[j] {
      assert Skip(i, k) < Skip(j, k);
    }
    forall y ensures y in r <==> y in s && y != x {
      if y in r {
        var i :| 0 <= i < |r| && r[i] == y;
        assert s[Skip(i, k)] == y && Skip(i, k) != k;
      }
      if y in s && y != x {
        var i :| 0 <= i < |s| && s[i] == y;
        assert i != k;
        assert r[if i < k then i else i - 1] == y;
      }
    }
  }

  /**
   * The re-scan of `am_remove_device`: the loop has no `break`, so it settles
   * on the LAST device of the list that has a headset slot, or null
   * (`LastHeadsetMeaning` states it).
   */
  function LastHeadset(devices: seq<Device>): Device?
    reads devices
  {
    if devices == [] then null
    else if devices[|devices| - 1].profiles.headset then devices[|devices| - 1]
    else LastHeadset(devices[..|devices| - 1])
  }

  /**
   * The re-scan finds nothing exactly when no device has a headset, and
   * otherwise a device with a headset after which no device has one.
   */
  lemma {:induction false} LastHeadsetMeaning(devices: seq<Device>)
    ensures LastHeadset(devices) == null <==> forall k :: 0 <= k < |devices| ==> !devices[k].profiles.headset
    ensures LastHeadset(devices) != null ==>
              exists k :: 0 <= k < |devices| && devices[k] == LastHeadset(devices) && devices[k].profiles.headset
                          && forall j :: k < j < |devices| ==> !devices[j].profiles.headset
  {
    if devices != [] && !devices[|devices| - 1].profiles.headset {
      var init := devices[..|devices| - 1];
      LastHeadsetMeaning(init);
      assert forall j :: 0 <= j < |init| ==> init[j] == devices[j];
      if LastHeadset(devices) != null {
        var k :| 0 <= k < |init| && init[k] == LastHeadset(init) && init[k].profiles.headset
                 && forall j :: k < j < |init| ==> !init[j].profiles.headset;
        assert devices[k] == LastHeadset(devices);
      }
    }
  }

  /** The path announced for a default headset: its path, or "" when there is none. */
  function PathOrEmpty(d: Device?): string {
    if d == null then "" else d.path
  }

  /**
   * The default after `remove` drops `removed` from the list, as
   * `am_remove_device` re-derives it (`DefaultAfterRemovalMeaning` states
   * what it is).
   */
  function DefaultAfterRemoval(devices: seq<Device>, current: Device?, removed: Device): Device?
    reads RemoveFirst(devices, removed)
  {
    if current == removed then LastHeadset(RemoveFirst(devices, removed)) else current
  }

  /**
   * The default is unchanged unless it was the removed device, and then it
   * is a remaining device with a headset, or null; a registered default
   * stays registered.
   */
  lemma DefaultAfterRemovalMeaning(devices: seq<Device>, current: Device?, removed: Device)
    ensures current != removed ==> DefaultAfterRemoval(devices, current, removed) == current
    ensures current == removed && DefaultAfterRemoval(devices, current, removed) != null ==>
              DefaultAfterRemoval(devices, current, removed) in RemoveFirst(devices, removed)
              && DefaultAfterRemoval(devices, current, removed).profiles.headset
    ensures Distinct(devices) && removed in devices && (current != null ==> current in devices) ==>
              DefaultAfterRemoval(devices, current, removed) == null
              || DefaultAfterRemoval(devices, current, removed) in RemoveFirst(devices, removed)
  {
    var rest := RemoveFirst(devices, removed);
    LastHeadsetMeaning(rest);
    if Distinct(devices) && removed in devices {
      RemoveFirstOfDistinct(devices, removed);
    }
  }

  /**
   * The default after `am_create_headset` has removed `removed` because its
   * headset could not be initialised, as written: `default_hs` is left as it
   * was, even when it is the removed device.
   */
  function DefaultAfterInitFailureAsWritten(devices: seq<Device>, current: Device?, removed: Device): Device? {
    current
  }

  /**
   * The as-written removal leaves the default pointing at a device that is no
   * longer in the list whenever the removed device was the default; the
   * re-derivation of `DefaultAfterRemoval` never does.
   */
  lemma InitFailureLeavesDanglingDefault(devices: seq<Device>, d: Device)
    requires Distinct(devices) && d in devices
    ensures DefaultAfterInitFailureAsWritten(devices, d, d) == d
    ensures d !in RemoveFirst(devices, d)
    ensures DefaultAfterRemoval(devices, d, d) == null || DefaultAfterRemoval(devices, d, d) in RemoveFirst(devices, d)
  {
    RemoveFirstOfDistinct(devices, d);
    DefaultAfterRemovalMeaning(devices, d, d);
  }

  /**
   * The scenario of three devices D1 (no headset), D2 and D3 (headsets) with
   * D2 the default: removing D2 makes D3 the default.
   */
  lemma RemovingDefaultPicksRemainingHeadset(d1: Device, d2: Device, d3: Device)
    requires d1 != d2 && d2 != d3 && d1 != d3
    requires !d1.profiles.headset && d2.profiles.headset && d3.profiles.headset
    ensures DefaultAfterRemoval([d1, d2, d3], d2, d2) == d3
  {
    assert RemoveFirst([d1, d2, d3], d2) == [d1, d3];
    assert [d1, d3][|[d1, d3]| - 1] == d3;
  }

  /**
   * With two headset devices left, the re-scan settles on the later one in
   * list order, not the earlier one.
   */
  lemma RescanPrefersLastHeadset(d1: Device, d2: Device, d3: Device)
    requires d1 != d2 && d2 != d3 && d1 != d3
    requires d1.profiles.headset && d3.profiles.headset
    ensures DefaultAfterRemoval([d1, d2, d3], d2, d2) == d3
  {
    assert RemoveFirst([d1, d2, d3], d2) == [d1, d3];
    assert [d1, d3][|[d1, d3]| - 1] == d3;
  }

  /**
   * The reply of `am_list_devices`: the paths of the devices that support
   * every required interface, in list order (`MatchingPathsMeaning` states
   * which paths are listed).
   */
  function MatchingPaths(devices: seq<Device>, required: seq<string>): seq<string>
    reads devices
  {
    if devices == [] then []
    else
      var rest := MatchingPaths(devices[..|devices| - 1], required);
      var last := devices[|devices| - 1];
      if DeviceMatches(last.profiles, required) then rest + [last.path] else rest
  }

  /**
   * A path is listed exactly when some device of the list has it and
   * matches; no more paths than devices are listed.
   */
  lemma {:induction false} MatchingPathsMeaning(devices: seq<Device>, required: seq<string>)
    ensures |MatchingPaths(devices, required)| <= |devices|
    ensures forall p :: p in MatchingPaths(devices, required) ==>
              exists k :: 0 <= k < |devices| && devices[k].path == p && DeviceMatches(devices[k].profiles, required)
    ensures forall k :: 0 <= k < |devices| && DeviceMatches(devices[k].profiles, required) ==>
              devices[k].path in MatchingPaths(devices, required)
  {
    if devices != [] {
      var init := devices[..|devices| - 1];
      MatchingPathsMeaning(init, required);
      assert forall k :: 0 <= k < |init| ==> init[k] == devices[k];
    }
  }

  /**
   * The reply of `am_list_headsets`: the paths of the devices with a headset
   * slot, in list order (`HeadsetPathsMeaning` states which paths are listed).
   */
  function HeadsetPaths(devices: seq<Device>): seq<string>
    reads devices
  {
    if devices == [] then []
    else
      var rest := HeadsetPaths(devices[..|devices| - 1]);
      var last := devices[|devices| - 1];
      if last.profiles.headset then rest + [last.path] else rest
  }

  /**
   * A path is listed exactly when some device of the list has it and has a
   * headset; no more paths than devices are listed.
   */
  lemma {:induction false} HeadsetPathsMeaning(devices: seq<Device>)
    ensures |HeadsetPaths(devices)| <= |devices|
    ensures forall p :: p in HeadsetPaths(devices) ==>
              exists k :: 0 <= k < |devices| && devices[k].path == p && devices[k].profiles.headset
    ensures forall k :: 0 <= k < |devices| && devices[k].profiles.headset ==> devices[k].path in HeadsetPaths(devices)
  {
    if devices != [] {
      var init := devices[..|devices| - 1];
      HeadsetPathsMeaning(init);
      assert forall k :: 0 <= k < |init| ==> init[k] == devices[k];
    }
  }
}
