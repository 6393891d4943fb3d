/**
 * The record classifier and the interface predicates of the audio manager:
 * which D-Bus interface a service record provides (`record_iface_cmp`),
 * which profile slots a device holds, and whether a device supports a
 * requested interface (`device_supports_interface`, `device_matches`).
 */
module Classifier {
  import opened Wrappers
  import opened Ints
  import opened Sdp

  // D-Bus interface names of the audio profiles.
  const AUDIO_HEADSET_INTERFACE := "org.bluez.audio.Headset"
  const AUDIO_GATEWAY_INTERFACE := "org.bluez.audio.Gateway"
  const AUDIO_SINK_INTERFACE := "org.bluez.audio.Sink"
  const AUDIO_SOURCE_INTERFACE := "org.bluez.audio.Source"
  const AUDIO_CONTROL_INTERFACE := "org.bluez.audio.Control"
  const AUDIO_TARGET_INTERFACE := "org.bluez.audio.Target"

  /** The six profile interfaces, as a closed enumeration of the names above. */
  datatype Interface = Headset | Gateway | Sink | Source | Control | Target

  function InterfaceName(i: Interface): string {
    match i
    case Headset => AUDIO_HEADSET_INTERFACE
    case Gateway => AUDIO_GATEWAY_INTERFACE
    case Sink => AUDIO_SINK_INTERFACE
    case Source => AUDIO_SOURCE_INTERFACE
    case Control => AUDIO_CONTROL_INTERFACE
    case Target => AUDIO_TARGET_INTERFACE
  }

  /** The six names are pairwise distinct: they differ right after the common prefix "org.bluez.audio.". */
  lemma InterfaceNamesDistinct()
    ensures forall i: Interface, j: Interface :: i != j ==> InterfaceName(i) != InterfaceName(j)
  {
  }

  /**
   * The fixed table from a service class to the interface it provides:
   * headset and handsfree give Headset, their audio gateways give Gateway,
   * sink, source, remote and remote target give Sink, Source, Control and
   * Target; every other class (and 0, "unclassified") gives none.
   */
  function ProvidedInterface(cls: u16): Option<Interface> {
    if cls == HEADSET_SVCLASS_ID || cls == HANDSFREE_SVCLASS_ID then Some(Headset)
    else if cls == HEADSET_AGW_SVCLASS_ID || cls == HANDSFREE_AGW_SVCLASS_ID then Some(Gateway)
    else if cls == AUDIO_SINK_SVCLASS_ID then Some(Sink)
    else if cls == AUDIO_SOURCE_SVCLASS_ID then Some(Source)
    else if cls == AV_REMOTE_SVCLASS_ID then Some(Control)
    else if cls == AV_REMOTE_TARGET_SVCLASS_ID then Some(Target)
    else None
  }

  /**
   * `strcmp` as a three-way comparison: negative, zero or positive as `a`
   * sorts before, equal to or after `b` character by character. Only its sign
   * is modelled (C returns the difference of the first differing bytes).
   */
  function StrCmp(a: string, b: string): (r: int)
    ensures -1 <= r <= 1
    ensures r == 0 <==> a == b
  {
    if a == [] && b == [] then 0
    else if a == [] then -1
    else if b == [] then 1
    else if a[0] < b[0] then -1
    else if a[0] > b[0] then 1
    else StrCmp(a[1..], b[1..])
  }

  /**
   * `record_iface_cmp`: compares the requested interface name with the one
   * the record's class provides; -1 for a class that provides none
   * (including an unclassified record), which therefore matches no name.
   */
  function RecordIfaceCmp(rec: ServiceRecord, iface: string): (r: int)
    ensures r == 0 <==> ProvidedInterface(GetServiceUuid(rec)).Some?
                         && InterfaceName(ProvidedInterface(GetServiceUuid(rec)).value) == iface
    ensures ProvidedInterface(GetServiceUuid(rec)).None? ==> r == -1
  {
    var uuid16 := GetServiceUuid(rec);
    if uuid16 == HEADSET_SVCLASS_ID || uuid16 == HANDSFREE_SVCLASS_ID then
      StrCmp(iface, AUDIO_HEADSET_INTERFACE)
    else if uuid16 == HEADSET_AGW_SVCLASS_ID || uuid16 == HANDSFREE_AGW_SVCLASS_ID then
      StrCmp(iface, AUDIO_GATEWAY_INTERFACE)
    else if uuid16 == AUDIO_SINK_SVCLASS_ID then
      StrCmp(iface, AUDIO_SINK_INTERFACE)
    else if uuid16 == AUDIO_SOURCE_SVCLASS_ID then
      StrCmp(iface, AUDIO_SOURCE_INTERFACE)
    else if uuid16 == AV_REMOTE_SVCLASS_ID then
      StrCmp(iface, AUDIO_CONTROL_INTERFACE)
    else if uuid16 == AV_REMOTE_TARGET_SVCLASS_ID then
      StrCmp(iface, AUDIO_TARGET_INTERFACE)
    else
      -1
  }

  /**
   * A record matches an interface name when its class provides the interface
   * of that name: the test `g_slist_find_custom` makes, which
   * `MatchesIffCmpZero` ties to `record_iface_cmp` returning 0.
   */
  predicate RecordMatches(rec: ServiceRecord, iface: string) {
    var provided := ProvidedInterface(GetServiceUuid(rec));
    provided.Some? && InterfaceName(provided.value) == iface
  }

  /** `record_iface_cmp` returns 0 exactly for the records that match the name. */
  lemma MatchesIffCmpZero(rec: ServiceRecord, iface: string)
    ensures RecordIfaceCmp(rec, iface) == 0 <==> RecordMatches(rec, iface)
  {
  }

  /**
   * Classifier round trip: a record whose first class is one of the eight
   * known classes, in any UUID width, matches the name of that class's
   * interface and the name of no other interface.
   */
  lemma ClassifierRoundTrip(rec: ServiceRecord, cls: u16, i: Interface)
    requires cls != 0 && ProvidedInterface(cls).Some?
    requires rec.classes.Classes? && Alias(rec.classes.first) == Some(cls)
    ensures RecordIfaceCmp(rec, InterfaceName(i)) == 0 <==> ProvidedInterface(cls) == Some(i)
  {
    ClassifiedIffFirstClassIsAlias(rec, cls);
    InterfaceNamesDistinct();
  }

  /** No name at all is matched by a record whose class provides no interface. */
  lemma UnknownClassMatchesNothing(rec: ServiceRecord, iface: string)
    requires ProvidedInterface(GetServiceUuid(rec)).None?
    ensures RecordIfaceCmp(rec, iface) == -1
  {
  }

  /**
   * `g_slist_find_custom(records, iface, record_iface_cmp)`: the index of the
   * first record matching `iface`, if any (`FindRecordNoneIffNoMatch` and `FindRecordFirstMatch` state it).
   */
  function FindRecord(records: seq<ServiceRecord>, iface: string): (r: Option<nat>)
    ensures r.Some? ==> r.value < |records|
  {
    if records == [] then None
    else if RecordMatches(records[0], iface) then Some(0)
    else match FindRecord(records[1..], iface)
      case None => None
      case Some(k) => Some(k + 1)
  }

  /** The search finds nothing exactly when no record matches. */
  lemma {:induction false} FindRecordNoneIffNoMatch(records: seq<ServiceRecord>, iface: string)
    ensures FindRecord(records, iface).None? <==> forall i :: 0 <= i < |records| ==> !RecordMatches(records[i], iface)
  {
    if records != [] {
      var rest := records[1..];
      FindRecordNoneIffNoMatch(rest, iface);
      assert forall i :: 1 <= i < |records| ==> records[i] == rest[i - 1];
    }
  }

  /**
   * When the search finds a record, it is the first record that matches
   * (`FindRecordNoneIffNoMatch` states when it finds one).
   */
  lemma {:induction false} FindRecordFirstMatch(records: seq<ServiceRecord>, iface: string)
    ensures FindRecord(records, iface).Some? ==>
              var k := FindRecord(records, iface).value;
              RecordMatches(records[k], iface) && forall i :: 0 <= i < k ==> !RecordMatches(records[i], iface)
  {
    if records != [] && !RecordMatches(records[0], iface) {
      var rest := records[1..];
      FindRecordFirstMatch(rest, iface);
      match FindRecord(rest, iface)
      case None =>
      case Some(k) =>
        assert FindRecord(records, iface) == Some(k + 1);
        assert records[k + 1] == rest[k];
        forall i | 1 <= i < k + 1
          ensures !RecordMatches(records[i], iface)
        {
          assert records[i] == rest[i - 1];
        }
    }
  }

  /** Some record provides the interface named `iface` (`g_slist_find_custom` finds one). */
  predicate Found(records: seq<ServiceRecord>, iface: string) {
    FindRecord(records, iface).Some?
  }

  /** Every required interface name is matched by some record. */
  predicate AllRequiredMatched(records: seq<ServiceRecord>, required: seq<string>) {
    forall k :: 0 <= k < |required| ==> Found(records, required[k])
  }

  /**
   * The required-interface loop of `finish_sdp`: the position of the first
   * required interface that no record matches, or None when all match.
   */
  method FindMissingInterface(records: seq<ServiceRecord>, required: seq<string>) returns (missing: Option<nat>)
    ensures missing.None? <==> AllRequiredMatched(records, required)
    ensures missing.Some? ==> missing.value < |required|
                              && !Found(records, required[missing.value])
                              && forall k :: 0 <= k < missing.value ==> Found(records, required[k])
  {
    var i := 0;
    while i < |required|
      invariant 0 <= i <= |required|
      invariant forall k :: 0 <= k < i ==> Found(records, required[k])
    {
      if !Found(records, required[i]) {
        return Some(i);
      }
      i := i + 1;
    }
    return None;
  }

  /**
   * The profile slots of a device; each is absent or holds a handle owned by
   * that profile's implementation, and only presence is modelled.
   */
  datatype Profiles = Profiles(headset: bool, gateway: bool, sink: bool, source: bool,
                               control: bool, target: bool)

  const NO_PROFILES := Profiles(false, false, false, false, false, false)

  /** Whether the slot behind interface `i` is present. */
  function HasSlot(p: Profiles, i: Interface): bool {
    match i
    case Headset => p.headset
    case Gateway => p.gateway
    case Sink => p.sink
    case Source => p.source
    case Control => p.control
    case Target => p.target
  }

  /**
   * `device_supports_interface` as written: the Source interface is answered
   * from the GATEWAY slot (the corrected version is `SupportsInterface`).
   * Unknown interface names are never supported.
   */
  function SupportsInterfaceAsWritten(p: Profiles, iface: string): bool {
    if iface == AUDIO_HEADSET_INTERFACE then p.headset
    else if iface == AUDIO_GATEWAY_INTERFACE then p.gateway
    else if iface == AUDIO_SOURCE_INTERFACE then p.gateway
    else if iface == AUDIO_SINK_INTERFACE then p.sink
    else if iface == AUDIO_CONTROL_INTERFACE then p.control
    else if iface == AUDIO_TARGET_INTERFACE then p.target
    else false
  }

  /**
   * `device_supports_interface` with the Source interface answered from the
   * source slot (`SupportsInterfaceMeaning` states what it decides).
   */
  function SupportsInterface(p: Profiles, iface: string): bool {
    if iface == AUDIO_HEADSET_INTERFACE then p.headset
    else if iface == AUDIO_GATEWAY_INTERFACE then p.gateway
    else if iface == AUDIO_SOURCE_INTERFACE then p.source
    else if iface == AUDIO_SINK_INTERFACE then p.sink
    else if iface == AUDIO_CONTROL_INTERFACE then p.control
    else if iface == AUDIO_TARGET_INTERFACE then p.target
    else false
  }

  /**
   * A name is supported exactly when it names one of the six interfaces and
   * that interface's slot is present.
   */
  lemma SupportsInterfaceMeaning(p: Profiles, iface: string)
    ensures forall i: Interface :: InterfaceName(i) == iface ==> (SupportsInterface(p, iface) <==> HasSlot(p, i))
    ensures (forall i: Interface :: InterfaceName(i) != iface) ==> !SupportsInterface(p, iface)
  {
    InterfaceNamesDistinct();
    assert InterfaceName(Headset) == AUDIO_HEADSET_INTERFACE && InterfaceName(Target) == AUDIO_TARGET_INTERFACE;
    assert InterfaceName(Gateway) == AUDIO_GATEWAY_INTERFACE && InterfaceName(Source) == AUDIO_SOURCE_INTERFACE;
    assert InterfaceName(Sink) == AUDIO_SINK_INTERFACE && InterfaceName(Control) == AUDIO_CONTROL_INTERFACE;
  }

  /**
   * The as-written check rejects the Source interface on a device that has a
   * source slot and no gateway slot, and accepts it on a device that has only
   * a gateway slot.
   */
  lemma SourceInterfaceAnsweredByGateway()
    ensures !SupportsInterfaceAsWritten(NO_PROFILES.(source := true), AUDIO_SOURCE_INTERFACE)
    ensures SupportsInterface(NO_PROFILES.(source := true), AUDIO_SOURCE_INTERFACE)
    ensures SupportsInterfaceAsWritten(NO_PROFILES.(gateway := true), AUDIO_SOURCE_INTERFACE)
    ensures !SupportsInterface(NO_PROFILES.(gateway := true), AUDIO_SOURCE_INTERFACE)
  {
    InterfaceNamesDistinct();
    assert InterfaceName(Source) == AUDIO_SOURCE_INTERFACE;
  }

  /** As written, the Source interface is answered by the gateway slot on every device, whatever its source slot holds. */
  lemma SourceInterfaceIsGatewaySlot(p: Profiles)
    ensures SupportsInterfaceAsWritten(p, AUDIO_SOURCE_INTERFACE) == p.gateway
    ensures SupportsInterface(p, AUDIO_SOURCE_INTERFACE) == p.source
  {
    InterfaceNamesDistinct();
    assert InterfaceName(Source) == AUDIO_SOURCE_INTERFACE;
  }

  /** On every other name the two versions agree. */
  lemma AsWrittenAgreesElsewhere(p: Profiles, iface: string)
    requires iface != AUDIO_SOURCE_INTERFACE
    ensures SupportsInterfaceAsWritten(p, iface) == SupportsInterface(p, iface)
  {
  }

  /**
   * `device_matches`: the device passes the as-written
   * `device_supports_interface` for every name of `ifaces` (vacuously for an
   * empty list); `DeviceMatchesAll` states it.
   */
  function DeviceMatches(p: Profiles, ifaces: seq<string>): bool {
    if ifaces == [] then true
    else SupportsInterfaceAsWritten(p, ifaces[0]) && DeviceMatches(p, ifaces[1..])
  }

  /** A device matches a list of names exactly when it passes the check for each of them. */
  lemma {:induction false} DeviceMatchesAll(p: Profiles, ifaces: seq<string>)
    ensures DeviceMatches(p, ifaces) <==> forall k :: 0 <= k < |ifaces| ==> SupportsInterfaceAsWritten(p, ifaces[k])
  {
    if ifaces != [] {
      DeviceMatchesAll(p, ifaces[1..]);
      assert forall k :: 1 <= k < |ifaces| ==> ifaces[k] == ifaces[1..][k - 1];
    }
  }

  /**
   * `device_matches` over the corrected `SupportsInterface`, which answers
   * the Source interface from the source slot.
   */
  function DeviceMatchesCorrected(p: Profiles, ifaces: seq<string>): (r: bool)
    ensures r <==> forall k :: 0 <= k < |ifaces| ==> SupportsInterface(p, ifaces[k])
  {
    if ifaces == [] then true
    else
      assert forall k :: 1 <= k < |ifaces| ==> ifaces[k] == ifaces[1..][k - 1];
      SupportsInterface(p, ifaces[0]) && DeviceMatchesCorrected(p, ifaces[1..])
  }

  /**
   * The as-written and the corrected `device_matches` differ only on lists
   * that name the Source interface.
   */
  lemma {:induction false} MatchesAgreeWithoutSource(p: Profiles, ifaces: seq<string>)
    requires AUDIO_SOURCE_INTERFACE !in ifaces
    ensures DeviceMatches(p, ifaces) == DeviceMatchesCorrected(p, ifaces)
  {
    if ifaces != [] {
      AsWrittenAgreesElsewhere(p, ifaces[0]);
      MatchesAgreeWithoutSource(p, ifaces[1..]);
    }
  }

  /**
   * On a device with neither a gateway nor a source slot, the as-written and
   * the corrected `device_matches` agree on every list.
   */
  lemma {:induction false} AgreeWithoutGatewayOrSource(p: Profiles, ifaces: seq<string>)
    requires !p.gateway && !p.source
    ensures DeviceMatches(p, ifaces) == DeviceMatchesCorrected(p, ifaces)
  {
    if ifaces != [] {
      SourceInterfaceIsGatewaySlot(p);
      AgreeWithoutGatewayOrSource(p, ifaces[1..]);
    }
  }

  /**
   * A device with only a gateway slot matches `["org.bluez.audio.Source"]` as
   * written and does not match it under the corrected check.
   */
  lemma GatewayOnlyMatchesSourceAsWritten()
    ensures DeviceMatches(NO_PROFILES.(gateway := true), [AUDIO_SOURCE_INTERFACE])
    ensures !DeviceMatchesCorrected(NO_PROFILES.(gateway := true), [AUDIO_SOURCE_INTERFACE])
  {
    SourceInterfaceAnsweredByGateway();
    assert [AUDIO_SOURCE_INTERFACE][1..] == [];
  }

  /**
   * The loop of `device_matches`: stops at the first name the device does
   * not support.
   */
  method CheckMatches(p: Profiles, ifaces: seq<string>) returns (ok: bool)
    ensures ok == DeviceMatches(p, ifaces)
  {
    DeviceMatchesAll(p, ifaces);
    var i := 0;
    while i < |ifaces|
      invariant 0 <= i <= |ifaces|
      invariant forall k :: 0 <= k < i ==> SupportsInterfaceAsWritten(p, ifaces[k])
    {
      var supported := SupportsInterfaceAsWritten(p, ifaces[i]);
      if !supported {
        return false;
      }
      i := i + 1;
    }
    return true;
  }

  /** A device with no profile slots matches only the empty requirement list. */
  lemma NoProfilesMatchOnlyNothing(ifaces: seq<string>)
    ensures DeviceMatches(NO_PROFILES, ifaces) <==> ifaces == []
  {
  }

  /** Gaining profile slots never loses a match. */
  lemma {:induction false} MatchesMonotone(p: Profiles, q: Profiles, ifaces: seq<string>)
    requires forall i: Interface :: HasSlot(p, i) ==> HasSlot(q, i)
    ensures DeviceMatches(p, ifaces) ==> DeviceMatches(q, ifaces)
  {
    if ifaces != [] {
      assert HasSlot(p, Headset) ==> HasSlot(q, Headset);
      assert HasSlot(p, Gateway) ==> HasSlot(q, Gateway);
      assert HasSlot(p, Sink) ==> HasSlot(q, Sink);
      assert HasSlot(p, Source) ==> HasSlot(q, Source);
      assert HasSlot(p, Control) ==> HasSlot(q, Control);
      assert HasSlot(p, Target) ==> HasSlot(q, Target);
      MatchesMonotone(p, q, ifaces[1..]);
    }
  }
}
