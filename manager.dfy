/**
 * The audio manager: the registry of audio devices (the global `devices`
 * list and the `device_id` counter), the default headset (`default_hs`),
 * the service discovery that runs for a new device (`resolve_services` and
 * its reply handlers), and the handlers of the manager's bus methods.
 *
 * Every handler takes the outcomes of the collaborators it may call as an
 * `Env`; the bus itself is the append-only `log` of what the manager sends.
 */
module Manager {
  import opened Wrappers
  import opened Ints
  import opened Sdp
  import opened Classifier
  import opened Registry
  import opened HandleQueue
  import opened Session

  // Linux errno values the manager reports.
  const EIO := 5
  const EHOSTDOWN := 112

  // Details of the `org.bluez.audio.Error.Failed` replies.
  const SEND_HANDLES_FAILED := "Sending GetRemoteServiceHandles failed"
  const HANDLES_ARGS_FAILED := "Unable to get args from reply"
  const RECORD_ARGS_FAILED := "Unable to get args from GetRecordReply"
  const CREATE_DEVICE_FAILED := "Unable to create new audio device"
  const HEADSET_INIT_FAILED := "Unable to init Headset interface"

  // Details of the `org.bluez.audio.Error.DoesNotExist` replies.
  const NO_SUCH_DEVICE := "Does not exist"
  const NO_SUCH_HEADSET := "The headset does not exist"
  const NO_DEFAULT_HEADSET := "There is no default headset"

  /**
   * What the collaborators answer during one event: whether a request to
   * the adapter could be sent (`dbus_connection_send_with_reply`), whether
   * the object path and the device interface could be registered
   * (`dbus_connection_create_object_path`, `dbus_connection_register_interface`),
   * and whether `headset_init` returns a headset.
   */
  datatype Env = Env(sendOk: bool, pathOk: bool, ifaceOk: bool, headsetInit: bool)

  /**
   * The adapter's answer to GetRemoteServiceHandles: an error (the link to
   * the peer could not be set up, or another failure), a reply whose
   * arguments do not parse, or the handles.
   */
  datatype HandlesReply =
    | HandlesError(connFailed: bool, detail: string)
    | HandlesBadArgs
    | Handles(found: seq<u32>)

  /**
   * The adapter's answer to GetRemoteServiceRecord: an error, a reply whose
   * arguments do not parse, or the record's bytes as `sdp_extract_pdu`
   * parses them (None when parsing fails).
   */
  datatype RecordReply =
    | RecordError(connFailed: bool, detail: string)
    | RecordBadArgs
    | RecordBytes(parsed: Option<ServiceRecord>)

  /** The error forwarded for an adapter error: ConnectFailed(EHOSTDOWN) when the connection attempt failed. */
  function PeerError(connFailed: bool, detail: string): ErrorKind {
    if connFailed then ConnectFailed(EHOSTDOWN) else Failed(detail)
  }

  /** The immediate reply of a bus method; Deferred when a discovery answers later. */
  datatype Reply =
    | Deferred
    | PathReply(path: string)
    | PathsReply(paths: seq<string>)
    | EmptyReply
    | ErrorReply(err: ErrorKind)

  class AudioManager {
    var devices: seq<Device>
    var defaultHs: Device?
    /** The static `device_id` counter of `create_device`. */
    var deviceId: nat
    var log: seq<Event>
    /** Every device `create_device` has made, in order: the one with number k is at index k. */
    ghost var made: seq<Device>

    ghost predicate Allocated(d: Device)
      reads this
    {
      d.id < |made| && made[d.id] == d
    }

    /**
     * The registry holds each device once, and only devices that
     * `create_device` made, each with the path of its own number.
     */
    ghost predicate RegistryValid()
      reads this
    {
      |made| == deviceId &&
      (forall k :: 0 <= k < |made| ==> made[k].id == k && made[k].path == DevicePath(k)) &&
      (forall d :: d in devices ==> Allocated(d)) &&
      Distinct(devices)
    }

    /** The default headset, when there is one, is a registered device. */
    ghost predicate Valid()
      reads this, devices
    {
      RegistryValid() && (defaultHs != null ==> defaultHs in devices)
      && forall d :: d in devices ==> !d.profiles.gateway && !d.profiles.source
    }

    /**
     * No device the manager holds has a gateway or a source slot, so the
     * as-written and the corrected `device_matches` give every registered
     * device the same answer.
     */
    lemma MatchingAgreesOnRegistry(ifaces: seq<string>)
      requires Valid()
      ensures forall d :: d in devices ==> DeviceMatches(d.profiles, ifaces) == DeviceMatchesCorrected(d.profiles, ifaces)
    {
      forall d | d in devices
        ensures DeviceMatches(d.profiles, ifaces) == DeviceMatchesCorrected(d.profiles, ifaces)
      {
        AgreeWithoutGatewayOrSource(d.profiles, ifaces);
      }
    }

    /**
     * A discovery may continue against this manager: its device was made
     * here, a device a CreateDevice request discovers is not registered
     * before the discovery publishes it, and, like every device, it has
     * neither a gateway nor a source slot.
     */
    ghost predicate SessionOk(s: SdpSession)
      reads this, s.device
    {
      Allocated(s.device) && (s.msg.Some? ==> s.device !in devices)
      && !s.device.profiles.gateway && !s.device.profiles.source
    }

    /** A running discovery waits for `q`, and nothing else has changed. */
    ghost predicate Awaiting(s: SdpSession, q: Query, logBefore: seq<Event>, devicesBefore: seq<Device>,
                             profilesBefore: Profiles)
      reads this, s, s.device
    {
      s.outcome.Running? && s.query == q && log == logBefore && devices == devicesBefore
      && s.device.profiles == profilesBefore
    }

    /**
     * The effect of `finish_sdp(s, success)` on a state whose log, registry
     * and device slots were `logBefore`, `devicesBefore` and `profilesBefore`:
     * FinishRemoteServiceTransaction is always sent first; a failed
     * discovery changes nothing else (its device, unless already registered,
     * is simply dropped); a discovery without a request applies its records;
     * with a request, no records or an unmatched required interface answer
     * NotSupported, and otherwise the device is published (when both
     * registrations succeed), the records are applied, and DeviceCreated and
     * the path are sent.
     */
    ghost predicate FinishedAs(s: SdpSession, success: bool, logBefore: seq<Event>,
                               devicesBefore: seq<Device>, profilesBefore: Profiles, env: Env)
      reads this, s, s.device
    {
      var d := s.device;
      var start := logBefore + [TransactionFinished(d.bda)];
      s.finishes == 1 && s.query == NoQuery &&
      if !success then
        s.outcome == Finished(false) && devices == devicesBefore && d.profiles == profilesBefore
        && log == start
      else if s.msg.None? then
        s.outcome == Finished(true) && devices == devicesBefore
        && d.profiles == WithRecords(profilesBefore, s.records, env.headsetInit) && log == start
      else if s.records == [] || !AllRequiredMatched(s.records, s.msg.value.required) then
        s.outcome == Finished(false) && devices == devicesBefore && d.profiles == profilesBefore
        && log == start + [ErrorReturned(NotSupported)]
      else
        s.outcome == Finished(true)
        && devices == (if env.pathOk && env.ifaceOk then devicesBefore + [d] else devicesBefore)
        && d.profiles == WithRecords(profilesBefore, s.records, env.headsetInit)
        && log == start + [DeviceCreated(d.path), MethodReturned(d.path)]
    }

    /** The manager's state before any device exists. */
    constructor ()
      ensures Valid()
      ensures devices == [] && defaultHs == null && deviceId == 0 && log == []
    {
      devices := [];
      defaultHs := null;
      deviceId := 0;
      log := [];
      made := [];
    }

    /**
     * `create_device`: a new device with address `bda` and the path of the
     * current counter value, which then advances; the device is not
     * registered.
     */
    method CreateDevice(bda: Address) returns (d: Device)
      requires Valid()
      modifies this`deviceId, this`made
      ensures Valid() && fresh(d) && Allocated(d) && d !in devices
      ensures d.bda == bda && d.id == old(deviceId) && d.path == DevicePath(old(deviceId))
      ensures d.profiles == NO_PROFILES
      ensures deviceId == old(deviceId) + 1 && made == old(made) + [d]
    {
      d := new Device(bda, deviceId);
      deviceId := deviceId + 1;
      made := made + [d];
    }

    /**
     * `add_device`: registers the device's object path and interface and
     * then appends it to the registry; when either registration fails the
     * registry is unchanged.
     */
    method AddDevice(d: Device, pathOk: bool, ifaceOk: bool) returns (ok: bool)
      requires Valid() && Allocated(d) && d !in devices
      requires !d.profiles.gateway && !d.profiles.source
      modifies this`devices
      ensures Valid()
      ensures ok == (pathOk && ifaceOk)
      ensures devices == if ok then old(devices) + [d] else old(devices)
    {
      if !pathOk {
        return false;
      }
      if !ifaceOk {
        return false;
      }
      devices := devices + [d];
      return true;
    }

    /**
     * `remove_device`: takes exactly that device out of the registry and
     * keeps the others in order (its headset is freed and its path
     * unregistered by collaborators).
     */
    method RemoveDevice(d: Device)
      requires RegistryValid() && d in devices
      modifies this`devices
      ensures RegistryValid()
      ensures devices == RemoveFirst(old(devices), d) && d !in devices
      ensures |devices| == |old(devices)| - 1
    {
      RemoveFirstOfDistinct(devices, d);
      devices := RemoveFirst(devices, d);
    }

    /**
     * The re-scan of `am_remove_device`: walks the whole registry and keeps
     * the last device with a headset slot.
     */
    method RescanDefault()
      requires RegistryValid()
      modifies this`defaultHs
      ensures defaultHs == LastHeadset(devices)
      ensures defaultHs != null ==> defaultHs in devices && defaultHs.profiles.headset
    {
      var found: Device? := null;
      var i := 0;
      while i < |devices|
        invariant 0 <= i <= |devices|
        invariant found == LastHeadset(devices[..i])
      {
        assert devices[..i + 1][..i] == devices[..i];
        if devices[i].profiles.headset {
          found := devices[i];
        }
        i := i + 1;
      }
      assert devices[..i] == devices;
      LastHeadsetMeaning(devices);
      defaultHs := found;
    }

    /**
     * `remove_device` followed by the default re-derivation of
     * `am_remove_device`: when the removed device was the default, the
     * default becomes the last remaining device with a headset (or none) and
     * DefaultHeadsetChanged announces its path, or "".
     */
    method RemoveAndRederive(d: Device)
      requires Valid() && d in devices
      modifies this`devices, this`defaultHs, this`log
      ensures Valid()
      ensures devices == RemoveFirst(old(devices), d) && d !in devices
      ensures defaultHs == DefaultAfterRemoval(old(devices), old(defaultHs), d)
      ensures log == old(log) + (if old(defaultHs) == d then [DefaultHeadsetChanged(PathOrEmpty(defaultHs))] else [])
    {
      var wasDefault := defaultHs == d;
      ghost var before := devices;
      ghost var current := defaultHs;
      RemoveFirstOfDistinct(before, d);
      RemoveDevice(d);
      if wasDefault {
        RescanDefault();
        assert defaultHs == DefaultAfterRemoval(before, current, d);
        log := log + [DefaultHeadsetChanged(PathOrEmpty(defaultHs))];
      } else {
        assert defaultHs == DefaultAfterRemoval(before, current, d);
      }
    }

    /**
     * `finish_sdp`: the single place a discovery ends. It sends
     * FinishRemoteServiceTransaction first, checks the request's required
     * interfaces, publishes the device only when every one is matched,
     * applies the records, answers the request, and releases the
     * discovery's resources once.
     */
    method FinishSdp(s: SdpSession, success: bool, env: Env)
      requires Valid() && SessionOk(s) && s.Ready()
      modifies this`devices, this`log, s, s.device
      ensures Valid() && s.Valid()
      ensures FinishedAs(s, success, old(log), old(devices), old(s.device.profiles), env)
      ensures s.handles == old(s.handles) && s.records == old(s.records) && s.state == old(s.state)
      ensures s.finishes == old(s.finishes) + 1
    {
      log := log + [TransactionFinished(s.device.bda)];
      var ok := success;
      if success {
        if s.msg.Some? {
          ok := AnswerRequest(s, env);
        } else {
          s.device.ApplyRecords(s.records, env.headsetInit);
        }
      }
      s.outcome := Finished(ok);
      s.finishes := s.finishes + 1;
    }

    /**
     * The successful end of a discovery that answers a CreateDevice request:
     * NotSupported when no record was found or a required interface is
     * unmatched; otherwise the device is published (when both registrations
     * succeed), the records are applied, and DeviceCreated and the reply
     * with the path are sent.
     */
    method AnswerRequest(s: SdpSession, env: Env) returns (ok: bool)
      requires Valid() && SessionOk(s) && s.msg.Some?
      modifies this`devices, this`log, s.device`profiles
      ensures Valid()
      ensures ok <==> s.records != [] && AllRequiredMatched(s.records, s.msg.value.required)
      ensures !ok ==> devices == old(devices) && s.device.profiles == old(s.device.profiles)
                      && log == old(log) + [ErrorReturned(NotSupported)]
      ensures ok ==> devices == (if env.pathOk && env.ifaceOk then old(devices) + [s.device] else old(devices))
                     && s.device.profiles == WithRecords(old(s.device.profiles), s.records, env.headsetInit)
                     && log == old(log) + [DeviceCreated(s.device.path), MethodReturned(s.device.path)]
    {
      if s.records == [] {
        log := log + [ErrorReturned(NotSupported)];
        return false;
      }
      var missing := FindMissingInterface(s.records, s.msg.value.required);
      if missing.Some? {
        log := log + [ErrorReturned(NotSupported)];
        return false;
      }
      var added := AddDevice(s.device, env.pathOk, env.ifaceOk);
      s.device.ApplyRecords(s.records, env.headsetInit);
      log := log + [DeviceCreated(s.device.path), MethodReturned(s.device.path)];
      return true;
    }

    /**
     * `get_handles`: asks the adapter for the handles of the current phase's
     * profile; when the request cannot be sent the request is answered
     * Failed and the discovery finishes with failure.
     */
    method GetHandles(s: SdpSession, env: Env)
      requires Valid() && SessionOk(s) && s.Ready() && s.state != GetRecords
      modifies this`devices, this`log, s, s.device
      ensures Valid() && s.Valid()
      ensures s.handles == old(s.handles) && s.records == old(s.records) && s.state == old(s.state)
      ensures env.sendOk ==> Awaiting(s, HandlesQuery(s.state), old(log), old(devices), old(s.device.profiles))
      ensures !env.sendOk ==> FinishedAs(s, false, old(log) + ErrorTo(s.msg, Failed(SEND_HANDLES_FAILED)),
                                         old(devices), old(s.device.profiles), env)
    {
      if !env.sendOk {
        log := log + ErrorTo(s.msg, Failed(SEND_HANDLES_FAILED));
        FinishSdp(s, false, env);
      } else {
        s.query := HandlesQuery(s.state);
      }
    }

    /**
     * `resolve_services`: starts a discovery of `device` in the first phase,
     * answering `msg` when it finishes (no request for a discovery the
     * manager starts itself).
     */
    method ResolveServices(msg: Option<Request>, device: Device, env: Env) returns (s: SdpSession)
      requires Valid() && Allocated(device) && (msg.Some? ==> device !in devices)
      requires !device.profiles.gateway && !device.profiles.source
      modifies this`devices, this`log, device
      ensures Valid() && fresh(s) && s.Valid()
      ensures s.device == device && s.msg == msg
      ensures s.handles == [] && s.records == [] && s.state == GenericAudio
      ensures env.sendOk ==> Awaiting(s, HandlesQuery(GenericAudio), old(log), old(devices), old(device.profiles))
      ensures !env.sendOk ==> FinishedAs(s, false, old(log) + ErrorTo(msg, Failed(SEND_HANDLES_FAILED)),
                                         old(devices), old(device.profiles), env)
    {
      s := new SdpSession(device, msg);
      GetHandles(s, env);
    }

    /**
     * `get_next_record`: pops exactly the front
     * handle of the queue and asks the adapter for its record; when the
     * request cannot be sent the request is answered ConnectFailed(EIO) and
     * the discovery finishes with failure.
     */
    method GetNextRecord(s: SdpSession, env: Env)
      requires Valid() && SessionOk(s) && s.Ready() && s.state == GetRecords && s.handles != []
      modifies this`devices, this`log, s, s.device
      ensures Valid() && s.Valid()
      ensures s.handles == old(s.handles)[1..] && s.records == old(s.records) && s.state == GetRecords
      ensures env.sendOk ==> Awaiting(s, RecordQuery(old(s.handles)[0]), old(log), old(devices), old(s.device.profiles))
      ensures !env.sendOk ==> FinishedAs(s, false, old(log) + ErrorTo(s.msg, ConnectFailed(EIO)),
                                         old(devices), old(s.device.profiles), env)
    {
      var handle := s.handles[0];
      assert forall i, j :: 0 <= i < j < |s.handles| - 1 ==> s.handles[1..][i] == s.handles[i + 1] && s.handles[1..][j] == s.handles[j + 1];
      s.handles := s.handles[1..];
      if !env.sendOk {
        log := log + ErrorTo(s.msg, ConnectFailed(EIO));
        FinishSdp(s, false, env);
      } else {
        s.query := RecordQuery(handle);
      }
    }

    /**
     * `get_handles_reply`: an error finishes the discovery with failure.
     * Otherwise each returned handle the queue lacks is appended in arrival
     * order, the phase advances by one, and the discovery asks for the next
     * phase's handles, fetches the front handle's record, or, with nothing
     * queued after the last phase, finishes with success.
     */
    method GetHandlesReply(s: SdpSession, reply: HandlesReply, env: Env)
      requires Valid() && SessionOk(s) && s.Valid() && s.query.HandlesQuery?
      modifies this`devices, this`log, s, s.device
      ensures Valid() && s.Valid()
      ensures s.records == old(s.records)
      ensures PhaseIndex(old(s.state)) <= PhaseIndex(s.state)
      ensures !reply.Handles? ==> s.state == old(s.state) && s.handles == old(s.handles)
      ensures reply.HandlesError? ==>
                FinishedAs(s, false, old(log) + ErrorTo(s.msg, PeerError(reply.connFailed, reply.detail)),
                           old(devices), old(s.device.profiles), env)
      ensures reply.HandlesBadArgs? ==>
                FinishedAs(s, false, old(log) + ErrorTo(s.msg, Failed(HANDLES_ARGS_FAILED)),
                           old(devices), old(s.device.profiles), env)
      ensures reply.Handles? ==> s.state == NextPhase(old(s.state))
      ensures reply.Handles? && s.state != GetRecords ==>
                s.handles == AppendNew(old(s.handles), reply.found)
                && (env.sendOk ==> Awaiting(s, HandlesQuery(s.state), old(log), old(devices), old(s.device.profiles)))
                && (!env.sendOk ==> FinishedAs(s, false, old(log) + ErrorTo(s.msg, Failed(SEND_HANDLES_FAILED)),
                                               old(devices), old(s.device.profiles), env))
      ensures reply.Handles? && s.state == GetRecords && AppendNew(old(s.handles), reply.found) == [] ==>
                s.handles == [] && FinishedAs(s, true, old(log), old(devices), old(s.device.profiles), env)
      ensures reply.Handles? && s.state == GetRecords && AppendNew(old(s.handles), reply.found) != [] ==>
                var queue := AppendNew(old(s.handles), reply.found);
                s.handles == queue[1..]
                && (env.sendOk ==> Awaiting(s, RecordQuery(queue[0]), old(log), old(devices), old(s.device.profiles)))
                && (!env.sendOk ==> FinishedAs(s, false, old(log) + ErrorTo(s.msg, ConnectFailed(EIO)),
                                               old(devices), old(s.device.profiles), env))
    {
      s.query := NoQuery;
      match reply
      case HandlesError(connFailed, detail) =>
        log := log + ErrorTo(s.msg, PeerError(connFailed, detail));
        FinishSdp(s, false, env);
      case HandlesBadArgs =>
        log := log + ErrorTo(s.msg, Failed(HANDLES_ARGS_FAILED));
        FinishSdp(s, false, env);
      case Handles(found) =>
        var queue := MergeHandles(s.handles, found);
        s.handles := queue;
        s.state := NextPhase(s.state);
        if s.state != GetRecords {
          GetHandles(s, env);
        } else if s.handles != [] {
          GetNextRecord(s, env);
        } else {
          FinishSdp(s, true, env);
        }
    }

    /**
     * `get_record_reply`: an error finishes the discovery with failure.
     * Otherwise the parsed record is appended (a record that does not parse
     * is skipped without failing), and the discovery fetches the next
     * handle's record while handles remain, else finishes with success.
     */
    method GetRecordReply(s: SdpSession, reply: RecordReply, env: Env)
      requires Valid() && SessionOk(s) && s.Valid() && s.query.RecordQuery?
      modifies this`devices, this`log, s, s.device
      ensures Valid() && s.Valid() && s.state == GetRecords
      ensures !reply.RecordBytes? ==> s.handles == old(s.handles) && s.records == old(s.records)
      ensures reply.RecordError? ==>
                FinishedAs(s, false, old(log) + ErrorTo(s.msg, PeerError(reply.connFailed, reply.detail)),
                           old(devices), old(s.device.profiles), env)
      ensures reply.RecordBadArgs? ==>
                FinishedAs(s, false, old(log) + ErrorTo(s.msg, Failed(RECORD_ARGS_FAILED)),
                           old(devices), old(s.device.profiles), env)
      ensures reply.RecordBytes? ==>
                s.records == old(s.records) + (if reply.parsed.Some? then [reply.parsed.value] else [])
      ensures reply.RecordBytes? && old(s.handles) == [] ==>
                s.handles == [] && FinishedAs(s, true, old(log), old(devices), old(s.device.profiles), env)
      ensures reply.RecordBytes? && old(s.handles) != [] ==>
                s.handles == old(s.handles)[1..]
                && (env.sendOk ==> Awaiting(s, RecordQuery(old(s.handles)[0]), old(log), old(devices), old(s.device.profiles)))
                && (!env.sendOk ==> FinishedAs(s, false, old(log) + ErrorTo(s.msg, ConnectFailed(EIO)),
                                               old(devices), old(s.device.profiles), env))
    {
      s.query := NoQuery;
      match reply
      case RecordError(connFailed, detail) =>
        log := log + ErrorTo(s.msg, PeerError(connFailed, detail));
        FinishSdp(s, false, env);
      case RecordBadArgs =>
        log := log + ErrorTo(s.msg, Failed(RECORD_ARGS_FAILED));
        FinishSdp(s, false, env);
      case RecordBytes(parsed) =>
        if parsed.Some? {
          s.records := s.records + [parsed.value];
        }
        if s.handles != [] {
          GetNextRecord(s, env);
        } else {
          FinishSdp(s, true, env);
        }
    }

    /** `find_device` over the registry: walks the list and stops at the first device with address `bda`. */
    method LookupDevice(bda: Address) returns (d: Device?)
      ensures d == FindDevice(devices, bda)
      ensures d != null ==> d in devices && d.bda == bda
    {
      var i := 0;
      while i < |devices|
        invariant 0 <= i <= |devices|
        invariant forall k :: 0 <= k < i ==> devices[k].bda != bda
      {
        if devices[i].bda == bda {
          FindFirstAt(devices, bda, i);
          return devices[i];
        }
        i := i + 1;
      }
      FindDeviceFirst(devices, bda);
      return null;
    }

    /**
     * `am_create_device`: a known address is answered at once, with the
     * device's path when it supports every required interface and
     * NotSupported otherwise; an unknown address gets a new, unregistered
     * device and a discovery that answers the request when it finishes.
     */
    method AmCreateDevice(bda: Address, required: seq<string>, env: Env) returns (r: Reply, s: SdpSession?)
      requires Valid()
      modifies this`devices, this`log, this`deviceId, this`made
      ensures Valid()
      ensures old(FindDevice(devices, bda)) != null ==>
                var d := old(FindDevice(devices, bda));
                s == null && devices == old(devices) && log == old(log) && deviceId == old(deviceId)
                && r == (if DeviceMatches(d.profiles, required) then PathReply(d.path) else ErrorReply(NotSupported))
      ensures old(FindDevice(devices, bda)) == null ==>
                r == Deferred && s != null && fresh(s) && fresh(s.device) && s.Valid() && SessionOk(s)
                && s.device.bda == bda && s.device.path == DevicePath(old(deviceId)) && deviceId == old(deviceId) + 1
                && s.msg == Some(Request(required)) && s.handles == [] && s.records == [] && s.state == GenericAudio
                && (env.sendOk ==> Awaiting(s, HandlesQuery(GenericAudio), old(log), old(devices), NO_PROFILES))
                && (!env.sendOk ==> FinishedAs(s, false, old(log) + [ErrorReturned(Failed(SEND_HANDLES_FAILED))],
                                               old(devices), NO_PROFILES, env))
    {
      var d := LookupDevice(bda);
      if d == null {
        d := CreateDevice(bda);
        s := ResolveServices(Some(Request(required)), d, env);
        r := Deferred;
        return;
      }
      s := null;
      var matches := CheckMatches(d.profiles, required);
      if !matches {
        r := ErrorReply(NotSupported);
        return;
      }
      r := PathReply(d.path);
    }

    /**
     * `am_list_devices`: the paths of the registered devices that support
     * every required interface, in registry order.
     */
    method AmListDevices(required: seq<string>) returns (r: Reply)
      ensures r == PathsReply(MatchingPaths(devices, required))
    {
      var paths: seq<string> := [];
      var i := 0;
      while i < |devices|
        invariant 0 <= i <= |devices|
        invariant paths == MatchingPaths(devices[..i], required)
      {
        assert devices[..i + 1][..i] == devices[..i];
        var matches := CheckMatches(devices[i].profiles, required);
        if matches {
          paths := paths + [devices[i].path];
        }
        i := i + 1;
      }
      assert devices[..i] == devices;
      r := PathsReply(paths);
    }

    /** `am_list_headsets`: the paths of the registered devices with a headset slot, in registry order. */
    method AmListHeadsets() returns (r: Reply)
      ensures r == PathsReply(HeadsetPaths(devices))
    {
      var paths: seq<string> := [];
      var i := 0;
      while i < |devices|
        invariant 0 <= i <= |devices|
        invariant paths == HeadsetPaths(devices[..i])
      {
        assert devices[..i + 1][..i] == devices[..i];
        if devices[i].profiles.headset {
          paths := paths + [devices[i].path];
        }
        i := i + 1;
      }
      assert devices[..i] == devices;
      r := PathsReply(paths);
    }

    /**
     * `am_find_by_addr`: the path of the first registered device with the
     * address, or DoesNotExist.
     */
    method AmFindByAddr(bda: Address) returns (r: Reply)
      requires Valid()
      ensures FindDevice(devices, bda) == null <==> r == ErrorReply(DoesNotExist(NO_SUCH_DEVICE))
      ensures r.PathReply? ==> exists d :: d in devices && d.bda == bda && d.path == r.path
      ensures FindDevice(devices, bda) != null ==> r == PathReply(FindDevice(devices, bda).path)
    {
      var d := LookupDevice(bda);
      if d == null {
        return ErrorReply(DoesNotExist(NO_SUCH_DEVICE));
      }
      return PathReply(d.path);
    }

    /** `am_get_default_headset`: the default headset's path, or DoesNotExist when there is none. */
    method AmGetDefaultHeadset() returns (r: Reply)
      requires Valid()
      ensures defaultHs == null <==> r == ErrorReply(DoesNotExist(NO_DEFAULT_HEADSET))
      ensures defaultHs != null ==> r == PathReply(defaultHs.path) && exists d :: d in devices && d.path == r.path
    {
      if defaultHs == null {
        return ErrorReply(DoesNotExist(NO_DEFAULT_HEADSET));
      }
      return PathReply(defaultHs.path);
    }

    /**
     * `am_change_default_headset`: the registered device with object path
     * `path` becomes the default, whether or not it has a headset slot, and
     * DefaultHeadsetChanged announces it; an unknown path is DoesNotExist
     * and changes nothing.
     */
    method AmChangeDefaultHeadset(path: string) returns (r: Reply)
      requires Valid()
      modifies this`defaultHs, this`log
      ensures Valid() && devices == old(devices)
      ensures FindByPath(devices, path) == null ==>
                r == ErrorReply(DoesNotExist(NO_SUCH_HEADSET)) && defaultHs == old(defaultHs) && log == old(log)
      ensures FindByPath(devices, path) != null ==>
                r == EmptyReply && defaultHs == FindByPath(devices, path) && defaultHs.path == path
                && log == old(log) + [DefaultHeadsetChanged(path)]
    {
      var d := FindByPath(devices, path);
      if d == null {
        return ErrorReply(DoesNotExist(NO_SUCH_HEADSET));
      }
      defaultHs := d;
      log := log + [DefaultHeadsetChanged(d.path)];
      return EmptyReply;
    }

    /**
     * `am_remove_device` (and `am_remove_headset`, which forwards to it): the
     * registered device with object path `path` is removed; when it was the
     * default, the default is re-derived and announced; HeadsetRemoved and
     * DeviceRemoved follow, both for the path, whether or not the device had
     * a headset. An unknown path is DoesNotExist and changes nothing.
     */
    method AmRemoveDevice(path: string) returns (r: Reply)
      requires Valid()
      modifies this`devices, this`defaultHs, this`log
      ensures Valid()
      ensures old(FindByPath(devices, path)) == null ==>
                r == ErrorReply(DoesNotExist(NO_SUCH_HEADSET))
                && devices == old(devices) && defaultHs == old(defaultHs) && log == old(log)
      ensures old(FindByPath(devices, path)) != null ==>
                var d := old(FindByPath(devices, path));
                r == EmptyReply && d !in devices
                && devices == RemoveFirst(old(devices), d)
                && defaultHs == DefaultAfterRemoval(old(devices), old(defaultHs), d)
                && log == old(log) + (if old(defaultHs) == d then [DefaultHeadsetChanged(PathOrEmpty(defaultHs))] else [])
                                   + [HeadsetRemoved(path), DeviceRemoved(path)]
    {
      var d := FindByPath(devices, path);
      if d == null {
        return ErrorReply(DoesNotExist(NO_SUCH_HEADSET));
      }
      RemoveAndRederive(d);
      log := log + [HeadsetRemoved(path), DeviceRemoved(path)];
      return EmptyReply;
    }
  
    /**
     * `create_device` followed by `add_device`, as `am_create_headset` and
     * `manager_headset_connected` do for an unknown address: the new device
     * is registered at the end of the list, or freed (null) when a
     * registration fails; the counter advances either way.
     */
    method CreateAndAdd(bda: Address, pathOk: bool, ifaceOk: bool) returns (n: Device?)
      requires Valid()
      modifies this`devices, this`deviceId, this`made
      ensures Valid() && deviceId == old(deviceId) + 1
      ensures !(pathOk && ifaceOk) ==> n == null && devices == old(devices)
      ensures pathOk && ifaceOk ==>
                n != null && fresh(n) && n !in old(devices) && devices == old(devices) + [n]
                && n.bda == bda && n.path == DevicePath(old(deviceId)) && n.profiles == NO_PROFILES
                && Allocated(n)
    {
      n := CreateDevice(bda);
      var added := AddDevice(n, pathOk, ifaceOk);
      if !added {
        n := null;
      }
    }

    /**
     * The tail of `manager_headset_connected` for a registered device that
     * now has a headset: HeadsetCreated, and when there was no default
     * headset the device becomes the default and DefaultHeadsetChanged
     * announces it.
     */
    method AnnounceHeadset(d: Device)
      requires Valid() && d in devices
      modifies this`defaultHs, this`log
      ensures Valid() && defaultHs != null
      ensures defaultHs == (if old(defaultHs) == null then d else old(defaultHs))
      ensures log == old(log) + [HeadsetCreated(d.path)]
                    + (if old(defaultHs) == null then [DefaultHeadsetChanged(d.path)] else [])
    {
      log := log + [HeadsetCreated(d.path)];
      if defaultHs == null {
        defaultHs := d;
        log := log + [DefaultHeadsetChanged(d.path)];
      }
    }

    /**
     * `headset_init` on a registered device without a headset, then, when it
     * succeeds, the announcement of `AnnounceHeadset`; null when it fails.
     */
    method InitHeadset(f: Device, headsetInit: bool) returns (d: Device?)
      requires Valid() && f in devices && !f.profiles.headset
      modifies this`defaultHs, this`log, f`profiles
      ensures Valid()
      ensures !headsetInit ==> d == null && f.profiles == old(f.profiles) && log == old(log) && defaultHs == old(defaultHs)
      ensures headsetInit ==>
                d == f && f.profiles == old(f.profiles).(headset := true)
                && defaultHs == (if old(defaultHs) == null then f else old(defaultHs))
                && log == old(log) + [HeadsetCreated(f.path)]
                         + (if old(defaultHs) == null then [DefaultHeadsetChanged(f.path)] else [])
    {
      if !headsetInit {
        return null;
      }
      f.profiles := f.profiles.(headset := true);
      AnnounceHeadset(f);
      d := f;
    }

    /**
     * The announcements `manager_headset_connected` makes for a device it
     * has just registered and given a headset: DeviceCreated, a discovery
     * without a request (which, when its first request cannot be sent,
     * finishes at once), then the headset announcement.
     */
    method AnnounceNewHeadset(n: Device, env: Env) returns (s: SdpSession)
      requires Valid() && n in devices
      modifies this`devices, this`defaultHs, this`log, n
      ensures Valid() && devices == old(devices) && n.profiles == old(n.profiles)
      ensures fresh(s) && s.Valid() && SessionOk(s) && s.device == n && s.msg.None?
      ensures s.handles == [] && s.records == [] && s.state == GenericAudio
      ensures s.outcome == (if env.sendOk then Running else Finished(false))
      ensures defaultHs == (if old(defaultHs) == null then n else old(defaultHs))
      ensures log == old(log) + [DeviceCreated(n.path)]
                     + (if env.sendOk then [] else [TransactionFinished(n.bda)])
                     + [HeadsetCreated(n.path)]
                     + (if old(defaultHs) == null then [DefaultHeadsetChanged(n.path)] else [])
    {
      log := log + [DeviceCreated(n.path)];
      s := ResolveServices(None, n, env);
      AnnounceHeadset(n);
    }

    /**
     * `manager_headset_connected`: a headset with address `bda` has connected.
     * A registered device that already has a headset is returned as it is.
     * An unknown address gets a new registered device (null when it cannot
     * be registered); then the headset slot is filled by `headset_init`
     * (null when that fails, leaving the device registered without a
     * headset). A new device is announced with DeviceCreated and a
     * discovery without a request starts for it; the headset is announced
     * and becomes the default when there was none.
     */
    method ManagerHeadsetConnected(bda: Address, env: Env) returns (d: Device?, s: SdpSession?)
      requires Valid()
      modifies this`devices, this`defaultHs, this`log, this`deviceId, this`made, devices
      ensures Valid()
      ensures d != null ==> d in devices && d.bda == bda && d.profiles.headset
      ensures forall x :: x in old(devices) && x != old(FindDevice(devices, bda)) ==> x.profiles == old(x.profiles)
      ensures old(FindDevice(devices, bda)) != null ==> s == null && devices == old(devices) && deviceId == old(deviceId)
      ensures old(FindDevice(devices, bda)) != null && old(FindDevice(devices, bda).profiles.headset) ==>
                d == old(FindDevice(devices, bda)) && d.profiles == old(d.profiles)
                && log == old(log) && defaultHs == old(defaultHs)
      ensures old(FindDevice(devices, bda)) != null && !old(FindDevice(devices, bda).profiles.headset) ==>
                var f := old(FindDevice(devices, bda));
                (!env.headsetInit ==> d == null && f.profiles == old(f.profiles)
                                      && log == old(log) && defaultHs == old(defaultHs))
                && (env.headsetInit ==> d == f && f.profiles == old(f.profiles).(headset := true)
                                        && defaultHs == (if old(defaultHs) == null then f else old(defaultHs))
                                        && log == old(log) + [HeadsetCreated(f.path)]
                                                 + (if old(defaultHs) == null then [DefaultHeadsetChanged(f.path)] else []))
      ensures old(FindDevice(devices, bda)) == null ==> deviceId == old(deviceId) + 1
      ensures old(FindDevice(devices, bda)) == null && !(env.pathOk && env.ifaceOk) ==>
                d == null && s == null && devices == old(devices) && log == old(log) && defaultHs == old(defaultHs)
      ensures old(FindDevice(devices, bda)) == null && env.pathOk && env.ifaceOk ==>
                |devices| == |old(devices)| + 1 && devices[..|old(devices)|] == old(devices)
                && var n := devices[|old(devices)|];
                fresh(n) && n.bda == bda && n.path == DevicePath(old(deviceId))
                && (!env.headsetInit ==> d == null && s == null && n.profiles == NO_PROFILES
                                         && log == old(log) && defaultHs == old(defaultHs))
                && (env.headsetInit ==>
                      d == n && n.profiles == NO_PROFILES.(headset := true)
                      && s != null && fresh(s) && s.Valid() && SessionOk(s) && s.device == n && s.msg.None?
                      && s.handles == [] && s.records == [] && s.state == GenericAudio
                      && s.outcome == (if env.sendOk then Running else Finished(false))
                      && defaultHs == (if old(defaultHs) == null then n else old(defaultHs))
                      && log == old(log) + [DeviceCreated(n.path)]
                               + (if env.sendOk then [] else [TransactionFinished(bda)])
                               + [HeadsetCreated(n.path)]
                               + (if old(defaultHs) == null then [DefaultHeadsetChanged(n.path)] else []))
    {
      s := null;
      var found := LookupDevice(bda);
      if found != null {
        if found.profiles.headset {
          return found, null;
        }
        d := InitHeadset(found, env.headsetInit);
        return;
      }
      var n := CreateAndAdd(bda, env.pathOk, env.ifaceOk);
      if n == null || !env.headsetInit {
        return null, null;
      }
      n.profiles := n.profiles.(headset := true);
      s := AnnounceNewHeadset(n, env);
      d := n;
    }

    /**
     * The part of `am_create_headset` after the device is registered: a
     * device without a headset gets one from `headset_init`, or, when that
     * fails, is removed (with the default re-derived) and the request fails;
     * otherwise HeadsetCreated is sent and the reply is the device's path.
     */
    method EnsureHeadset(d: Device, headsetInit: bool) returns (r: Reply)
      requires Valid() && d in devices
      modifies this`devices, this`defaultHs, this`log, d`profiles
      ensures Valid()
      ensures old(d.profiles.headset) || headsetInit ==>
                r == PathReply(d.path) && devices == old(devices) && defaultHs == old(defaultHs)
                && d.profiles == old(d.profiles).(headset := true) && log == old(log) + [HeadsetCreated(d.path)]
      ensures !old(d.profiles.headset) && !headsetInit ==>
                r == ErrorReply(Failed(HEADSET_INIT_FAILED)) && d.profiles == old(d.profiles)
                && d !in devices && devices == RemoveFirst(old(devices), d)
                && defaultHs == DefaultAfterRemoval(old(devices), old(defaultHs), d)
                && log == old(log) + (if old(defaultHs) == d then [DefaultHeadsetChanged(PathOrEmpty(defaultHs))] else [])
    {
      if !d.profiles.headset {
        if !headsetInit {
          RemoveAndRederive(d);
          return ErrorReply(Failed(HEADSET_INIT_FAILED));
        }
        d.profiles := d.profiles.(headset := true);
      }
      log := log + [HeadsetCreated(d.path)];
      return PathReply(d.path);
    }

    /**
     * The part of `am_create_headset` for an unknown address: a new device is
     * registered and given a headset; when registration fails nothing is
     * registered, and when `headset_init` fails the new device is removed
     * again. The default headset never changes.
     */
    method CreateHeadsetDevice(bda: Address, env: Env) returns (r: Reply)
      requires Valid()
      modifies this`devices, this`defaultHs, this`log, this`deviceId, this`made
      ensures Valid() && deviceId == old(deviceId) + 1 && defaultHs == old(defaultHs)
      ensures !(env.pathOk && env.ifaceOk) ==>
                r == ErrorReply(Failed(CREATE_DEVICE_FAILED)) && devices == old(devices) && log == old(log)
      ensures env.pathOk && env.ifaceOk && !env.headsetInit ==>
                r == ErrorReply(Failed(HEADSET_INIT_FAILED)) && devices == old(devices) && log == old(log)
      ensures env.pathOk && env.ifaceOk && env.headsetInit ==>
                |devices| == |old(devices)| + 1 && devices[..|old(devices)|] == old(devices)
                && var n := devices[|old(devices)|];
                fresh(n) && n.bda == bda && n.path == DevicePath(old(deviceId))
                && n.profiles == NO_PROFILES.(headset := true)
                && r == PathReply(n.path) && log == old(log) + [HeadsetCreated(n.path)]
    {
      var n := CreateAndAdd(bda, env.pathOk, env.ifaceOk);
      if n == null {
        return ErrorReply(Failed(CREATE_DEVICE_FAILED));
      }
      RemoveFirstAppended(old(devices), n);
      assert (old(devices) + [n])[..|old(devices)|] == old(devices);
      r := EnsureHeadset(n, env.headsetInit);
    }

    /**
     * `am_create_headset`: makes sure the device with address `bda` is
     * registered and has a headset, creating and registering it when the
     * address is unknown, and answers with its path after HeadsetCreated.
     * When registration fails the request fails and nothing is registered.
     * When `headset_init` fails the device is removed and the request fails;
     * unlike the code, the default headset is then re-derived as
     * `am_remove_device` does (see `DefaultAfterInitFailureAsWritten`).
     */
    method AmCreateHeadset(bda: Address, env: Env) returns (r: Reply)
      requires Valid()
      modifies this`devices, this`defaultHs, this`log, this`deviceId, this`made, devices
      ensures Valid()
      ensures forall x :: x in old(devices) && x != old(FindDevice(devices, bda)) ==> x.profiles == old(x.profiles)
      ensures old(FindDevice(devices, bda)) == null ==> deviceId == old(deviceId) + 1 && defaultHs == old(defaultHs)
      ensures old(FindDevice(devices, bda)) == null && !(env.pathOk && env.ifaceOk) ==>
                r == ErrorReply(Failed(CREATE_DEVICE_FAILED)) && devices == old(devices) && log == old(log)
      ensures old(FindDevice(devices, bda)) == null && env.pathOk && env.ifaceOk && !env.headsetInit ==>
                r == ErrorReply(Failed(HEADSET_INIT_FAILED)) && devices == old(devices) && log == old(log)
      ensures old(FindDevice(devices, bda)) == null && env.pathOk && env.ifaceOk && env.headsetInit ==>
                |devices| == |old(devices)| + 1 && devices[..|old(devices)|] == old(devices)
                && var n := devices[|old(devices)|];
                fresh(n) && n.bda == bda && n.path == DevicePath(old(deviceId))
                && n.profiles == NO_PROFILES.(headset := true)
                && r == PathReply(n.path) && log == old(log) + [HeadsetCreated(n.path)]
      ensures old(FindDevice(devices, bda)) != null ==>
                var f := old(FindDevice(devices, bda));
                deviceId == old(deviceId)
                && (old(f.profiles.headset) || env.headsetInit ==>
                      r == PathReply(f.path) && devices == old(devices) && defaultHs == old(defaultHs)
                      && f.profiles == old(f.profiles).(headset := true) && log == old(log) + [HeadsetCreated(f.path)])
                && (!old(f.profiles.headset) && !env.headsetInit ==>
                      r == ErrorReply(Failed(HEADSET_INIT_FAILED)) && f !in devices
                      && devices == RemoveFirst(old(devices), f)
                      && defaultHs == DefaultAfterRemoval(old(devices), old(defaultHs), f)
                      && log == old(log) + (if old(defaultHs) == f then [DefaultHeadsetChanged(PathOrEmpty(defaultHs))] else []))
    {
      var d := LookupDevice(bda);
      if d == null {
        r := CreateHeadsetDevice(bda, env);
      } else {
        r := EnsureHeadset(d, env.headsetInit);
      }
    }
  }
}
