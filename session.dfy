/**
 * One audio service discovery (`struct audio_sdp_data`): the device it
 * discovers, the CreateDevice request that started it (absent for a
 * discovery the manager starts itself), the queue of service handles still
 * to fetch, the records fetched so far and the phase it is in; together
 * with the replies and signals the manager sends while it runs.
 */
module Session {
  import opened Wrappers
  import opened Ints
  import opened Sdp
  import opened Registry

  /**
   * `audio_sdp_state_t`: three handle enumerations, one per profile group
   * (GENERIC_AUDIO, ADVANCED_AUDIO, AV_REMOTE), then record fetching.
   */
  datatype Phase = GenericAudio | AdvancedAudio | AvRemote | GetRecords

  /** The numeric value of the phase in the C enumeration. */
  function PhaseIndex(p: Phase): nat {
    match p
    case GenericAudio => 0
    case AdvancedAudio => 1
    case AvRemote => 2
    case GetRecords => 3
  }

  /** `data->state++`: an enumeration phase moves one step forward, never back. */
  function NextPhase(p: Phase): (r: Phase)
    requires p != GetRecords
    ensures PhaseIndex(r) == PhaseIndex(p) + 1
  {
    match p
    case GenericAudio => AdvancedAudio
    case AdvancedAudio => AvRemote
    case AvRemote => GetRecords
  }

  /** The CreateDevice call a discovery answers: the interfaces the caller requires. */
  datatype Request = Request(required: seq<string>)

  /**
   * The one request a running discovery has outstanding with the adapter:
   * GetRemoteServiceHandles for an enumeration phase, or
   * GetRemoteServiceRecord for one handle.
   */
  datatype Query = NoQuery | HandlesQuery(phase: Phase) | RecordQuery(handle: u32)

  /** Whether `finish_sdp` has run, and with which final result. */
  datatype Outcome = Running | Finished(success: bool)

  /**
   * The `org.bluez.audio.Error.*` errors the manager replies with:
   * NotSupported, ConnectFailed with the errno whose `strerror` text it
   * carries, and DoesNotExist and Failed with their description.
   */
  datatype ErrorKind = NotSupported | ConnectFailed(errno: int) | DoesNotExist(detail: string) | Failed(detail: string)

  /**
   * What the manager sends on the bus: its signals, the eventual answer to a
   * discovery's CreateDevice request, and the FinishRemoteServiceTransaction
   * call of `finish_sdp_transaction`.
   */
  datatype Event =
    | DeviceCreated(path: string)
    | DeviceRemoved(path: string)
    | HeadsetCreated(path: string)
    | HeadsetRemoved(path: string)
    | DefaultHeadsetChanged(path: string)
    | MethodReturned(path: string)
    | ErrorReturned(err: ErrorKind)
    | TransactionFinished(bda: Address)

  /**
   * An error reply to the request `msg`; `error_reply` sends nothing when
   * the discovery has no request.
   */
  function ErrorTo(msg: Option<Request>, e: ErrorKind): seq<Event> {
    if msg.Some? then [ErrorReturned(e)] else []
  }

  class SdpSession {
    const device: Device
    const msg: Option<Request>
    var handles: seq<u32>
    var records: seq<ServiceRecord>
    var state: Phase
    var query: Query
    var outcome: Outcome
    /** How many times `finish_sdp` has released this discovery's resources. */
    ghost var finishes: nat

    /**
     * Holds at every point: the handle queue has no duplicates, an
     * outstanding query belongs to the current phase, and the resources are
     * released once when the discovery finishes and not before.
     */
    ghost predicate Inv()
      reads this
    {
      Distinct(handles) &&
      (query.HandlesQuery? ==> query.phase == state && state != GetRecords) &&
      (query.RecordQuery? ==> state == GetRecords) &&
      (outcome.Finished? ==> query == NoQuery) &&
      finishes == (if outcome.Running? then 0 else 1)
    }

    /** Between events: a running discovery waits for exactly one reply, a finished one for none. */
    ghost predicate Valid()
      reads this
    {
      Inv() && (outcome.Running? <==> query != NoQuery)
    }

    /** Inside an event handler: still running, with no request outstanding yet. */
    ghost predicate Ready()
      reads this
    {
      Inv() && outcome.Running? && query == NoQuery
    }

    /** The `g_new0` of `resolve_services`: empty queue and records, first phase. */
    constructor (device: Device, msg: Option<Request>)
      ensures this.device == device && this.msg == msg
      ensures handles == [] && records == [] && state == GenericAudio
      ensures Ready() && finishes == 0
    {
      this.device := device;
      this.msg := msg;
      handles := [];
      records := [];
      state := GenericAudio;
      query := NoQuery;
      outcome := Running;
      finishes := 0;
    }
  }
}
