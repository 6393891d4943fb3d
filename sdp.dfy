/**
 * The Service Discovery Protocol values the audio manager reads: UUIDs of
 * any width, parsed service records, and the reduction of a record's first
 * service class to a 16-bit class id (`get_service_uuid`).
 *
 * Record parsing (`sdp_extract_pdu`, `sdp_get_service_classes`) is a black
 * box: a record arrives already parsed, with its service-class list either
 * present or missing.
 */
module Sdp {
  import opened Wrappers
  import opened Ints

  type u16 = x: nat | x < 0x1_0000
  type u96 = x: nat | x < 0x1_0000_0000_0000_0000_0000_0000

  // 16-bit service class ids of the audio profiles (Bluetooth Assigned Numbers).
  const HEADSET_SVCLASS_ID: u16 := 0x1108
  const AUDIO_SOURCE_SVCLASS_ID: u16 := 0x110a
  const AUDIO_SINK_SVCLASS_ID: u16 := 0x110b
  const AV_REMOTE_TARGET_SVCLASS_ID: u16 := 0x110c
  const AV_REMOTE_SVCLASS_ID: u16 := 0x110e
  const HEADSET_AGW_SVCLASS_ID: u16 := 0x1112
  const HANDSFREE_SVCLASS_ID: u16 := 0x111e
  const HANDSFREE_AGW_SVCLASS_ID: u16 := 0x111f

  /** The low 96 bits of the Bluetooth Base UUID 00000000-0000-1000-8000-00805F9B34FB. */
  const BASE_UUID_TAIL: u96 := 0x0000_1000_8000_0080_5F9B_34FB

  /** A UUID as SDP carries it; a 128-bit one is split into its top 32 bits and its low 96 bits. */
  datatype Uuid =
    | Uuid16(value16: u16)
    | Uuid32(value32: u32)
    | Uuid128(head: u32, tail: u96)

  /** The service-class attribute of a record: missing, or a non-empty list of UUIDs. */
  datatype ClassList = NoClasses | Classes(first: Uuid, rest: seq<Uuid>)

  /** A parsed service record; only its handle and its service classes matter to the manager. */
  datatype ServiceRecord = ServiceRecord(handle: u32, classes: ClassList)

  /**
   * Reference meaning of a UUID: the 32-bit alias it stands for, if any.
   * Short UUIDs are aliases by definition; a 128-bit UUID is one exactly
   * when it is built on the Base UUID.
   */
  function Alias(u: Uuid): Option<u32> {
    match u
    case Uuid16(v) => Some(v)
    case Uuid32(v) => Some(v)
    case Uuid128(h, t) => if t == BASE_UUID_TAIL then Some(h) else None
  }

  /**
   * `sdp_uuid128_to_uuid` of libbluetooth: a 128-bit UUID built on the Base
   * UUID shrinks to the 16-bit form when its alias fits in 16 bits and to the
   * 32-bit form otherwise; any other 128-bit UUID does not reduce (None).
   * Short UUIDs are left as they are.
   */
  function ShrinkUuid(u: Uuid): (r: Option<Uuid>)
    ensures r.Some? <==> Alias(u).Some?
    ensures r.Some? ==> !r.value.Uuid128? && Alias(r.value) == Alias(u)
    ensures r.Some? && r.value.Uuid32? && u.Uuid128? ==> r.value.value32 > 0xFFFF
  {
    match u
    case Uuid128(h, t) =>
      if t != BASE_UUID_TAIL then None
      else if h <= 0xFFFF then Some(Uuid16(h))
      else Some(Uuid32(h))
    case _ => Some(u)
  }

  /**
   * Reference meaning of a record's class id: the alias of its FIRST service
   * class, when there is one and it fits in 16 bits.
   */
  function ServiceClass16(rec: ServiceRecord): Option<u16> {
    match rec.classes
    case NoClasses => None
    case Classes(first, _) =>
      match Alias(first)
      case Some(v) => if v <= 0xFFFF then Some(v) else None
      case None => None
  }

  /**
   * `get_service_uuid`: the first service class reduced to a 16-bit id, or 0
   * when classes are missing, when a 128-bit UUID does not reduce, or when a
   * 32-bit value exceeds 0xFFFF. Later classes are never consulted.
   */
  function GetServiceUuid(rec: ServiceRecord): (r: u16)
    ensures r == ServiceClass16(rec).GetOr(0)
  {
    match rec.classes
    case NoClasses => 0
    case Classes(first, _) =>
      match ShrinkUuid(first)
      case None => 0
      case Some(u) =>
        match u
        case Uuid32(v) => if v > 0xFFFF then 0 else v
        case Uuid16(v) => v
        case Uuid128(_, _) => 0
  }

  /** A record is classified as a non-zero class `v` exactly when its first class is an alias of `v`. */
  lemma ClassifiedIffFirstClassIsAlias(rec: ServiceRecord, v: u16)
    requires v != 0
    ensures GetServiceUuid(rec) == v <==> rec.classes.Classes? && Alias(rec.classes.first) == Some(v)
  {
    match rec.classes
    case NoClasses =>
    case Classes(first, _) =>
      if Alias(first) == Some(v) {
        assert ServiceClass16(rec) == Some(v);
      }
  }

  /** Only the first class counts: the remaining classes never change the classification. */
  lemma OnlyFirstClassConsulted(h: u32, first: Uuid, rest1: seq<Uuid>, rest2: seq<Uuid>)
    ensures GetServiceUuid(ServiceRecord(h, Classes(first, rest1)))
         == GetServiceUuid(ServiceRecord(h, Classes(first, rest2)))
  {
  }

  /** Each of the three widths of the same 16-bit class id classifies alike. */
  lemma AllWidthsClassifyAlike(h: u32, v: u16, rest: seq<Uuid>)
    ensures GetServiceUuid(ServiceRecord(h, Classes(Uuid16(v), rest))) == v
    ensures GetServiceUuid(ServiceRecord(h, Classes(Uuid32(v), rest))) == v
    ensures GetServiceUuid(ServiceRecord(h, Classes(Uuid128(v, BASE_UUID_TAIL), rest))) == v
  {
  }

  /** The three ways a record is unclassified (0). */
  lemma UnclassifiedCases(h: u32, u: Uuid, rest: seq<Uuid>)
    ensures GetServiceUuid(ServiceRecord(h, NoClasses)) == 0
    ensures u.Uuid128? && u.tail != BASE_UUID_TAIL ==> GetServiceUuid(ServiceRecord(h, Classes(u, rest))) == 0
    ensures u.Uuid32? && u.value32 > 0xFFFF ==> GetServiceUuid(ServiceRecord(h, Classes(u, rest))) == 0
  {
  }
}
