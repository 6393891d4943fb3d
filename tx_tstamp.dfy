/**
 * The TX-timestamp bookkeeping of the test tools (`struct tx_tstamp_data`):
 * a fixed table of sixteen expected (id, type) timestamps, filled by
 * `tx_tstamp_expect` once per send and consumed, one matching timestamp at
 * a time, by the tail of `tx_tstamp_recv`.
 *
 * The socket part of `tx_tstamp_recv` (reading the error queue, locating
 * the control messages, the wall-clock sanity check) is not modelled: the
 * extended error's `ee_info` and `ee_data` arrive as parameters.
 */
module TxTstamp {
  import opened Wrappers
  import opened Ints


  /** `unsigned int` arithmetic wraps modulo 2^32. */
  const U32_MODULUS: nat := 0x1_0000_0000

  // `SOF_TIMESTAMPING_*` socket option flags (Linux net_tstamp.h).
  const SOF_TIMESTAMPING_TX_SOFTWARE: bv32 := 0x2
  const SOF_TIMESTAMPING_OPT_ID: bv32 := 0x80
  const SOF_TIMESTAMPING_TX_SCHED: bv32 := 0x100
  const SOF_TIMESTAMPING_TX_COMPLETION: bv32 := 0x40000

  // `SCM_TSTAMP_*` timestamp types carried in `ee_info` (Linux errqueue.h).
  const SCM_TSTAMP_SND: u32 := 0
  const SCM_TSTAMP_SCHED: u32 := 1
  const SCM_TSTAMP_ACK: u32 := 2
  const SCM_TSTAMP_COMPLETION: u32 := 3

  const EINVAL: int := 22

  /** `ARRAY_SIZE(data->expect)`. */
  const EXPECT_SLOTS: nat := 16

  /** The type written into an entry once its timestamp has arrived. */
  const CONSUMED: u32 := 0xffff

  /** Every byte of an entry is 0xff until `tx_tstamp_expect` writes it. */
  const UNSET: u32 := 0xffff_ffff

  /** One expected timestamp: the id it must carry and its `SCM_TSTAMP_*` type. */
  datatype Entry = Entry(id: u32, tstype: u32)

  const UNSET_ENTRY: Entry := Entry(UNSET, UNSET)

  predicate Enabled(flags: bv32, flag: bv32) {
    flags & flag != 0
  }

  /**
   * The types `tx_tstamp_expect` queues for one send, in the order it writes
   * them: SCHED, then SND, then COMPLETION, each when its flag is set.
   */
  function ExpectedTypes(flags: bv32): seq<u32> {
    IfEnabled(flags, SOF_TIMESTAMPING_TX_SCHED, SCM_TSTAMP_SCHED) +
    IfEnabled(flags, SOF_TIMESTAMPING_TX_SOFTWARE, SCM_TSTAMP_SND) +
    IfEnabled(flags, SOF_TIMESTAMPING_TX_COMPLETION, SCM_TSTAMP_COMPLETION)
  }

  /** The type `t` when `flag` is enabled, nothing otherwise. */
  function IfEnabled(flags: bv32, flag: bv32, t: u32): seq<u32> {
    if Enabled(flags, flag) then [t] else []
  }

  /**
   * At most three entries per send, one per enabled flag, each type queued
   * exactly when its flag is set, none of them ACK and none looking consumed.
   */
  lemma ExpectedTypesMeaning(flags: bv32)
    ensures |ExpectedTypes(flags)| <= 3
    ensures SCM_TSTAMP_SCHED in ExpectedTypes(flags) <==> Enabled(flags, SOF_TIMESTAMPING_TX_SCHED)
    ensures SCM_TSTAMP_SND in ExpectedTypes(flags) <==> Enabled(flags, SOF_TIMESTAMPING_TX_SOFTWARE)
    ensures SCM_TSTAMP_COMPLETION in ExpectedTypes(flags) <==> Enabled(flags, SOF_TIMESTAMPING_TX_COMPLETION)
    ensures SCM_TSTAMP_ACK !in ExpectedTypes(flags)
    ensures forall t :: t in ExpectedTypes(flags) ==> t < CONSUMED
    ensures forall i, j :: 0 <= i < j < |ExpectedTypes(flags)| ==> ExpectedTypes(flags)[i] != ExpectedTypes(flags)[j]
  {
  }

  /** The entries one send queues: every type with the same id. */
  function Queued(id: u32, types: seq<u32>): (r: seq<Entry>)
    ensures |r| == |types|
  {
    seq(|types|, i requires 0 <= i < |types| => Entry(id, types[i]))
  }

  /** Queueing two lists of types one after the other queues their concatenation. */
  lemma QueuedAppend(id: u32, a: seq<u32>, b: seq<u32>)
    ensures Queued(id, a + b) == Queued(id, a) + Queued(id, b)
  {
  }

  /** The table `e` with the entries of `types`, all with `id`, written from position `p` on. */
  function Overwrite(e: seq<Entry>, p: nat, id: u32, types: seq<u32>): (r: seq<Entry>)
    requires p + |types| <= |e|
    ensures |r| == |e|
  {
    e[..p] + Queued(id, types) + e[p + |types|..]
  }

  /** Writing two lists of types one after the other writes their concatenation. */
  lemma OverwriteTwice(e: seq<Entry>, p: nat, id: u32, a: seq<u32>, b: seq<u32>)
    requires p + |a| + |b| <= |e|
    ensures Overwrite(Overwrite(e, p, id, a), p + |a|, id, b) == Overwrite(e, p, id, a + b)
  {
    QueuedAppend(id, a, b);
    var once := Overwrite(e, p, id, a);
    assert once[..p + |a|] == e[..p] + Queued(id, a);
    assert once[p + |a| + |b|..] == e[p + |a| + |b|..];
  }

  /** The three blocks of `tx_tstamp_expect`, one after the other, write all the expected types. */
  lemma QueuedInOrder(e0: seq<Entry>, e1: seq<Entry>, e2: seq<Entry>, e3: seq<Entry>, p: nat, id: u32, flags: bv32)
    requires p + |ExpectedTypes(flags)| <= |e0|
    requires e1 == Overwrite(e0, p, id, IfEnabled(flags, SOF_TIMESTAMPING_TX_SCHED, SCM_TSTAMP_SCHED))
    requires e2 == Overwrite(e1, p + |IfEnabled(flags, SOF_TIMESTAMPING_TX_SCHED, SCM_TSTAMP_SCHED)|, id,
      IfEnabled(flags, SOF_TIMESTAMPING_TX_SOFTWARE, SCM_TSTAMP_SND))
    requires e3 == Overwrite(e2, p + |IfEnabled(flags, SOF_TIMESTAMPING_TX_SCHED, SCM_TSTAMP_SCHED)| +
      |IfEnabled(flags, SOF_TIMESTAMPING_TX_SOFTWARE, SCM_TSTAMP_SND)|, id,
      IfEnabled(flags, SOF_TIMESTAMPING_TX_COMPLETION, SCM_TSTAMP_COMPLETION))
    ensures e3 == Overwrite(e0, p, id, ExpectedTypes(flags))
  {
    var a := IfEnabled(flags, SOF_TIMESTAMPING_TX_SCHED, SCM_TSTAMP_SCHED);
    var b := IfEnabled(flags, SOF_TIMESTAMPING_TX_SOFTWARE, SCM_TSTAMP_SND);
    OverwriteTwice(e0, p, id, a, b);
    OverwriteTwice(e0, p, id, a + b, IfEnabled(flags, SOF_TIMESTAMPING_TX_COMPLETION, SCM_TSTAMP_COMPLETION));
  }

  /** What precedes the written entries is kept, and so is what follows them. */
  lemma OverwriteFacts(e: seq<Entry>, p: nat, id: u32, types: seq<u32>)
    requires p + |types| <= |e|
    ensures Overwrite(e, p, id, types)[..p + |types|] == e[..p] + Queued(id, types)
    ensures forall i :: p + |types| <= i < |e| ==> Overwrite(e, p, id, types)[i] == e[i]
  {
  }

  /**
   * The id the entries of one send carry: in stream mode a non-empty send
   * first advances `sent` to the offset of its last byte.
   */
  function SentId(sent: u32, len: nat, stream: bool): u32 {
    if stream && len > 0 then (sent + len - 1) % U32_MODULUS else sent
  }

  /** `sent` after one send: one more, unless it is an empty send on a stream. */
  function SentAfter(sent: u32, len: nat, stream: bool): u32 {
    CountSend(SentId(sent, len, stream), len, stream)
  }

  /** The final step of a send: one more, unless it is an empty send on a stream. */
  function CountSend(id: u32, len: nat, stream: bool): u32 {
    if !stream || len > 0 then (id + 1) % U32_MODULUS else id
  }

  /**
   * In stream mode a send of `len > 0` bytes advances `sent` by `len` and an
   * empty one leaves it alone; otherwise every send advances it by one.
   */
  lemma SentAfterCases(sent: u32, len: nat, stream: bool)
    ensures stream && len > 0 ==> SentAfter(sent, len, stream) == (sent + len) % U32_MODULUS
    ensures stream && len == 0 ==> SentAfter(sent, len, stream) == sent
    ensures !stream ==> SentAfter(sent, len, stream) == (sent + 1) % U32_MODULUS
  {
    if stream && len > 0 {
      ModAddOne(sent + len - 1);
    }
  }

  lemma ModAddOne(n: nat)
    ensures (n % U32_MODULUS + 1) % U32_MODULUS == (n + 1) % U32_MODULUS
  {
  }

  /** The total length of a series of sends. */
  function Sum(lens: seq<nat>): nat {
    if lens == [] then 0 else lens[0] + Sum(lens[1..])
  }

  /** `sent` after a series of sends, in order. */
  function SentAfterAll(sent: u32, lens: seq<nat>, stream: bool): u32
    decreases |lens|
  {
    if lens == [] then sent else SentAfterAll(SentAfter(sent, lens[0], stream), lens[1..], stream)
  }

  /** On a stream socket `sent` counts bytes, modulo 2^32. */
  lemma {:induction false} StreamSentCountsBytes(sent: u32, lens: seq<nat>)
    decreases |lens|
    ensures SentAfterAll(sent, lens, true) == (sent + Sum(lens)) % U32_MODULUS
  {
    if lens != [] {
      var next := SentAfter(sent, lens[0], true);
      SentAfterCases(sent, lens[0], true);
      StreamSentCountsBytes(next, lens[1..]);
      ModAddAssoc(sent + lens[0], Sum(lens[1..]));
    }
  }

  /** On any other socket `sent` counts sends, modulo 2^32. */
  lemma {:induction false} DatagramSentCountsSends(sent: u32, lens: seq<nat>)
    decreases |lens|
    ensures SentAfterAll(sent, lens, false) == (sent + |lens|) % U32_MODULUS
  {
    if lens != [] {
      var next := SentAfter(sent, lens[0], false);
      SentAfterCases(sent, lens[0], false);
      DatagramSentCountsSends(next, lens[1..]);
      ModAddAssoc(sent + 1, |lens| - 1);
    }
  }

  lemma ModAddAssoc(a: nat, b: nat)
    ensures (a % U32_MODULUS + b) % U32_MODULUS == (a + b) % U32_MODULUS
  {
  }

  /** Whether a timestamp of type `info` consumes the entry: it is still expected and has that type. */
  predicate Matches(e: Entry, info: u32) {
    e.tstype < CONSUMED && e.tstype == info
  }

  /** The first entry a timestamp of type `info` consumes, if any. */
  function FirstMatch(entries: seq<Entry>, info: u32): Option<nat> {
    if entries == [] then None
    else if Matches(entries[0], info) then Some(0)
    else match FirstMatch(entries[1..], info)
      case None => None
      case Some(i) => Some(i + 1)
  }

  /** `FirstMatch` finds the lowest matching position, and nothing exactly when no entry matches. */
  lemma {:induction false} FirstMatchMeaning(entries: seq<Entry>, info: u32)
    ensures FirstMatch(entries, info).None? <==> forall k :: 0 <= k < |entries| ==> !Matches(entries[k], info)
    ensures FirstMatch(entries, info).Some? ==>
      var i := FirstMatch(entries, info).value;
      i < |entries| && Matches(entries[i], info) && forall k :: 0 <= k < i ==> !Matches(entries[k], info)
  {
    if entries != [] && !Matches(entries[0], info) {
      var rest := entries[1..];
      FirstMatchMeaning(rest, info);
      assert forall k :: 1 <= k < |entries| ==> entries[k] == rest[k - 1];
    }
  }

  /** The number of entries still waiting for their timestamp. */
  function Pending(entries: seq<Entry>): nat {
    if entries == [] then 0
    else Pending(entries[..|entries| - 1]) + (if entries[|entries| - 1].tstype < CONSUMED then 1 else 0)
  }

  /** Entries queued with types below the sentinel are all pending. */
  lemma {:induction false} PendingAppend(entries: seq<Entry>, queued: seq<Entry>)
    requires forall k :: 0 <= k < |queued| ==> queued[k].tstype < CONSUMED
    ensures Pending(entries + queued) == Pending(entries) + |queued|
  {
    if queued != [] {
      var front := queued[..|queued| - 1];
      var all := entries + queued;
      assert all[..|all| - 1] == entries + front;
      assert all[|all| - 1] == queued[|queued| - 1];
      PendingAppend(entries, front);
    } else {
      assert entries + queued == entries;
    }
  }

  /** Consuming a pending entry lowers the number of pending entries by exactly one. */
  lemma {:induction false} PendingMark(entries: seq<Entry>, i: nat)
    requires i < |entries| && entries[i].tstype < CONSUMED
    ensures Pending(entries[i := Entry(entries[i].id, CONSUMED)]) == Pending(entries) - 1
    ensures Pending(entries) >= 1
  {
    var marked := entries[i := Entry(entries[i].id, CONSUMED)];
    var n := |entries| - 1;
    if i < n {
      assert marked[..n] == entries[..n][i := Entry(entries[i].id, CONSUMED)];
      PendingMark(entries[..n], i);
    } else {
      assert marked[..n] == entries[..n];
    }
  }

  /** Any entry a timestamp matches is pending. */
  lemma PendingWhenMatched(entries: seq<Entry>, info: u32)
    requires FirstMatch(entries, info).Some?
    ensures Pending(entries) >= 1
  {
    FirstMatchMeaning(entries, info);
    PendingMark(entries, FirstMatch(entries, info).value);
  }

  /**
   * The state `struct tx_tstamp_data` keeps: `count` entries of the
   * sixteen queued and `pos` timestamps received; every entry past
   * `count` still unset, and no more entries pending than timestamps
   * still to be received.
   */
  ghost predicate TableOk(e: seq<Entry>, pos: nat, count: nat) {
    |e| == EXPECT_SLOTS &&
    pos <= count <= EXPECT_SLOTS &&
    (forall i :: count <= i < |e| ==> e[i] == UNSET_ENTRY) &&
    Pending(e[..count]) <= count - pos
  }

  /** Queueing pending entries after the last queued one keeps the table consistent. */
  lemma QueueKeepsTable(e: seq<Entry>, pos: nat, count: nat, id: u32, types: seq<u32>)
    requires TableOk(e, pos, count) && count + |types| <= EXPECT_SLOTS
    requires forall t :: t in types ==> t < CONSUMED
    ensures TableOk(Overwrite(e, count, id, types), pos, count + |types|)
  {
    OverwriteFacts(e, count, id, types);
    var q := Queued(id, types);
    assert forall k :: 0 <= k < |q| ==> q[k].tstype == types[k] && types[k] in types;
    PendingAppend(e[..count], q);
  }

  /**
   * Consuming a pending entry keeps the table consistent, both when the
   * timestamp is then counted received and when it is rejected.
   */
  lemma MarkKeepsTable(e: seq<Entry>, pos: nat, count: nat, i: nat)
    requires TableOk(e, pos, count) && pos < count
    requires i < count && e[i].tstype < CONSUMED
    ensures TableOk(e[i := Entry(e[i].id, CONSUMED)], pos, count)
    ensures TableOk(e[i := Entry(e[i].id, CONSUMED)], pos + 1, count)
  {
    assert e[i := Entry(e[i].id, CONSUMED)][..count] == e[..count][i := Entry(e[i].id, CONSUMED)];
    PendingMark(e[..count], i);
  }

  class TxTstampData {
    const expected: array<Entry>
    var pos: nat
    var count: nat
    var sent: u32
    const soTimestamping: bv32
    const stream: bool

    /**
     * `count` entries have been queued, at most sixteen, and `pos` of them
     * received; the rest of the table is still unset, and no more entries
     * are pending than timestamps are still to be received.
     */
    ghost predicate Valid()
      reads this, expected
    {
      expected.Length == EXPECT_SLOTS && TableOk(expected[..], pos, count)
    }

    /** `tx_tstamp_init`: counters zeroed, every entry all-ones, the options stored. */
    constructor Init(soTimestamping: bv32, stream: bool)
      ensures Valid() && fresh(expected)
      ensures pos == 0 && count == 0 && sent == 0
      ensures this.soTimestamping == soTimestamping && this.stream == stream
      ensures forall i :: 0 <= i < expected.Length ==> expected[i] == UNSET_ENTRY
    {
      expected := new Entry[EXPECT_SLOTS](_ => UNSET_ENTRY);
      pos := 0;
      count := 0;
      sent := 0;
      this.soTimestamping := soTimestamping;
      this.stream := stream;
    }

    /**
     * `tx_tstamp_expect`: queue the timestamps one send of `len` bytes will
     * produce, one entry per enabled type after the last queued one, all
     * with the id of this send; return how many were queued. The table must
     * have room for them (the source aborts otherwise).
     */
    method Expect(len: nat) returns (steps: int)
      requires Valid()
      requires count + |ExpectedTypes(soTimestamping)| <= EXPECT_SLOTS
      modifies this`count, this`sent, expected
      ensures Valid()
      ensures steps == |ExpectedTypes(soTimestamping)| && count == old(count) + steps
      ensures expected[..] == Overwrite(old(expected[..]), old(count), SentId(old(sent), len, stream), ExpectedTypes(soTimestamping))
      ensures sent == SentAfter(old(sent), len, stream) && pos == old(pos)
    {
      ghost var e0 := expected[..];
      sent := SentId(sent, len, stream);
      var p := QueueAll(count);
      assert forall t :: t in ExpectedTypes(soTimestamping) ==> t < CONSUMED by {
        ExpectedTypesMeaning(soTimestamping);
      }
      QueueKeepsTable(e0, pos, count, sent, ExpectedTypes(soTimestamping));
      sent := CountSend(sent, len, stream);
      steps := p - count;
      count := p;
    }

    /**
     * The three blocks of `tx_tstamp_expect`: the SCHED, SND and COMPLETION
     * entries, each when enabled, written with the current `sent` from
     * position `p` on; returns the position after them.
     */
    method QueueAll(p: nat) returns (next: nat)
      requires expected.Length == EXPECT_SLOTS
      requires p + |ExpectedTypes(soTimestamping)| <= EXPECT_SLOTS
      modifies expected
      ensures next == p + |ExpectedTypes(soTimestamping)|
      ensures expected[..] == Overwrite(old(expected[..]), p, sent, ExpectedTypes(soTimestamping))
    {
      ghost var e0 := expected[..];
      var p1 := QueueIf(p, SOF_TIMESTAMPING_TX_SCHED, SCM_TSTAMP_SCHED);
      ghost var e1 := expected[..];
      var p2 := QueueIf(p1, SOF_TIMESTAMPING_TX_SOFTWARE, SCM_TSTAMP_SND);
      ghost var e2 := expected[..];
      next := QueueIf(p2, SOF_TIMESTAMPING_TX_COMPLETION, SCM_TSTAMP_COMPLETION);
      QueuedInOrder(e0, e1, e2, expected[..], p, sent, soTimestamping);
    }

    /**
     * One block of `tx_tstamp_expect`: when `flag` is enabled, write an
     * entry of type `t` with the current `sent` at `p` and move past it.
     */
    method QueueIf(p: nat, flag: bv32, t: u32) returns (next: nat)
      requires expected.Length == EXPECT_SLOTS
      requires p + |IfEnabled(soTimestamping, flag, t)| <= EXPECT_SLOTS
      modifies expected
      ensures next == p + |IfEnabled(soTimestamping, flag, t)|
      ensures expected[..] == Overwrite(old(expected[..]), p, sent, IfEnabled(soTimestamping, flag, t))
    {
      next := p;
      if Enabled(soTimestamping, flag) {
        expected[p] := Entry(sent, t);
        next := p + 1;
        assert expected[..] == old(expected[..])[..p] + [Entry(sent, t)] + old(expected[..])[p + 1..];
      }
    }

    /**
     * The matching tail of `tx_tstamp_recv` for a timestamp of type
     * `eeInfo` carrying id `eeData`: with nothing left to receive, or no
     * pending entry of that type, it fails with -EINVAL and changes
     * nothing. Otherwise it consumes the first such entry; with OPT_ID set
     * and a different id it then fails with -EINVAL (the entry stays
     * consumed), and else it counts the timestamp received and returns how
     * many are still to come.
     */
    method Recv(eeInfo: u32, eeData: u32) returns (r: int)
      requires Valid()
      modifies this`pos, expected
      ensures Valid()
      ensures r == -EINVAL || r == count - pos
      ensures old(pos) >= count || FirstMatch(old(expected[..count]), eeInfo).None? ==>
        r == -EINVAL && pos == old(pos) && expected[..] == old(expected[..])
      ensures old(pos) < count && FirstMatch(old(expected[..count]), eeInfo).Some? ==>
        var i := FirstMatch(old(expected[..count]), eeInfo).value;
        i < count &&
        expected[..] == old(expected[..])[i := Entry(old(expected[i]).id, CONSUMED)] &&
        if Enabled(soTimestamping, SOF_TIMESTAMPING_OPT_ID) && eeData != old(expected[i]).id
        then r == -EINVAL && pos == old(pos)
        else pos == old(pos) + 1 && r == count - pos
    {
      if pos >= count {
        return -EINVAL;
      }
      ghost var entries := expected[..count];
      FirstMatchMeaning(entries, eeInfo);
      var i := 0;
      while i < count
        invariant 0 <= i <= count
        invariant expected[..] == old(expected[..]) && pos == old(pos)
        invariant forall k :: 0 <= k < i ==> !Matches(entries[k], eeInfo)
      {
        if expected[i].tstype < CONSUMED && eeInfo == expected[i].tstype {
          assert FirstMatch(entries, eeInfo) == Some(i);
          MarkKeepsTable(expected[..], pos, count, i);
          expected[i] := Entry(expected[i].id, CONSUMED);
          break;
        }
        i := i + 1;
      }
      if i == count {
        return -EINVAL;
      }
      if Enabled(soTimestamping, SOF_TIMESTAMPING_OPT_ID) && eeData != expected[i].id {
        return -EINVAL;
      }
      pos := pos + 1;
      r := count - pos;
    }
  }

  /**
   * The "too many timestamps" guard never turns away a timestamp the table
   * would accept: whenever some pending entry matches, fewer timestamps
   * than were queued have been received.
   */
  lemma MatchMeansRoom(e: seq<Entry>, pos: nat, count: nat, info: u32)
    requires TableOk(e, pos, count)
    ensures FirstMatch(e[..count], info).Some? ==> pos < count
  {
    if FirstMatch(e[..count], info).Some? {
      PendingWhenMatched(e[..count], info);
    }
  }
}
