/**
 * The pending-handle queue of a discovery session: `find_handle` and the
 * de-duplicating append that `get_handles_reply` performs for every handle
 * a `GetRemoteServiceHandles` reply carries.
 */
module HandleQueue {
  import opened Wrappers
  import opened Ints
  import opened Sdp
  import opened Registry

  /**
   * `find_handle`: walks the queue from the front and gives the position of
   * the first entry equal to `handle`, or None when the queue lacks it.
   */
  method FindHandle(handles: seq<u32>, handle: u32) returns (found: Option<nat>)
    ensures found.None? <==> handle !in handles
    ensures found.Some? ==> found.value < |handles| && handles[found.value] == handle
                            && handle !in handles[..found.value]
  {
    var i := 0;
    while i < |handles|
      invariant 0 <= i <= |handles|
      invariant handle !in handles[..i]
    {
      if handles[i] == handle {
        return Some(i);
      }
      assert handles[..i + 1] == handles[..i] + [handles[i]];
      i := i + 1;
    }
    assert handles[..i] == handles;
    return None;
  }

  /**
   * The queue after `get_handles_reply` has processed `arrivals` in order:
   * each arriving handle is appended at the end unless the queue (including
   * what this reply already appended) holds it. The old queue stays a
   * prefix, and the result holds exactly the old and the arriving handles.
   */
  function AppendNew(queue: seq<u32>, arrivals: seq<u32>): (r: seq<u32>)
    ensures |queue| <= |r| <= |queue| + |arrivals|
    ensures r[..|queue|] == queue
    ensures forall h :: h in r <==> h in queue || h in arrivals
  {
    if arrivals == [] then queue
    else
      var q := AppendNew(queue, arrivals[..|arrivals| - 1]);
      var h := arrivals[|arrivals| - 1];
      assert arrivals == arrivals[..|arrivals| - 1] + [h];
      if h in q then q else q + [h]
  }

  /** Appending only what is not yet queued keeps the queue free of duplicates. */
  lemma {:induction false} AppendNewKeepsDistinct(queue: seq<u32>, arrivals: seq<u32>)
    requires Distinct(queue)
    ensures Distinct(AppendNew(queue, arrivals))
  {
    if arrivals != [] {
      AppendNewKeepsDistinct(queue, arrivals[..|arrivals| - 1]);
    }
  }

  /** A handle that is already queued, or arrives twice, is queued once. */
  lemma AppendNewIgnoresKnown(queue: seq<u32>, arrivals: seq<u32>, h: u32)
    requires h in queue
    ensures AppendNew(queue, arrivals + [h]) == AppendNew(queue, arrivals)
  {
    assert (arrivals + [h])[..|arrivals|] == arrivals;
  }

  /** One more arriving handle: the step the loop of `get_handles_reply` takes. */
  lemma AppendNewStep(queue: seq<u32>, arrivals: seq<u32>, i: nat)
    requires i < |arrivals|
    ensures AppendNew(queue, arrivals[..i + 1])
         == (var q := AppendNew(queue, arrivals[..i]); if arrivals[i] in q then q else q + [arrivals[i]])
  {
    assert arrivals[..i + 1][..i] == arrivals[..i];
  }

  /**
   * The loop of `get_handles_reply`: for each arriving handle in order,
   * `find_handle` on the queue built so far, and append the handle when it
   * is missing. The queue stays free of duplicates.
   */
  method MergeHandles(queue: seq<u32>, arrivals: seq<u32>) returns (r: seq<u32>)
    requires Distinct(queue)
    ensures r == AppendNew(queue, arrivals) && Distinct(r)
  {
    r := queue;
    var i := 0;
    while i < |arrivals|
      invariant 0 <= i <= |arrivals|
      invariant r == AppendNew(queue, arrivals[..i])
    {
      var known := FindHandle(r, arrivals[i]);
      AppendNewStep(queue, arrivals, i);
      if known.None? {
        r := r + [arrivals[i]];
      }
      i := i + 1;
    }
    assert arrivals[..i] == arrivals;
    AppendNewKeepsDistinct(queue, arrivals);
  }
}
