/** `BlestService`, the batching engine: the pending queue, the single
    debounce timer, the flush that splits the queue into chunks and
    dispatches one fetch per chunk, and the completion handlers that
    publish a new snapshot of the store for that chunk's ids. */
module Service {
  import opened JsValues
  import opened Config
  import opened Batching
  import opened Store

  /** `requestIds` of a chunk: `myQueue.map(q => q[0])`. */
  function IdSeq(items: seq<QueueItem>): (ids: seq<string>)
    ensures |ids| == |items|
    ensures forall i | 0 <= i < |items| :: ids[i] == items[i].id
  {
    seq(|items|, i requires 0 <= i < |items| => items[i].id)
  }

  lemma IdSeqHoldsIdsOf(items: seq<QueueItem>)
    ensures forall x :: x in IdSeq(items) <==> x in IdsOf(items)
  {
    var ids := IdSeq(items);
    forall x ensures x in ids <==> x in IdsOf(items) {
      if x in ids {
        var i :| 0 <= i < |ids| && ids[i] == x;
        assert items[i] in items;
      }
      if x in IdsOf(items) {
        var it :| it in items && it.id == x;
        var i :| 0 <= i < |items| && items[i] == it;
        assert ids[i] == x;
      }
    }
  }

  /** The in-flight list without its k-th chunk (that chunk's fetch settled). */
  function Without(inflight: seq<seq<QueueItem>>, k: nat): (r: seq<seq<QueueItem>>)
    requires k < |inflight|
    ensures |r| == |inflight| - 1
    ensures forall j | 0 <= j < |r| :: r[j] == inflight[if j < k then j else j + 1]
  {
    inflight[..k] + inflight[k + 1..]
  }

  /** The bookkeeping the engine keeps consistent: the queue holds distinct
      ids, every queued or in-flight id has an entry in the store, and the
      queue and the in-flight chunks share no id with each other. */
  ghost predicate Tracked(s: Snapshot, queue: seq<QueueItem>, inflight: seq<seq<QueueItem>>) {
    && Unique(queue)
    && IdsOf(queue) <= s.Keys
    && (forall k | 0 <= k < |inflight| :: IdsOf(inflight[k]) <= s.Keys && IdsOf(inflight[k]) !! IdsOf(queue))
    && (forall j, k | 0 <= j < k < |inflight| :: IdsOf(inflight[j]) !! IdsOf(inflight[k]))
  }

  /** Every queued or in-flight id is still shown as loading. */
  ghost predicate AwaitingLoading(s: Snapshot, queue: seq<QueueItem>, inflight: seq<seq<QueueItem>>) {
    && (forall x | x in IdsOf(queue) :: x in s && s[x].loading)
    && (forall k, x | 0 <= k < |inflight| && x in IdsOf(inflight[k]) :: x in s && s[x].loading)
  }

  /** Distinct in-flight chunks never share an id. */
  lemma TrackedChunksDisjoint(s: Snapshot, queue: seq<QueueItem>, inflight: seq<seq<QueueItem>>, j: nat, k: nat)
    requires Tracked(s, queue, inflight)
    requires j < |inflight| && k < |inflight| && j != k
    ensures IdsOf(inflight[j]) !! IdsOf(inflight[k])
  {
    if j > k {
      assert IdsOf(inflight[k]) !! IdsOf(inflight[j]);
    }
  }

  /** Enqueueing a fresh id keeps the bookkeeping, and keeps every pending id
      loading. */
  lemma TrackedAfterEnqueue(s: Snapshot, queue: seq<QueueItem>, inflight: seq<seq<QueueItem>>, item: QueueItem)
    requires Tracked(s, queue, inflight)
    requires item.id !in s
    ensures Tracked(s[item.id := Pending], queue + [item], inflight)
    ensures AwaitingLoading(s, queue, inflight) ==> AwaitingLoading(s[item.id := Pending], queue + [item], inflight)
  {
    var q := queue + [item];
    assert IdsOf(q) == IdsOf(queue) + {item.id};
    assert Unique(q) by {
      forall i, j | 0 <= i < j < |q| ensures q[i].id != q[j].id {
        if j == |queue| {
          assert q[i] in queue;
        } else {
          assert q[i] == queue[i] && q[j] == queue[j];
        }
      }
    }
  }

  /** Draining the queue into chunks keeps the bookkeeping: the new chunks
      carry exactly the queue's ids, pairwise disjoint and disjoint from the
      chunks already in flight. */
  lemma TrackedAfterDrain(s: Snapshot, queue: seq<QueueItem>, inflight: seq<seq<QueueItem>>, n: nat)
    requires n > 0
    requires Tracked(s, queue, inflight)
    ensures Tracked(s, [], inflight + Chunks(queue, n))
    ensures AwaitingLoading(s, queue, inflight) ==> AwaitingLoading(s, [], inflight + Chunks(queue, n))
  {
    var cs := Chunks(queue, n);
    var all := inflight + cs;
    ChunksDisjoint(queue, n);
    assert IdsOf([]) == {};
    forall k | 0 <= k < |all| ensures IdsOf(all[k]) <= s.Keys {
      if k >= |inflight| {
        assert all[k] == cs[k - |inflight|] && all[k] in cs;
      }
    }
    forall j, k | 0 <= j < k < |all| ensures IdsOf(all[j]) !! IdsOf(all[k]) {
      if k >= |inflight| {
        assert all[k] == cs[k - |inflight|] && all[k] in cs;
        if j >= |inflight| {
          assert all[j] == cs[j - |inflight|];
        }
      }
    }
    if AwaitingLoading(s, queue, inflight) {
      forall k, x | 0 <= k < |all| && x in IdsOf(all[k]) ensures x in s && s[x].loading {
        if k >= |inflight| {
          assert all[k] == cs[k - |inflight|] && all[k] in cs;
        }
      }
    }
  }

  /** Retiring a settled chunk keeps the bookkeeping, whatever the new
      snapshot, as long as no entry was removed. */
  lemma TrackedAfterSettle(s: Snapshot, s': Snapshot, queue: seq<QueueItem>, inflight: seq<seq<QueueItem>>, k: nat)
    requires Tracked(s, queue, inflight)
    requires k < |inflight|
    requires s.Keys <= s'.Keys
    ensures Tracked(s', queue, Without(inflight, k))
  {
    var rest := Without(inflight, k);
    forall i, j | 0 <= i < j < |rest| ensures IdsOf(rest[i]) !! IdsOf(rest[j]) {
      var i', j' := if i < k then i else i + 1, if j < k then j else j + 1;
      assert rest[i] == inflight[i'] && rest[j] == inflight[j'];
    }
  }

  /** A settled chunk leaves the other pending ids loading, provided their
      entries were not touched. */
  lemma AwaitingAfterSettle(s: Snapshot, s': Snapshot, queue: seq<QueueItem>, inflight: seq<seq<QueueItem>>, k: nat)
    requires AwaitingLoading(s, queue, inflight)
    requires k < |inflight|
    requires forall x | x in s && x !in IdsOf(inflight[k]) :: x in s' && s'[x] == s[x]
    requires Tracked(s, queue, inflight)
    ensures AwaitingLoading(s', queue, Without(inflight, k))
  {
    var rest := Without(inflight, k);
    forall j, x | 0 <= j < |rest| && x in IdsOf(rest[j]) ensures x in s' && s'[x].loading {
      var j' := if j < k then j else j + 1;
      assert rest[j] == inflight[j'];
      TrackedChunksDisjoint(s, queue, inflight, j', k);
    }
  }

  /** The engine. `timeout` stands for `this.timeout !== null`;
      `timerScheduled` says that the host still holds the timer callback that
      will run `processQueue` (`Fire`); `inflight` holds the chunks whose
      fetch has not settled yet, in dispatch order; `published` is every
      snapshot the store's subject has carried, oldest first. */
  class BlestService {
    const url: string
    const maxBatchSize: nat
    const bufferDelay: nat
    const httpHeaders: Js
    var queue: seq<QueueItem>
    var state: Snapshot
    ghost var published: seq<Snapshot>
    var timeout: bool
    var timerScheduled: bool
    ghost var armings: nat
    var inflight: seq<seq<QueueItem>>

    ghost predicate Valid()
      reads this
    {
      && maxBatchSize > 0
      && bufferDelay > 0
      && published != []
      && published[|published| - 1] == state
      && (timeout <==> queue != [])
      && (timerScheduled ==> timeout)
      && Tracked(state, queue, inflight)
    }

    /** The configured values, with the constructor's fallbacks. */
    constructor (url: string, maxBatchSize: Js, bufferDelay: Js, httpHeaders: Js)
      ensures Valid()
      ensures this.url == url
      ensures this.maxBatchSize == ConfigNumber(maxBatchSize, DefaultMaxBatchSize)
      ensures this.bufferDelay == ConfigNumber(bufferDelay, DefaultBufferDelay)
      ensures this.httpHeaders == ConfigHeaders(httpHeaders)
      ensures queue == [] && state == map[] && published == [map[]] && inflight == []
      ensures !timeout && !timerScheduled && armings == 0
    {
      this.url := url;
      this.maxBatchSize := ConfigNumber(maxBatchSize, DefaultMaxBatchSize);
      this.bufferDelay := ConfigNumber(bufferDelay, DefaultBufferDelay);
      this.httpHeaders := ConfigHeaders(httpHeaders);
      queue := [];
      state := map[];
      published := [map[]];
      timeout := false;
      timerScheduled := false;
      armings := 0;
      inflight := [];
    }

    /** `enqueue`: publish the id as loading, append its tuple to the queue,
        and arm the timer unless it is already armed. `id` is a fresh uuid. */
    method Enqueue(id: string, route: string, body: Js, headers: Js)
      requires Valid()
      requires id !in state
      modifies this
      ensures Valid()
      ensures EnqueueEffect(this, id, route, body, headers)
      ensures old(AwaitingLoading(state, queue, inflight)) ==> AwaitingLoading(state, queue, inflight)
    {
      var item := QueueItem(id, route, OrNull(body), OrNull(headers));
      TrackedAfterEnqueue(state, queue, inflight, item);
      var newState := state[id := Pending];
      state := newState;
      published := published + [newState];
      queue := queue + [item];
      if !timeout {
        timeout := true;
        timerScheduled := true;
        armings := armings + 1;
      }
    }

    /** `processQueue`, run when the timer fires: clear the timer; unless the
        queue is empty, drain it and dispatch one fetch per chunk of at most
        `maxBatchSize` items, in queue order. */
    method Fire()
      requires Valid()
      modifies this
      ensures Valid()
      ensures !timeout && !timerScheduled && queue == []
      ensures inflight == old(inflight) + Chunks(old(queue), maxBatchSize)
      ensures state == old(state) && published == old(published) && armings == old(armings)
      ensures old(AwaitingLoading(state, queue, inflight)) ==> AwaitingLoading(state, queue, inflight)
    {
      if timeout {
        timeout := false;
        timerScheduled := false;
      }
      if queue == [] {
        return;
      }
      TrackedAfterDrain(state, queue, inflight, maxBatchSize);
      var copy, n := queue, maxBatchSize;
      queue := [];
      var batchCount := CeilDiv(|copy|, n);
      ChunksCount(copy, n);
      // the chunks handed to fetch by this flush, in loop order
      var dispatched: seq<seq<QueueItem>> := [];
      var i := 0;
      while i < batchCount
        invariant 0 <= i <= batchCount
        invariant dispatched == Chunks(copy, n)[..i]
        modifies {}
      {
        ChunkAt(copy, n, i);
        var chunk := copy[i * n .. Min((i + 1) * n, |copy|)];
        assert Chunks(copy, n)[..i + 1] == Chunks(copy, n)[..i] + [chunk];
        dispatched := dispatched + [chunk];
        i := i + 1;
      }
      assert dispatched == Chunks(copy, n);
      inflight := inflight + dispatched;
    }

    /** The success handler of chunk `k`'s fetch: one snapshot in which every
        id the response names is settled with its data and error. */
    method Resolve(k: nat, results: seq<ResultItem>)
      requires Valid()
      requires k < |inflight|
      modifies this
      ensures Valid()
      ensures state == ApplyResults(old(state), results)
      ensures published == old(published) + [state]
      ensures inflight == Without(old(inflight), k)
      ensures queue == old(queue) && timeout == old(timeout) && timerScheduled == old(timerScheduled) && armings == old(armings)
      ensures forall x | x in old(state) && x !in ResultIds(results) :: x in state && state[x] == old(state[x])
      ensures old(AwaitingLoading(state, queue, inflight)) && ResultIds(results) <= IdsOf(old(inflight[k]))
        ==> AwaitingLoading(state, queue, inflight)
    {
      var newState := state;
      var i := 0;
      while i < |results|
        invariant 0 <= i <= |results|
        invariant newState == ApplyResults(state, results[..i])
      {
        var item := results[i];
        assert results[..i + 1][..i] == results[..i];
        newState := newState[item.id := Settled(item)];
        i := i + 1;
      }
      assert results[..i] == results;
      ApplyResultsFrame(state, results);
      TrackedAfterSettle(state, newState, queue, inflight, k);
      if AwaitingLoading(state, queue, inflight) && ResultIds(results) <= IdsOf(inflight[k]) {
        AwaitingAfterSettle(state, newState, queue, inflight, k);
      }
      state := newState;
      published := published + [newState];
      inflight := Without(inflight, k);
    }

    /** The failure handler of chunk `k`'s fetch: one snapshot in which every
        id of that chunk carries the error, and nothing else changes. */
    method Reject(k: nat, err: Js)
      requires Valid()
      requires k < |inflight|
      modifies this
      ensures Valid()
      ensures state == MarkFailed(old(state), IdSeq(old(inflight[k])), err)
      ensures published == old(published) + [state]
      ensures inflight == Without(old(inflight), k)
      ensures queue == old(queue) && timeout == old(timeout) && timerScheduled == old(timerScheduled) && armings == old(armings)
      ensures forall x | x in IdsOf(old(inflight[k])) :: x in state && state[x] == Failed(err)
      ensures forall x | x in old(state) && x !in IdsOf(old(inflight[k])) :: x in state && state[x] == old(state[x])
      ensures forall j, x | 0 <= j < |old(inflight)| && j != k && x in IdsOf(old(inflight[j])) :: state[x] == old(state[x])
      ensures old(AwaitingLoading(state, queue, inflight)) ==> AwaitingLoading(state, queue, inflight)
    {
      var chunk := inflight[k];
      var requestIds := IdSeq(chunk);
      var newState := state;
      var i := 0;
      while i < |chunk|
        invariant 0 <= i <= |chunk|
        invariant newState == MarkFailed(state, requestIds[..i], err)
      {
        assert requestIds[..i + 1][..i] == requestIds[..i];
        newState := newState[requestIds[i] := Failed(err)];
        i := i + 1;
      }
      assert requestIds[..i] == requestIds;
      MarkFailedFrame(state, requestIds, err);
      IdSeqHoldsIdsOf(chunk);
      TrackedAfterSettle(state, newState, queue, inflight, k);
      forall j, x | 0 <= j < |inflight| && j != k && x in IdsOf(inflight[j])
        ensures x in state && x !in IdsOf(chunk)
      {
        TrackedChunksDisjoint(state, queue, inflight, j, k);
      }
      if AwaitingLoading(state, queue, inflight) {
        AwaitingAfterSettle(state, newState, queue, inflight, k);
      }
      state := newState;
      published := published + [newState];
      inflight := Without(inflight, k);
    }

    /** `ngOnDestroy`: cancel the host timer if one is armed. `this.timeout`
        itself is left set, so a service destroyed while a timer was armed
        never arms one again; one destroyed with no timer pending arms on its
        next enqueue as before. */
    method Destroy()
      requires Valid()
      modifies this
      ensures Valid()
      ensures !timerScheduled
      ensures timeout == old(timeout) && queue == old(queue) && state == old(state) && published == old(published)
      ensures inflight == old(inflight) && armings == old(armings)
    {
      if timeout {
        timerScheduled := false;
      }
    }
  }

  /** What one `enqueue(id, route, body, headers)` does to the service: one
      publish, whose snapshot is the old one with `id` pending; one tuple
      appended to the queue; the timer armed only when it was unarmed; the
      in-flight chunks untouched. */
  twostate predicate EnqueueEffect(svc: BlestService, id: string, route: string, body: Js, headers: Js)
    reads svc
  {
    && svc.state == old(svc.state)[id := Pending]
    && svc.published == old(svc.published) + [svc.state]
    && svc.queue == old(svc.queue) + [QueueItem(id, route, OrNull(body), OrNull(headers))]
    && svc.timeout
    && (old(svc.timeout) ==> svc.timerScheduled == old(svc.timerScheduled) && svc.armings == old(svc.armings))
    && (!old(svc.timeout) ==> svc.timerScheduled && svc.armings == old(svc.armings) + 1)
    && svc.inflight == old(svc.inflight)
  }

  /** The service's batch size always lets a non-empty flush dispatch at least
      one chunk, and the chunks cover the drained queue exactly. */
  lemma FlushCoversQueue(config: Js, queue: seq<QueueItem>)
    requires queue != []
    ensures var n := ConfigNumber(config, DefaultMaxBatchSize);
      && CeilDiv(|queue|, n) >= 1
      && |Chunks(queue, n)| == CeilDiv(|queue|, n)
      && Flatten(Chunks(queue, n)) == queue
  {
    var n := ConfigNumber(config, DefaultMaxBatchSize);
    ChunksCount(queue, n);
    ChunksFlatten(queue, n);
  }

  /** `maxBatchSize: Infinity` passes the constructor's test as written, and
      `Math.ceil(length / Infinity)` is 0: the flush then empties the queue
      and its loop dispatches no chunk, so every drained id stays loading. */
  lemma InfiniteBatchSizeDispatchesNothing(len: nat)
    requires len > 0
    ensures ConfigNumberAsWritten(Num(PosInfinity), DefaultMaxBatchSize) == PosInfinity
    ensures BatchCountAsWritten(len, PosInfinity) == Finite(0.0)
  {
  }
}
