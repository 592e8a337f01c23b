/** The correlated state store: immutable snapshots from request id to
    outcome, the two demultiplexers that build the next snapshot when a
    chunk's fetch settles, and the per-id view subscribers derive from the
    stream of snapshots. */
module Store {
  import opened JsValues

  /** `{loading, error, data}` for one request id. */
  datatype Outcome = Outcome(loading: bool, error: Js, data: Js)

  /** One published value of the store. */
  type Snapshot = map<string, Outcome>

  /** What `enqueue` records for a request just queued. */
  const Pending: Outcome := Outcome(true, Null, Null)

  /** The synthetic outcome a view shows for an id with no entry. */
  const Idle: Outcome := Outcome(false, Null, Null)

  /** One element of a batch response, `[id, route, data, error]`; the engine
      reads positions 0, 2 and 3 only. */
  datatype ResultItem = ResultItem(id: string, route: Js, data: Js, error: Js)

  /** The outcome the success path records for one response item. */
  function Settled(item: ResultItem): Outcome {
    Outcome(false, item.error, item.data)
  }

  /** The outcome the failure path records for every id of a chunk. */
  function Failed(err: Js): Outcome {
    Outcome(false, err, Null)
  }

  /** The ids a batch response names. */
  function ResultIds(results: seq<ResultItem>): set<string> {
    set it | it in results :: it.id
  }

  // ---------------------------------------------------------------------
  // Success path

  /** The snapshot the success handler publishes: starting from `s`, each
      response item in turn overwrites the entry of its id. */
  function ApplyResults(s: Snapshot, results: seq<ResultItem>): Snapshot
    decreases |results|
  {
    if results == [] then s
    else
      var last := results[|results| - 1];
      ApplyResults(s, results[..|results| - 1])[last.id := Settled(last)]
  }

  /** Position of the last response item for `id`: the one whose values win. */
  function LastFor(results: seq<ResultItem>, id: string): (i: nat)
    requires id in ResultIds(results)
    ensures i < |results| && results[i].id == id
    ensures forall j | i < j < |results| :: results[j].id != id
    decreases |results|
  {
    var k := |results| - 1;
    if results[k].id == id then k
    else
      assert id in ResultIds(results[..k]) by {
        var it :| it in results && it.id == id;
        var p :| 0 <= p < |results| && results[p] == it;
        assert results[..k][p] == it;
      }
      LastFor(results[..k], id)
  }

  /** The success handler writes exactly the ids the response names, each
      with the data and error of the last item naming it; every other entry
      of the snapshot is kept as it was. An id of the chunk that the response
      leaves out therefore keeps its outcome (still loading). */
  lemma {:induction false} ApplyResultsAt(s: Snapshot, results: seq<ResultItem>, x: string)
    ensures var r := ApplyResults(s, results);
      && (x in r <==> x in s || x in ResultIds(results))
      && (x in ResultIds(results) ==> r[x] == Settled(results[LastFor(results, x)]))
      && (x !in ResultIds(results) && x in s ==> r[x] == s[x])
    decreases |results|
  {
    if results != [] {
      var k := |results| - 1;
      var init := results[..k];
      ApplyResultsAt(s, init, x);
      assert results == init + [results[k]];
      assert ResultIds(results) == ResultIds(init) + {results[k].id};
    }
  }

  /** Corollary: keys outside the response are untouched, and the keys of
      the store only grow. */
  lemma ApplyResultsFrame(s: Snapshot, results: seq<ResultItem>)
    ensures var r := ApplyResults(s, results);
      && r.Keys == s.Keys + ResultIds(results)
      && forall x | x in s && x !in ResultIds(results) :: r[x] == s[x]
  {
    var r := ApplyResults(s, results);
    forall x ensures (x in r <==> x in s || x in ResultIds(results)) && (x in s && x !in ResultIds(results) ==> r[x] == s[x]) {
      ApplyResultsAt(s, results, x);
    }
  }

  // ---------------------------------------------------------------------
  // Failure path

  /** The snapshot the failure handler publishes: every id of the chunk, in
      chunk order, is set to the failed outcome. */
  function MarkFailed(s: Snapshot, ids: seq<string>, err: Js): Snapshot
    decreases |ids|
  {
    if ids == [] then s
    else MarkFailed(s, ids[..|ids| - 1], err)[ids[|ids| - 1] := Failed(err)]
  }

  /** The failure handler marks exactly the chunk's ids as failed with the
      one error, and keeps every other entry of the snapshot. */
  lemma {:induction false} MarkFailedAt(s: Snapshot, ids: seq<string>, err: Js, x: string)
    ensures var r := MarkFailed(s, ids, err);
      && (x in r <==> x in s || x in ids)
      && (x in ids ==> r[x] == Failed(err))
      && (x !in ids && x in s ==> r[x] == s[x])
    decreases |ids|
  {
    if ids != [] {
      var k := |ids| - 1;
      MarkFailedAt(s, ids[..k], err, x);
      assert ids == ids[..k] + [ids[k]];
    }
  }

  /** Corollary over all keys. */
  lemma MarkFailedFrame(s: Snapshot, ids: seq<string>, err: Js)
    ensures var r := MarkFailed(s, ids, err);
      && r.Keys == s.Keys + (set x | x in ids)
      && (forall x | x in ids :: r[x] == Failed(err))
      && (forall x | x in s && x !in ids :: r[x] == s[x])
  {
    var r := MarkFailed(s, ids, err);
    forall x ensures (x in r <==> x in s || x in ids) && (x in ids ==> r[x] == Failed(err)) && (x in s && x !in ids ==> r[x] == s[x]) {
      MarkFailedAt(s, ids, err, x);
    }
  }

  // ---------------------------------------------------------------------
  // Per-id view

  /** What a subscriber keyed to `id` sees in snapshot `s`. */
  function View(s: Snapshot, id: string): (o: Outcome)
    ensures id in s ==> o == s[id]
    ensures id !in s ==> o == Outcome(false, Null, Null)
  {
    if id in s then s[id] else Idle
  }

  /** `distinctUntilChanged`: drop every value equal to the one emitted just
      before it. */
  function Distinct(xs: seq<Outcome>): seq<Outcome>
    decreases |xs|
  {
    if xs == [] then []
    else
      var d := Distinct(xs[..|xs| - 1]);
      var x := xs[|xs| - 1];
      if d != [] && d[|d| - 1] == x then d else d + [x]
  }

  /** No two consecutive emissions are equal. */
  ghost predicate NoRepeats(d: seq<Outcome>) {
    forall i | 0 < i < |d| :: d[i] != d[i - 1]
  }

  /** What `distinctUntilChanged` emits: nothing twice in a row, only values
      from its input, the input's first value first, and, once the input
      settles, its latest value last. */
  lemma {:induction false} DistinctSpec(xs: seq<Outcome>)
    ensures var d := Distinct(xs);
      && NoRepeats(d)
      && |d| <= |xs|
      && (forall o | o in d :: o in xs)
      && (xs != [] ==> d != [] && d[0] == xs[0] && d[|d| - 1] == xs[|xs| - 1])
    decreases |xs|
  {
    if xs != [] {
      var init := xs[..|xs| - 1];
      DistinctSpec(init);
      assert forall o | o in init :: o in xs;
      if init != [] {
        assert xs[0] == init[0];
      }
    }
  }

  /** The forward reading of `distinctUntilChanged`: the values of `ys`
      that differ from the value just before them, `prev` being the value
      before `ys[0]`. */
  function KeepChanged(prev: Outcome, ys: seq<Outcome>): seq<Outcome>
    decreases |ys|
  {
    if ys == [] then []
    else (if ys[0] == prev then [] else [ys[0]]) + KeepChanged(ys[0], ys[1..])
  }

  /** The first value, then every value that differs from its predecessor. */
  function Changes(xs: seq<Outcome>): seq<Outcome> {
    if xs == [] then [] else [xs[0]] + KeepChanged(xs[0], xs[1..])
  }

  /** Appending one value to the forward filter keeps it exactly when it
      differs from the value before it. */
  lemma {:induction false} KeepChangedSnoc(prev: Outcome, ys: seq<Outcome>, y: Outcome)
    ensures KeepChanged(prev, ys + [y])
      == KeepChanged(prev, ys) + (if y == ([prev] + ys)[|ys|] then [] else [y])
    decreases |ys|
  {
    if ys == [] {
      assert [y][1..] == [];
    } else {
      assert (ys + [y])[0] == ys[0];
      assert (ys + [y])[1..] == ys[1..] + [y];
      KeepChangedSnoc(ys[0], ys[1..], y);
      assert ([ys[0]] + ys[1..])[|ys| - 1] == ([prev] + ys)[|ys|];
    }
  }

  /** Appending one value to a non-empty input: the forward filter keeps it
      exactly when it differs from the input's last value. */
  lemma ChangesSnoc(xs: seq<Outcome>, x: Outcome)
    requires xs != []
    ensures Changes(xs + [x]) == Changes(xs) + (if x == xs[|xs| - 1] then [] else [x])
  {
    var k := |xs| - 1;
    assert (xs + [x])[0] == xs[0];
    assert (xs + [x])[1..] == xs[1..] + [x];
    KeepChangedSnoc(xs[0], xs[1..], x);
    assert ([xs[0]] + xs[1..])[k] == xs[k];
  }

  /** The last emission of `distinctUntilChanged` is the latest input. */
  lemma {:induction false} DistinctLast(xs: seq<Outcome>)
    requires xs != []
    ensures Distinct(xs) != [] && Distinct(xs)[|Distinct(xs)| - 1] == xs[|xs| - 1]
  {
  }

  /** `distinctUntilChanged` emits exactly the first value and every value
      that differs from the one before it, in input order: a change is never
      swallowed and a repeat is never emitted. */
  lemma {:induction false} DistinctIsChanges(xs: seq<Outcome>)
    ensures Distinct(xs) == Changes(xs)
    decreases |xs|
  {
    if xs != [] {
      var k := |xs| - 1;
      var init := xs[..k];
      assert xs == init + [xs[k]];
      DistinctIsChanges(init);
      if init != [] {
        DistinctLast(init);
        ChangesSnoc(init, xs[k]);
      }
    }
  }

  /** The per-id view stream: the view of every published snapshot, with
      consecutive duplicates suppressed. */
  function ViewStream(snapshots: seq<Snapshot>, id: string): seq<Outcome> {
    Distinct(seq(|snapshots|, i requires 0 <= i < |snapshots| => View(snapshots[i], id)))
  }

  /** A constant input is emitted once. */
  lemma {:induction false} DistinctOfConstant(xs: seq<Outcome>, o: Outcome)
    requires xs != []
    requires forall i | 0 <= i < |xs| :: xs[i] == o
    ensures Distinct(xs) == [o]
    decreases |xs|
  {
    var k := |xs| - 1;
    if k > 0 {
      DistinctOfConstant(xs[..k], o);
    } else {
      assert xs[..k] == [];
    }
  }

  /** A view keyed to an id that no snapshot holds (a skipped request, or a
      lazy request before its first execute) emits the default outcome once
      and then never changes. */
  lemma ViewStreamOfAbsentId(snapshots: seq<Snapshot>, id: string)
    requires snapshots != []
    requires forall s | s in snapshots :: id !in s
    ensures ViewStream(snapshots, id) == [Idle]
  {
    var views := seq(|snapshots|, i requires 0 <= i < |snapshots| => View(snapshots[i], id));
    forall i | 0 <= i < |views| ensures views[i] == Idle {
      assert snapshots[i] in snapshots;
    }
    DistinctOfConstant(views, Idle);
  }
}
