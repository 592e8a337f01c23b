/** The pending-queue items and the batch-splitting policy of `processQueue`:
    a drained queue of length L becomes ceil(L / maxBatchSize) consecutive
    chunks, one network call each. */
module Batching {
  import opened JsValues

  /** One queued call, the wire tuple `[id, route, body || null, headers || null]`. */
  datatype QueueItem = QueueItem(id: string, route: string, body: Js, headers: Js)

  /** The request ids of a run of queue items. */
  function IdsOf(items: seq<QueueItem>): set<string> {
    set it | it in items :: it.id
  }

  /** No request id occurs twice. */
  ghost predicate Unique(items: seq<QueueItem>) {
    forall i, j | 0 <= i < j < |items| :: items[i].id != items[j].id
  }

  function Min(a: int, b: int): int {
    if a <= b then a else b
  }

  /** `Math.ceil(a / n)` for whole numbers, n > 0: the least multiple count of n covering a. */
  function CeilDiv(a: nat, n: nat): (r: nat)
    requires n > 0
    ensures a <= r * n < a + n
  {
    var r := (a + n - 1) / n;
    assert (a + n - 1) == r * n + (a + n - 1) % n;
    r
  }

  /** `Math.ceil(x)` on a finite number. */
  function CeilReal(x: real): (r: int)
    ensures r as real - 1.0 < x <= r as real
  {
    if x.Floor as real == x then x.Floor else x.Floor + 1
  }

  /** The reference splitting: the first n items, then the chunks of the rest. */
  function Chunks<T>(q: seq<T>, n: nat): seq<seq<T>>
    requires n > 0
    decreases |q|
  {
    if q == [] then []
    else if |q| <= n then [q]
    else [q[..n]] + Chunks(q[n..], n)
  }

  /** Concatenation of a sequence of chunks. */
  function Flatten<T>(cs: seq<seq<T>>): seq<T> {
    if cs == [] then [] else cs[0] + Flatten(cs[1..])
  }

  lemma {:induction false} FlattenAppend<T>(a: seq<seq<T>>, b: seq<seq<T>>)
    ensures Flatten(a + b) == Flatten(a) + Flatten(b)
  {
    if a == [] {
      assert a + b == b;
    } else {
      assert (a + b)[0] == a[0];
      assert (a + b)[1..] == a[1..] + b;
      FlattenAppend(a[1..], b);
    }
  }

  /** CeilDiv(a, n) is the only count r with a <= r * n < a + n. */
  lemma CeilDivUnique(a: nat, n: nat, r: nat)
    requires n > 0
    requires a <= r * n < a + n
    ensures r == CeilDiv(a, n)
  {
    var c := CeilDiv(a, n);
    if r > c {
      MulMono(c + 1, r, n);
    } else if r < c {
      MulMono(r + 1, c, n);
    }
  }

  lemma {:induction false} MulMono(x: int, y: int, n: nat)
    requires x <= y
    ensures x * n <= y * n
    decreases y - x
  {
    if x < y {
      MulMono(x, y - 1, n);
      assert y * n == (y - 1) * n + n;
    }
  }

  /** Removing n items removes one chunk's worth from the count. */
  lemma CeilDivStep(a: nat, n: nat)
    requires 0 < n < a
    ensures CeilDiv(a, n) == CeilDiv(a - n, n) + 1
  {
    var r := CeilDiv(a - n, n);
    assert (r + 1) * n == r * n + n;
    CeilDivUnique(a, n, r + 1);
  }

  /** There are exactly ceil(|q| / n) chunks. */
  lemma {:induction false} ChunksCount<T>(q: seq<T>, n: nat)
    requires n > 0
    ensures |Chunks(q, n)| == CeilDiv(|q|, n)
    decreases |q|
  {
    if q == [] {
      CeilDivUnique(0, n, 0);
    } else if |q| <= n {
      CeilDivUnique(|q|, n, 1);
    } else {
      ChunksCount(q[n..], n);
      CeilDivStep(|q|, n);
    }
  }

  /** Every chunk is non-empty and holds at most n items. */
  lemma {:induction false} ChunksBounded<T>(q: seq<T>, n: nat)
    requires n > 0
    ensures forall c | c in Chunks(q, n) :: 0 < |c| <= n
    decreases |q|
  {
    if |q| > n {
      ChunksBounded(q[n..], n);
    }
  }

  /** The chunks concatenate back to the drained queue: nothing is lost,
      duplicated or reordered. */
  lemma {:induction false} ChunksFlatten<T>(q: seq<T>, n: nat)
    requires n > 0
    ensures Flatten(Chunks(q, n)) == q
    decreases |q|
  {
    if q == [] {
    } else if |q| <= n {
      assert Flatten([q]) == q + Flatten<T>([]);
    } else {
      ChunksFlatten(q[n..], n);
      FlattenAppend([q[..n]], Chunks(q[n..], n));
      assert Flatten([q[..n]]) == q[..n] + Flatten<T>([]);
      assert q == q[..n] + q[n..];
    }
  }

  /** Chunk i is the slice `q.slice(i * n, (i + 1) * n)` that the loop of
      `processQueue` takes, and starts inside the queue. */
  lemma {:induction false} ChunkAt<T>(q: seq<T>, n: nat, i: nat)
    requires n > 0
    requires i < |Chunks(q, n)|
    ensures i * n < |q|
    ensures Chunks(q, n)[i] == q[i * n .. Min((i + 1) * n, |q|)]
    decreases |q|
  {
    if |q| > n && i > 0 {
      ChunkAt(q[n..], n, i - 1);
      assert (i - 1) * n + n == i * n;
      assert i * n + n == (i + 1) * n;
      assert q[n..][(i - 1) * n .. Min(i * n, |q| - n)] == q[i * n .. Min((i + 1) * n, |q|)];
    }
  }

  /** Splitting a queue with distinct ids gives chunks whose id sets are
      pairwise disjoint and drawn from the queue. */
  lemma {:induction false} ChunksDisjoint(q: seq<QueueItem>, n: nat)
    requires n > 0
    requires Unique(q)
    ensures forall c | c in Chunks(q, n) :: IdsOf(c) <= IdsOf(q)
    ensures forall j, k | 0 <= j < k < |Chunks(q, n)| :: IdsOf(Chunks(q, n)[j]) !! IdsOf(Chunks(q, n)[k])
    decreases |q|
  {
    if |q| > n {
      var head, rest := q[..n], q[n..];
      assert Unique(rest) by {
        forall i, j | 0 <= i < j < |rest| ensures rest[i].id != rest[j].id {
          assert rest[i] == q[i + n] && rest[j] == q[j + n];
        }
      }
      ChunksDisjoint(rest, n);
      assert IdsOf(head) !! IdsOf(rest);
      assert IdsOf(head) <= IdsOf(q);
      assert IdsOf(rest) <= IdsOf(q);
      var cs := Chunks(q, n);
      assert cs == [head] + Chunks(rest, n);
      forall j, k | 0 <= j < k < |cs| ensures IdsOf(cs[j]) !! IdsOf(cs[k]) {
        if j > 0 {
          assert cs[j] == Chunks(rest, n)[j - 1] && cs[k] == Chunks(rest, n)[k - 1];
        } else {
          assert cs[k] == Chunks(rest, n)[k - 1];
          assert cs[k] in Chunks(rest, n);
        }
      }
    }
  }

  /** `Math.ceil(copyQueue.length / this.maxBatchSize)` as `processQueue`
      computes it on JavaScript numbers; the loop over chunks runs while
      `i < batchCount`. */
  function BatchCountAsWritten(len: nat, size: Number): Number {
    match size
    case Finite(d) =>
      if d == 0.0 then (if len == 0 then NaN else PosInfinity)
      else Finite(CeilReal(len as real / d) as real)
    case PosInfinity => Finite(0.0)
    case NegInfinity => Finite(0.0)
    case NaN => NaN
  }

  /** For a positive whole batch size the floating-point ceiling agrees with
      the integer one the model uses. */
  lemma BatchCountAgrees(len: nat, n: nat)
    requires n > 0
    ensures BatchCountAsWritten(len, Finite(n as real)) == Finite(CeilDiv(len, n) as real)
  {
    var c := CeilDiv(len, n);
    var cn := c * n;
    assert len <= cn < len + n;
    CastMul(c, n);
    assert len as real <= cn as real < len as real + n as real;
    QuotientBounds(len as real, n as real, c as real);
    var x := len as real / n as real;
    var r := CeilReal(x);
    assert r == c;
  }

  lemma CastMul(a: int, b: int)
    ensures (a * b) as real == a as real * b as real
  {
  }

  lemma MulNonneg(u: real, v: real)
    requires u >= 0.0 && v >= 0.0
    ensures u * v >= 0.0
  {
  }

  lemma QuotientBounds(a: real, d: real, c: real)
    requires d > 0.0
    requires a <= c * d < a + d
    ensures c - 1.0 < a / d <= c
  {
    var x := a / d;
    assert a == x * d;
    if x > c {
      MulNonneg(x - c, d);
    }
    if x <= c - 1.0 {
      MulNonneg(c - x - 1.0, d);
    }
  }
}
