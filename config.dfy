/** Construction-time configuration of the service and the per-request header
    object: the constructor's fallbacks for `maxBatchSize`, `bufferDelay` and
    `httpHeaders`, and `makeBlestHeaders` of the compiled revision. */
module Config {
  import opened JsValues

  const DefaultMaxBatchSize: nat := 25
  const DefaultBufferDelay: nat := 10

  /** `Math.round` on a finite number: the nearest integer, halves rounded up. */
  function Round(r: real): int {
    (r + 0.5).Floor
  }

  /** The intended meaning of the constructor's test: a finite, positive, whole number. */
  predicate IsPositiveInteger(v: Js) {
    v.Num? && v.n.Finite? && v.n.r > 0.0 && v.n.r.Floor as real == v.n.r
  }

  /** The constructor's test as written:
      `x && typeof x === 'number' && x > 0 && Math.round(x) === x`.
      `Math.round(Infinity)` is `Infinity`, so positive infinity passes;
      NaN and negative infinity fail `x > 0`. */
  predicate PassesConfigTest(v: Js) {
    Truthy(v) && v.Num? &&
    match v.n
    case Finite(r) => r > 0.0 && Round(r) as real == r
    case PosInfinity => true
    case NegInfinity => false
    case NaN => false
  }

  /** `Math.round(r) === r` holds exactly for whole numbers. */
  lemma RoundFixesExactlyIntegers(r: real)
    ensures Round(r) as real == r <==> r.Floor as real == r
  {
    if r.Floor as real == r {
      assert r + 0.5 == r.Floor as real + 0.5;
      assert (r + 0.5).Floor == r.Floor;
    }
  }

  /** For a finite number the test as written is exactly the intended one. */
  lemma FiniteTestIsPositiveInteger(v: Js)
    ensures v.Num? && v.n.Finite? ==> (PassesConfigTest(v) <==> IsPositiveInteger(v))
  {
    if v.Num? && v.n.Finite? {
      RoundFixesExactlyIntegers(v.n.r);
    }
  }

  /** The constructor's expression for a numeric option exactly as written:
      the configured value when it passes the test, else the default. */
  function ConfigNumberAsWritten(v: Js, default: nat): Number {
    if PassesConfigTest(v) then v.n else Finite(default as real)
  }

  /** The numeric option as the service uses it: the test as written with
      positive infinity also sent to the default. The result is always a
      positive whole number, equal to the configured value exactly when that
      value is a positive integer. */
  function ConfigNumber(v: Js, default: nat): (r: nat)
    requires default > 0
    ensures r > 0
    ensures IsPositiveInteger(v) ==> r as real == v.n.r
    ensures !IsPositiveInteger(v) ==> r == default
  {
    FiniteTestIsPositiveInteger(v);
    if PassesConfigTest(v) && v.n.Finite? then v.n.r.Floor else default
  }

  /** The service's numeric option differs from the expression as written only
      for positive infinity. */
  lemma ConfigNumberMatchesSource(v: Js, default: nat)
    requires default > 0
    requires v != Num(PosInfinity)
    ensures ConfigNumberAsWritten(v, default) == Finite(ConfigNumber(v, default) as real)
  {
    FiniteTestIsPositiveInteger(v);
  }

  /** `httpHeaders` falls back to `{}` unless it is a truthy value whose
      `typeof` is `'object'` (an object or an array). */
  function ConfigHeaders(v: Js): (r: Js)
    ensures r.Rec? || r.Arr?
    ensures (v.Rec? || v.Arr?) ==> r == v
    ensures !(v.Rec? || v.Arr?) ==> r == EmptyObject
  {
    if Truthy(v) && (v.Rec? || v.Arr?) then v else EmptyObject
  }

  /** The `options` argument of `request` and `lazyRequest`: `Absent` for a
      missing or falsy argument; otherwise its `select` and `skip` properties
      (`Undefined` when the object does not have them). */
  datatype RequestOptions = Absent | Options(select: Js, skip: Js)

  /** `makeBlestHeaders(options)`: `{}` without options, and `{_s: select}`
      when `select` is an array. */
  function MakeBlestHeaders(options: RequestOptions): (r: Js)
    ensures r.Rec? && r.fields.Keys <= {"_s"}
    ensures "_s" in r.fields <==> options.Options? && options.select.Arr?
    ensures "_s" in r.fields ==> r.fields["_s"] == options.select
  {
    if options.Absent? then EmptyObject
    else if Truthy(options.select) && options.select.Arr? then Rec(map["_s" := options.select])
    else EmptyObject
  }

  /** `options?.skip` is truthy: `request` then enqueues nothing. */
  predicate Skips(options: RequestOptions) {
    options.Options? && Truthy(options.skip)
  }
}
