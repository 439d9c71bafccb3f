/** Per-post A/B-test state of inc/namespace.php: the post meta a test keeps
    (`_altis_ab_test_<test>_<field>`), how each getter reads it back, and the
    predicates built on those getters. Post meta is a map from key to value;
    a missing key reads as the empty string, as `get_post_meta( ..., true )` does. */
module AbTestState {
  import opened Common

  const DAY_MS: int := 24 * 60 * 60 * 1000
  /** Default test length when no end time is stored: 30 days. */
  const DEFAULT_DURATION_MS: int := 30 * DAY_MS

  /** The meta fields of one test on one post. */
  datatype Field = Variants | StartTime | EndTime | Started | TrafficPercentage | TestResults | Paused

  datatype MetaKey = MetaKey(postId: int, testId: string, field: Field)

  /** `false` (no variant) or a variant index, as `winning` and `winner` hold them. */
  datatype Pick = NoPick | Pick(index: int)

  /** One bucket of the terms aggregation on the test attribute: its key (the
      variant index), the impressions cardinality and the conversions count, each
      possibly absent from the response. */
  datatype Bucket = Bucket(key: int, impressions: Option<int>, conversions: Option<int>)

  /** A slot of the stored aggregations: `[]` for a variant without a bucket. */
  datatype Agg = EmptySlot | Filled(bucket: Bucket)

  /** Per-variant statistics: value, sample size, hits, conversion rate, p-value. */
  datatype Stat = Stat(value: Option<string>, size: int, hits: int, rate: real, p: Option<real>)

  /** The stored results array; each known key may be absent, and `other` says
      whether the array holds further entries (a cast of a non-array value does). */
  datatype Results = Results(
    timestamp: Option<int>,
    winning: Option<Pick>,
    winner: Option<Pick>,
    aggs: Option<seq<Agg>>,
    variants: Option<seq<Stat>>,
    other: bool)

  /** A stored meta value. */
  datatype MetaValue =
    | Text(s: string)
    | Number(n: int)
    | Flag(b: bool)
    | List(items: seq<string>)
    | Snapshot(results: Results)

  type Meta = map<MetaKey, MetaValue>

  /** `get_post_meta( $post_id, $key, true )`: the empty string when missing. */
  function Read(meta: Meta, key: MetaKey): MetaValue {
    if key in meta then meta[key] else Text("")
  }

  /** PHP's `(int)` cast of a stored value. */
  function IntCast(v: MetaValue): int {
    match v
    case Text(s) => ParseInt(s).GetOr(0)
    case Number(n) => n
    case Flag(b) => if b then 1 else 0
    case List(items) => if items == [] then 0 else 1
    case Snapshot(r) => if EmptyResults(r) then 0 else 1
  }

  /** PHP's `(bool)` cast of a stored value. */
  predicate BoolCast(v: MetaValue) {
    match v
    case Text(s) => !PhpFalsy(s)
    case Number(n) => n != 0
    case Flag(b) => b
    case List(items) => items != []
    case Snapshot(r) => !EmptyResults(r)
  }

  /** PHP's `empty()` of a results array. */
  predicate EmptyResults(r: Results) {
    r.timestamp.None? && r.winning.None? && r.winner.None? && r.aggs.None? && r.variants.None? && !r.other
  }

  /** PHP's `(array)` cast: a results array is kept, anything else becomes a
      one-element array holding the value (an empty list stays empty). */
  function ArrayCast(v: MetaValue): (r: Results)
    ensures EmptyResults(r) <==> (v.Snapshot? && EmptyResults(v.results)) || v == List([])
  {
    match v
    case Snapshot(r) => r
    case List(items) => Results(None, None, None, None, None, items != [])
    case _ => Results(None, None, None, None, None, true)
  }

  function GetVariants(meta: Meta, testId: string, postId: int): seq<string> {
    var v := Read(meta, MetaKey(postId, testId, Variants));
    if BoolCast(v) && v.List? then v.items else []
  }

  function GetStartTime(meta: Meta, testId: string, postId: int, now: int): (t: int)
    ensures t != 0 || now == 0
  {
    var stored := IntCast(Read(meta, MetaKey(postId, testId, StartTime)));
    if stored != 0 then stored else now
  }

  function GetEndTime(meta: Meta, testId: string, postId: int, now: int): (t: int)
    ensures t != 0 || now + DEFAULT_DURATION_MS == 0
  {
    var stored := IntCast(Read(meta, MetaKey(postId, testId, EndTime)));
    if stored != 0 then stored else now + DEFAULT_DURATION_MS
  }

  predicate IsStarted(meta: Meta, testId: string, postId: int) {
    BoolCast(Read(meta, MetaKey(postId, testId, Started)))
  }

  function GetTrafficPercentage(meta: Meta, testId: string, postId: int): int {
    IntCast(Read(meta, MetaKey(postId, testId, TrafficPercentage)))
  }

  function GetResults(meta: Meta, testId: string, postId: int): Results {
    ArrayCast(Read(meta, MetaKey(postId, testId, TestResults)))
  }

  /** Paused unless the stored value is exactly the string 'false'. */
  predicate IsPaused(meta: Meta, testId: string, postId: int) {
    Read(meta, MetaKey(postId, testId, Paused)) != Text("false")
  }

  /** The value `update_is_ab_test_paused_for_post` stores. */
  function PausedText(paused: bool): MetaValue {
    Text(if paused then "true" else "false")
  }

  predicate IsRunning(meta: Meta, testId: string, postId: int, now: int) {
    && GetVariants(meta, testId, postId) != []
    && IsStarted(meta, testId, postId)
    && !IsPaused(meta, testId, postId)
    && GetStartTime(meta, testId, postId, now) <= now
    && GetEndTime(meta, testId, postId, now) > now
  }

  /** Running means: variants present, started, not paused, and start <= now < end. */
  lemma RunningMeans(meta: Meta, testId: string, postId: int, now: int)
    ensures IsRunning(meta, testId, postId, now) <==>
      var start := IntCast(Read(meta, MetaKey(postId, testId, StartTime)));
      var end := IntCast(Read(meta, MetaKey(postId, testId, EndTime)));
      && GetVariants(meta, testId, postId) != []
      && IsStarted(meta, testId, postId)
      && Read(meta, MetaKey(postId, testId, Paused)) == Text("false")
      && (start == 0 || start <= now)
      && (if end == 0 then DEFAULT_DURATION_MS > 0 else end > now)
  {
  }

  /** A post that never stored the paused flag reads as paused, so it is not running. */
  lemma NeverPausedReadsPaused(meta: Meta, testId: string, postId: int, now: int)
    requires MetaKey(postId, testId, Paused) !in meta
    ensures IsPaused(meta, testId, postId) && !IsRunning(meta, testId, postId, now)
  {
  }

  /** Writing the paused flag and reading it back gives the flag written, and
      leaves every other test field as it was. */
  lemma PausedRoundTrip(meta: Meta, testId: string, postId: int, paused: bool, now: int)
    ensures var m := meta[MetaKey(postId, testId, Paused) := PausedText(paused)];
      && IsPaused(m, testId, postId) == paused
      && GetVariants(m, testId, postId) == GetVariants(meta, testId, postId)
      && GetResults(m, testId, postId) == GetResults(meta, testId, postId)
      && GetEndTime(m, testId, postId, now) == GetEndTime(meta, testId, postId, now)
  {
  }

  /** Without a stored start or end time the window is [now, now + 30 days). */
  lemma DefaultWindow(meta: Meta, testId: string, postId: int, now: int)
    requires MetaKey(postId, testId, StartTime) !in meta
    requires MetaKey(postId, testId, EndTime) !in meta
    ensures GetStartTime(meta, testId, postId, now) == now
    ensures GetEndTime(meta, testId, postId, now) == now + DEFAULT_DURATION_MS
  {
    assert ParseInt("") == None;
  }
}
