/** The stateful side of inc/namespace.php: the registry of tests, the post
    meta they keep, the completed-results records, the actions fired, and the
    cron queue. `now` (milliseconds), the Elasticsearch response, the Binomial pmf
    and `merge_aggregates` are inputs. */
module AbTestSite {
  import opened Common
  import opened AbTestState
  import opened AbTestAnalysis

  const POSTS_PER_PAGE: int := 50
  const ENDED_ACTION: string := "altis.experiments.test.ended"
  const WINNER_FOUND_ACTION: string := "altis.experiments.test.winner_found"

  /** Extra arguments passed through to a variant callback. */
  type Args = map<string, string>

  /** A `query_filter` / `goal_filter` option: a fixed value (an array or not), or
      a callback of (test id, post id) whose result is an array or not. Only
      whether the filter is an array matters to the flow modelled here. */
  datatype FilterOption = Fixed(isArray: bool) | Callback(returnsArray: (string, int) -> bool)

  /** A registered test after defaults are applied. `winnerCallable` says
      whether its `winner_callback` is set and callable. */
  datatype TestDef = TestDef(
    name: string,
    restField: string,
    restType: string,
    goal: string,
    variantCallback: (string, int, Args) -> string,
    winnerCallable: bool,
    queryFilter: FilterOption,
    goalFilter: FilterOption)

  /** The options given to `register_post_ab_test`; each may be left out. Of a
      given `winner_callback` only whether it is callable is kept. */
  datatype Options = Options(
    name: Option<string>,
    restField: Option<string>,
    restType: Option<string>,
    goal: Option<string>,
    variantCallback: Option<(string, int, Args) -> string>,
    winnerCallable: Option<bool>,
    queryFilter: Option<FilterOption>,
    goalFilter: Option<FilterOption>)

  /** An action fired with `do_action`, or a call of the test's winner callback. */
  datatype Event =
    | Action(hook: string, testArg: Option<string>, postId: int)
    | WinnerCallback(testId: string, value: Option<string>, postId: int)

  /** A `_completed` record added to the post. */
  datatype Completed = Completed(postId: int, testId: string, timestamp: int, winner: Pick, variants: seq<Stat>)

  /** A queued single run of the cron handler for one page. */
  datatype CronRun = CronRun(testId: string, page: int)

  /** The Elasticsearch request, reduced to the parts this model follows: the
      test attribute, the timestamp cursor and the goal event type. */
  datatype Request = Request(attribute: string, since: int, goalEvent: string, testId: string, postId: int)

  /** The aggregation response: the latest event timestamp and the variant buckets. */
  datatype Response = Response(maxTimestamp: Option<int>, buckets: Option<seq<Bucket>>)

  type Fetch = Request -> Response
  type Merge = (seq<Agg>, map<int, Agg>) -> seq<Agg>

  /** How a run of `process_post_ab_test_result` ended. `UnregisteredTest` is
      the TypeError `get_post_ab_test` throws for an id with no registered
      test (its `array` return type refuses null). */
  datatype Outcome =
    | UnregisteredTest
    | Ended
    | NotRunning
    | QueryFilterNotArray
    | GoalFilterNotArray
    | NoData
    | Updated(results: Results)

  /** The options merged over the defaults of `register_post_ab_test`. */
  function WithDefaults(testId: string, o: Options): (d: TestDef)
    ensures o.name.None? ==> d.name == testId
    ensures o.restField.None? ==> d.restField == "ab_test_" + testId
    ensures o.restType.None? ==> d.restType == "string"
    ensures o.goal.None? ==> d.goal == "click"
    ensures o.variantCallback.None? ==> forall v, p, a :: d.variantCallback(v, p, a) == v
    ensures o.winnerCallable.None? ==> d.winnerCallable
    ensures o.queryFilter.None? ==> d.queryFilter == Fixed(true)
    ensures o.goalFilter.None? ==> d.goalFilter == Fixed(true)
    ensures o.name.Some? ==> d.name == o.name.value
    ensures o.restField.Some? ==> d.restField == o.restField.value
    ensures o.restType.Some? ==> d.restType == o.restType.value
    ensures o.goal.Some? ==> d.goal == o.goal.value
    ensures o.variantCallback.Some? ==> d.variantCallback == o.variantCallback.value
    ensures o.winnerCallable.Some? ==> d.winnerCallable == o.winnerCallable.value
    ensures o.queryFilter.Some? ==> d.queryFilter == o.queryFilter.value
    ensures o.goalFilter.Some? ==> d.goalFilter == o.goalFilter.value
  {
    TestDef(
      o.name.GetOr(testId),
      o.restField.GetOr("ab_test_" + testId),
      o.restType.GetOr("string"),
      o.goal.GetOr("click"),
      o.variantCallback.GetOr((v, p, a) => v),
      o.winnerCallable.GetOr(true),
      o.queryFilter.GetOr(Fixed(true)),
      o.goalFilter.GetOr(Fixed(true)))
  }

  predicate FilterIsArray(f: FilterOption, testId: string, postId: int) {
    match f
    case Fixed(isArray) => isArray
    case Callback(returnsArray) => returnsArray(testId, postId)
  }

  /** The event type of a goal: the text before its first ':' (`explode( ':', $goal )[0]`). */
  function GoalEvent(goal: string): (e: string)
    ensures |e| <= |goal| && e == goal[..|e|]
    ensures ':' !in e
    ensures |e| < |goal| ==> goal[|e|] == ':'
  {
    if goal == [] || goal[0] == ':' then [] else [goal[0]] + GoalEvent(goal[1..])
  }

  /** The event attribute that carries this test's variant on this post. */
  function TestAttribute(testId: string, postId: int): string {
    "attributes.test_" + testId + "_" + IntToString(postId) + ".keyword"
  }

  function RequestFor(test: TestDef, testId: string, postId: int, data: Results): Request {
    Request(TestAttribute(testId, postId), data.timestamp.GetOr(0), GoalEvent(test.goal), testId, postId)
  }

  /** The last bucket with key `k`, if any. */
  function LastWithKey(buckets: seq<Bucket>, k: int): Option<Bucket>
    decreases |buckets|
  {
    if buckets == [] then None
    else if buckets[|buckets| - 1].key == k then Some(buckets[|buckets| - 1])
    else LastWithKey(buckets[..|buckets| - 1], k)
  }

  /** The keys of `array_fill( 0, n, [] )`. */
  function Indices(n: int): (r: set<int>)
    ensures forall k :: k in r <==> 0 <= k < n
    decreases n
  {
    if n <= 0 then {} else Indices(n - 1) + {n - 1}
  }

  function SlotKeys(buckets: seq<Bucket>, n: int): set<int> {
    Indices(n) + (set i | 0 <= i < |buckets| :: buckets[i].key)
  }

  /** One `[]` slot per variant, then each bucket stored at its key. */
  function Slotted(buckets: seq<Bucket>, n: int): map<int, Agg> {
    map k | k in SlotKeys(buckets, n) ::
      match LastWithKey(buckets, k)
      case Some(b) => Filled(b)
      case None => EmptySlot
  }

  lemma {:induction false} LastWithKeyFound(buckets: seq<Bucket>, k: int)
    ensures LastWithKey(buckets, k).Some? <==> exists i :: 0 <= i < |buckets| && buckets[i].key == k
    ensures LastWithKey(buckets, k).Some? ==>
      LastWithKey(buckets, k).value.key == k && LastWithKey(buckets, k).value in buckets
    decreases |buckets|
  {
    if buckets != [] {
      var prefix := buckets[..|buckets| - 1];
      LastWithKeyFound(prefix, k);
      assert forall i :: 0 <= i < |prefix| ==> prefix[i] == buckets[i];
    }
  }

  /** Slotting: there is a slot for every variant and for every bucket key; the
      slot of a bucket's key holds a bucket with that key (the last one, when
      keys repeat); a variant without a bucket keeps its empty slot. */
  lemma SlottedMeans(buckets: seq<Bucket>, n: int)
    ensures forall k :: 0 <= k < n ==> k in Slotted(buckets, n)
    ensures forall i :: 0 <= i < |buckets| ==>
      (buckets[i].key in Slotted(buckets, n)
       && Slotted(buckets, n)[buckets[i].key].Filled?
       && Slotted(buckets, n)[buckets[i].key].bucket.key == buckets[i].key)
    ensures forall k :: (0 <= k < n && (forall i :: 0 <= i < |buckets| ==> buckets[i].key != k)) ==>
      Slotted(buckets, n)[k] == EmptySlot
  {
    forall i | 0 <= i < |buckets|
      ensures Slotted(buckets, n)[buckets[i].key].Filled?
      ensures Slotted(buckets, n)[buckets[i].key].bucket.key == buckets[i].key
    {
      LastWithKeyFound(buckets, buckets[i].key);
    }
    forall k | 0 <= k < n && (forall i :: 0 <= i < |buckets| ==> buckets[i].key != k)
      ensures Slotted(buckets, n)[k] == EmptySlot
    {
      LastWithKeyFound(buckets, k);
    }
  }

  /** With distinct keys below `n`, bucket key k lands in slot k and the slots are
      exactly the variants. */
  lemma SlottedDistinct(buckets: seq<Bucket>, n: int, i: int)
    requires forall j :: 0 <= j < |buckets| ==> 0 <= buckets[j].key < n
    requires forall j, l :: 0 <= j < l < |buckets| ==> buckets[j].key != buckets[l].key
    requires 0 <= i < |buckets|
    ensures Slotted(buckets, n).Keys == Indices(n)
    ensures Slotted(buckets, n)[buckets[i].key] == Filled(buckets[i])
  {
    LastWithKeyFound(buckets, buckets[i].key);
    var b := LastWithKey(buckets, buckets[i].key).value;
    var j :| 0 <= j < |buckets| && buckets[j] == b;
  }

  lemma SlottedStep(buckets: seq<Bucket>, b: Bucket, n: int)
    ensures Slotted(buckets + [b], n) == Slotted(buckets, n)[b.key := Filled(b)]
  {
    var bs := buckets + [b];
    assert bs[..|bs| - 1] == buckets;
    assert SlotKeys(bs, n) == SlotKeys(buckets, n) + {b.key} by {
      forall k | k in SlotKeys(bs, n) ensures k in SlotKeys(buckets, n) + {b.key} {
        if !(0 <= k < n) {
          var i :| 0 <= i < |bs| && bs[i].key == k;
          if i < |buckets| {
            assert buckets[i].key == k;
          }
        }
      }
      forall k | k in SlotKeys(buckets, n) ensures k in SlotKeys(bs, n) {
        if !(0 <= k < n) {
          var i :| 0 <= i < |buckets| && buckets[i].key == k;
          assert bs[i].key == k;
        }
      }
      assert bs[|buckets|].key == b.key;
    }
  }

  /** The slotting loop of `process_post_ab_test_result`. */
  method SortBuckets(buckets: seq<Bucket>, n: int) returns (sorted: map<int, Agg>)
    ensures sorted == Slotted(buckets, n)
  {
    sorted := map k | k in Indices(n) :: EmptySlot;
    assert sorted == Slotted([], n);
    for i := 0 to |buckets|
      invariant sorted == Slotted(buckets[..i], n)
    {
      SlottedStep(buckets[..i], buckets[i], n);
      assert buckets[..i + 1] == buckets[..i] + [buckets[i]];
      sorted := sorted[buckets[i].key := Filled(buckets[i])];
    }
    assert buckets[..|buckets|] == buckets;
  }

  function Max(a: int, b: int): int {
    if a >= b then a else b
  }

  /** The results saved by `process_post_ab_test_result`: the stored results over
      the defaults, the timestamp cursor advanced, the merged aggregations and
      the analysis on top. */
  function Merged(data: Results, latest: Option<int>, aggs: seq<Agg>, a: Analysis): (r: Results)
    ensures r.timestamp.Some?
    ensures r.timestamp.value >= data.timestamp.GetOr(0) && r.timestamp.value >= latest.GetOr(0)
    ensures r.timestamp.value == data.timestamp.GetOr(0) || r.timestamp.value == latest.GetOr(0)
    ensures r.other == data.other
  {
    Results(Some(Max(data.timestamp.GetOr(0), latest.GetOr(0))), Some(a.winning), Some(a.winner),
      Some(aggs), Some(a.variants), data.other)
  }

  /** The meta after a winner is declared: paused and ended now. */
  function WinnerMeta(meta: Meta, testId: string, postId: int, winner: Pick, now: int): Meta {
    if winner.Pick? then
      meta[MetaKey(postId, testId, Paused) := PausedText(true)][MetaKey(postId, testId, EndTime) := Number(now)]
    else meta
  }

  function WinnerRecords(testId: string, postId: int, now: int, a: Analysis): seq<Completed> {
    if a.winner.Pick? then [Completed(postId, testId, now, a.winner, a.variants)] else []
  }

  function EndedActions(testId: string, postId: int): seq<Event> {
    [Action(ENDED_ACTION, Some(testId), postId), Action(ENDED_ACTION + "." + testId, None, postId)]
  }

  function WinnerEvents(testId: string, postId: int, a: Analysis, callable: bool): seq<Event> {
    if a.winner.Pick? && 0 <= a.winner.index < |a.variants| then
      [Action(WINNER_FOUND_ACTION, Some(testId), postId), Action(WINNER_FOUND_ACTION + "." + testId, None, postId)]
      + (if callable then [WinnerCallback(testId, a.variants[a.winner.index].value, postId)] else [])
    else []
  }

  /** A declared winner stops the test: it is paused and its end time is now, so
      it is not running at any time from now on. */
  lemma WinnerStopsTest(meta: Meta, testId: string, postId: int, i: int, now: int, later: int)
    requires now != 0
    ensures var m := WinnerMeta(meta, testId, postId, Pick(i), now);
      && IsPaused(m, testId, postId)
      && GetEndTime(m, testId, postId, later) == now
      && !IsRunning(m, testId, postId, later)
      && GetVariants(m, testId, postId) == GetVariants(meta, testId, postId)
  {
  }

  /** Once the end time has passed, pausing keeps the test not running with its
      end time passed, so each later run takes the "ended" branch again. */
  lemma EndedStaysEnded(meta: Meta, testId: string, postId: int, now: int, later: int)
    requires GetEndTime(meta, testId, postId, now) <= now <= later
    requires IntCast(Read(meta, MetaKey(postId, testId, EndTime))) != 0
    ensures var m := meta[MetaKey(postId, testId, Paused) := PausedText(true)];
      && !IsRunning(m, testId, postId, later)
      && GetEndTime(m, testId, postId, later) <= later
  {
  }

  /** With no stored end time the default end lies 30 days ahead, so the
      "ended" branch is never taken. */
  lemma DefaultEndNeverEnded(meta: Meta, testId: string, postId: int, now: int)
    requires IntCast(Read(meta, MetaKey(postId, testId, EndTime))) == 0
    ensures GetEndTime(meta, testId, postId, now) > now
  {
  }

  /** Whether the cron handler queues the page after `page`. */
  predicate QueuesNext(found: int, page: int) {
    found > page * POSTS_PER_PAGE
  }

  /** The last page the cron chain runs when it starts at `page`. */
  function LastPage(found: int, page: int): int
    requires page >= 1
    decreases found - page * POSTS_PER_PAGE
  {
    if QueuesNext(found, page) then LastPage(found, page + 1) else page
  }

  /** The chain of cron runs reaches every found post and stops at the first
      page that holds the last of them: no empty page is queued. */
  lemma {:induction false} CronCoversAllPosts(found: int, page: int)
    requires page >= 1
    ensures LastPage(found, page) >= page
    ensures found <= LastPage(found, page) * POSTS_PER_PAGE
    ensures LastPage(found, page) > page ==> found > (LastPage(found, page) - 1) * POSTS_PER_PAGE
    decreases found - page * POSTS_PER_PAGE
  {
    if QueuesNext(found, page) {
      CronCoversAllPosts(found, page + 1);
    }
  }

  /** The variants after `update_ab_test_variants_for_post` are reset iff some
      old variant is missing from the new list (`array_diff` is one-directional). */
  predicate ResetNeeded(oldVariants: seq<string>, newVariants: seq<string>) {
    exists i :: 0 <= i < |oldVariants| && oldVariants[i] !in newVariants
  }

  function ResetResults(r: Results): Results {
    Results(Some(r.timestamp.GetOr(0)), None, None, None, None, false)
  }

  function VariantsUpdated(meta: Meta, testId: string, postId: int, variants: seq<string>): Meta {
    var reset :=
      if ResetNeeded(GetVariants(meta, testId, postId), variants)
      then meta[MetaKey(postId, testId, TestResults) := Snapshot(ResetResults(GetResults(meta, testId, postId)))]
      else meta;
    reset[MetaKey(postId, testId, Variants) := List(variants)]
  }

  /** The variants stored read back as given, and the results are reset to the
      old timestamp exactly when an old variant was dropped. */
  lemma VariantsUpdateMeans(meta: Meta, testId: string, postId: int, variants: seq<string>)
    ensures var m := VariantsUpdated(meta, testId, postId, variants);
      && GetVariants(m, testId, postId) == variants
      && (ResetNeeded(GetVariants(meta, testId, postId), variants) ==>
            GetResults(m, testId, postId)
              == Results(Some(GetResults(meta, testId, postId).timestamp.GetOr(0)), None, None, None, None, false))
      && (!ResetNeeded(GetVariants(meta, testId, postId), variants) ==>
            GetResults(m, testId, postId) == GetResults(meta, testId, postId))
  {
  }

  /** Adding variants, or reordering them, keeps the results. */
  lemma AddingVariantsKeepsResults(meta: Meta, testId: string, postId: int, variants: seq<string>)
    requires forall v :: v in GetVariants(meta, testId, postId) ==> v in variants
    ensures GetResults(VariantsUpdated(meta, testId, postId, variants), testId, postId)
      == GetResults(meta, testId, postId)
  {
  }

  /** Dropping the last variant resets the results. */
  lemma DroppingVariantResets(meta: Meta, testId: string, postId: int)
    requires GetVariants(meta, testId, postId) != []
    requires var before := GetVariants(meta, testId, postId);
      before[|before| - 1] !in before[..|before| - 1]
    ensures var before := GetVariants(meta, testId, postId);
      var m := VariantsUpdated(meta, testId, postId, before[..|before| - 1]);
      GetResults(m, testId, postId).winner.None? && GetResults(m, testId, postId).variants.None?
  {
    var before := GetVariants(meta, testId, postId);
    assert ResetNeeded(before, before[..|before| - 1]);
  }

  /** The output of `output_ab_test_html_for_post`. `TestMarkup` stands for the
      `<ab-test>` element with its attributes, the fallback and one
      `<test-variant>` per variant; `MissingVariant` for a winner index with no
      stored variant, and `Unregistered` for the TypeError `get_post_ab_test`
      throws for a test id that is not registered. */
  datatype Rendered =
    | Plain(html: string)
    | TestMarkup(testId: string, postId: int, trafficPercentage: int, goal: string,
        variantCount: int, fallback: string, variants: seq<string>)
    | MissingVariant(index: int)
    | Unregistered

  /** The winner branch as written: winner 0 renders the default output and
      winner k > 0 renders `variants[k - 1]`. */
  function RenderWinnerAsWritten(test: TestDef, variants: seq<string>, k: int,
      postId: int, defaultOutput: string, args: Args): Rendered
  {
    if k == 0 then Plain(defaultOutput)
    else if !(0 <= k - 1 < |variants|) then MissingVariant(k - 1)
    else Plain(test.variantCallback(variants[k - 1], postId, args))
  }

  /** The winner branch corrected: winner k > 0 renders `variants[k]`, the value
      the analysis recorded for that winner. */
  function RenderWinner(test: TestDef, variants: seq<string>, k: int,
      postId: int, defaultOutput: string, args: Args): Rendered
  {
    if k == 0 then Plain(defaultOutput)
    else if !(0 <= k < |variants|) then MissingVariant(k)
    else Plain(test.variantCallback(variants[k], postId, args))
  }

  /** `output_ab_test_html_for_post` once no winner is recorded: the default
      output for a test that is not running, otherwise the markup. */
  function RenderUndecided(test: TestDef, meta: Meta, testId: string, postId: int,
      defaultOutput: string, args: Args, now: int): Rendered
  {
    var variants := GetVariants(meta, testId, postId);
    if !IsRunning(meta, testId, postId, now) then Plain(defaultOutput)
    else
      TestMarkup(testId, postId, GetTrafficPercentage(meta, testId, postId), test.goal,
        |variants|, defaultOutput,
        seq(|variants|, i requires 0 <= i < |variants| => test.variantCallback(variants[i], postId, args)))
  }

  /** `output_ab_test_html_for_post` as written. */
  function Render(tests: map<string, TestDef>, meta: Meta, testId: string, postId: int,
      defaultOutput: string, args: Args, now: int): Rendered
  {
    if testId !in tests then Unregistered
    else
      var winner := GetResults(meta, testId, postId).winner;
      if winner.Some? && winner.value.Pick? then
        RenderWinnerAsWritten(tests[testId], GetVariants(meta, testId, postId), winner.value.index,
          postId, defaultOutput, args)
      else RenderUndecided(tests[testId], meta, testId, postId, defaultOutput, args, now)
  }

  /** `output_ab_test_html_for_post` with the winner branch corrected. */
  function RenderCorrected(tests: map<string, TestDef>, meta: Meta, testId: string, postId: int,
      defaultOutput: string, args: Args, now: int): Rendered
  {
    if testId !in tests then Unregistered
    else
      var winner := GetResults(meta, testId, postId).winner;
      if winner.Some? && winner.value.Pick? then
        RenderWinner(tests[testId], GetVariants(meta, testId, postId), winner.value.index,
          postId, defaultOutput, args)
      else RenderUndecided(tests[testId], meta, testId, postId, defaultOutput, args, now)
  }

  /** The undecided branch: a test that is not running gives the default, and a
      running one gives the markup with one rendered variant per stored
      variant, in order. */
  lemma RenderUndecidedMeans(test: TestDef, meta: Meta, testId: string, postId: int,
      defaultOutput: string, args: Args, now: int)
    ensures var r := RenderUndecided(test, meta, testId, postId, defaultOutput, args, now);
      var variants := GetVariants(meta, testId, postId);
      && (!IsRunning(meta, testId, postId, now) ==> r == Plain(defaultOutput))
      && (IsRunning(meta, testId, postId, now) ==>
            && r.TestMarkup? && r.testId == testId && r.postId == postId
            && r.goal == test.goal
            && r.trafficPercentage == GetTrafficPercentage(meta, testId, postId)
            && r.variantCount == |variants| && r.fallback == defaultOutput
            && |r.variants| == |variants|
            && forall i :: 0 <= i < |variants| ==> r.variants[i] == test.variantCallback(variants[i], postId, args))
  {
  }

  /** Rendering as written: an unregistered test throws before anything else; a
      recorded winner decides the output (0 the default, k the callback on
      `variants[k - 1]`, and a k past the stored variants the missing
      `variants[k - 1]`); without one, the undecided branch. */
  lemma RenderMeans(tests: map<string, TestDef>, meta: Meta, testId: string, postId: int,
      defaultOutput: string, args: Args, now: int)
    ensures var r := Render(tests, meta, testId, postId, defaultOutput, args, now);
      var w := GetResults(meta, testId, postId).winner;
      var variants := GetVariants(meta, testId, postId);
      && (r == Unregistered <==> testId !in tests)
      && (testId in tests ==>
            && (w == Some(Pick(0)) ==> r == Plain(defaultOutput))
            && (forall k :: 0 < k <= |variants| && w == Some(Pick(k)) ==>
                  r == Plain(tests[testId].variantCallback(variants[k - 1], postId, args)))
            && (forall k :: (k < 0 || k > |variants|) && w == Some(Pick(k)) ==> r == MissingVariant(k - 1))
            && ((w.None? || w == Some(NoPick)) ==>
                  r == RenderUndecided(tests[testId], meta, testId, postId, defaultOutput, args, now)))
  {
  }

  /** Rendering corrected: an unregistered test still throws; winner k > 0
      renders the callback on `variants[k]`, the value the analysis recorded for
      it; without a winner both renderings agree. */
  lemma RenderCorrectedMeans(tests: map<string, TestDef>, meta: Meta, testId: string, postId: int,
      defaultOutput: string, args: Args, now: int)
    ensures var r := RenderCorrected(tests, meta, testId, postId, defaultOutput, args, now);
      var w := GetResults(meta, testId, postId).winner;
      var variants := GetVariants(meta, testId, postId);
      && (r == Unregistered <==> testId !in tests)
      && (testId in tests ==>
            && (w == Some(Pick(0)) ==> r == Plain(defaultOutput))
            && (forall k :: 0 < k < |variants| && w == Some(Pick(k)) ==>
                  r == Plain(tests[testId].variantCallback(variants[k], postId, args)))
            && (forall k :: 0 < k && ValueAt(variants, k).Some? && w == Some(Pick(k)) ==>
                  r == Plain(tests[testId].variantCallback(ValueAt(variants, k).value, postId, args)))
            && (forall k :: (k < 0 || k >= |variants|) && k != 0 && w == Some(Pick(k)) ==> r == MissingVariant(k)))
      && ((w.None? || w == Some(NoPick)) ==>
            r == Render(tests, meta, testId, postId, defaultOutput, args, now))
  {
  }

  /** As written, the rendered winner is the variant before the one the analysis
      picked: with variants ["A", "B"] and winner 1 the identity callback renders
      "A", while the analysis recorded "B" as the winner's value. */
  lemma WinnerRenderOffByOne(postId: int, args: Args)
    ensures var test := WithDefaults("titles", Options(None, None, None, None, None, None, None, None));
      && RenderWinnerAsWritten(test, ["A", "B"], 1, postId, "default", args) == Plain("A")
      && ValueAt(["A", "B"], 1) == Some("B")
      && RenderWinner(test, ["A", "B"], 1, postId, "default", args) == Plain("B")
  {
  }

  /** Corrected, the rendered winner is the callback applied to the value the
      analysis recorded for it (and handed to the winner callback). */
  lemma RenderedWinnerIsRecordedValue(test: TestDef, variants: seq<string>, k: int,
      postId: int, defaultOutput: string, args: Args)
    requires 0 < k
    requires ValueAt(variants, k).Some?
    ensures RenderWinner(test, variants, k, postId, defaultOutput, args)
      == Plain(test.variantCallback(ValueAt(variants, k).value, postId, args))
  {
  }

  /** The winner callback is called exactly when a winner is declared and the
      test's `winner_callback` is set and callable, and then with the winner's
      value. */
  lemma WinnerCallbackIffCallable(testId: string, postId: int, a: Analysis, callable: bool)
    ensures var es := WinnerEvents(testId, postId, a, callable);
      && ((exists i :: 0 <= i < |es| && es[i].WinnerCallback?)
          <==> callable && a.winner.Pick? && 0 <= a.winner.index < |a.variants|)
      && (forall i :: 0 <= i < |es| && es[i].WinnerCallback? ==>
            es[i] == WinnerCallback(testId, a.variants[a.winner.index].value, postId))
  {
    var es := WinnerEvents(testId, postId, a, callable);
    if callable && a.winner.Pick? && 0 <= a.winner.index < |a.variants| {
      assert es[2].WinnerCallback?;
    }
  }

  /** The part of the site that a run of `process_post_ab_test_result` may
      change. */
  datatype Store = Store(meta: Meta, completed: seq<Completed>, events: seq<Event>)

  /** The store and outcome after `process_post_ab_test_result` for one post. */
  function Process(tests: map<string, TestDef>, st: Store, testId: string, postId: int, now: int,
      fetch: Fetch, merge: Merge, pmf: Pmf): (Store, Outcome)
  {
    if testId !in tests then (st, UnregisteredTest)
    else if !IsRunning(st.meta, testId, postId, now) then
      if GetEndTime(st.meta, testId, postId, now) <= now then
        (st.(meta := st.meta[MetaKey(postId, testId, Paused) := PausedText(true)],
             events := st.events + EndedActions(testId, postId)), Ended)
      else (st, NotRunning)
    else if !FilterIsArray(tests[testId].queryFilter, testId, postId) then (st, QueryFilterNotArray)
    else if !FilterIsArray(tests[testId].goalFilter, testId, postId) then (st, GoalFilterNotArray)
    else
      var data := GetResults(st.meta, testId, postId);
      if EmptyResults(data) then (st, NoData)
      else
        var values := GetVariants(st.meta, testId, postId);
        var response := fetch(RequestFor(tests[testId], testId, postId, data));
        var aggs := merge(data.aggs.GetOr([]), Slotted(response.buckets.GetOr([]), |values|));
        var a := Analyse(aggs, values, pmf);
        var results := Merged(data, response.maxTimestamp, aggs, a);
        (Store(WinnerMeta(st.meta, testId, postId, a.winner, now)[MetaKey(postId, testId, TestResults) := Snapshot(results)],
           st.completed + WinnerRecords(testId, postId, now, a),
           st.events + WinnerEvents(testId, postId, a, tests[testId].winnerCallable)),
         Updated(results))
  }

  /** How a run ends: the TypeError of an unregistered test, with nothing
      changed; an ended test, paused with the ended
      actions fired; a test not yet started or paused, untouched; each filter
      that is not an array, in order; no stored results; or else the analysis
      saved, with its winner's effects. Only a run that analyses adds a
      completed record, and only an ended or analysed run changes the meta or
      fires actions. */
  lemma ProcessMeans(tests: map<string, TestDef>, st: Store, testId: string, postId: int, now: int,
      fetch: Fetch, merge: Merge, pmf: Pmf)
    ensures var (r, outcome) := Process(tests, st, testId, postId, now, fetch, merge, pmf);
      && (outcome == UnregisteredTest <==> testId !in tests)
      && (testId in tests && !IsRunning(st.meta, testId, postId, now) ==>
            if GetEndTime(st.meta, testId, postId, now) <= now then
              && outcome == Ended
              && r.meta == st.meta[MetaKey(postId, testId, Paused) := PausedText(true)]
              && r.events == st.events + EndedActions(testId, postId)
            else outcome == NotRunning && r == st)
      && (testId in tests && IsRunning(st.meta, testId, postId, now) ==>
            && (outcome == QueryFilterNotArray <==> !FilterIsArray(tests[testId].queryFilter, testId, postId))
            && (FilterIsArray(tests[testId].queryFilter, testId, postId) ==>
                  (outcome == GoalFilterNotArray <==> !FilterIsArray(tests[testId].goalFilter, testId, postId)))
            && (FilterIsArray(tests[testId].queryFilter, testId, postId)
                && FilterIsArray(tests[testId].goalFilter, testId, postId) ==>
                  (outcome == NoData <==> EmptyResults(GetResults(st.meta, testId, postId)))
                  && (!EmptyResults(GetResults(st.meta, testId, postId)) ==> outcome.Updated?)))
      && (outcome.Updated? ==>
            var data := GetResults(st.meta, testId, postId);
            var a := Analyse(outcome.results.aggs.value, GetVariants(st.meta, testId, postId), pmf);
            && IsRunning(st.meta, testId, postId, now) && !EmptyResults(data)
            && outcome.results.timestamp.value >= data.timestamp.GetOr(0)
            && outcome.results.winner == Some(a.winner)
            && GetResults(r.meta, testId, postId) == outcome.results
            && GetVariants(r.meta, testId, postId) == GetVariants(st.meta, testId, postId)
            && r.completed == st.completed + WinnerRecords(testId, postId, now, a)
            && r.events == st.events + WinnerEvents(testId, postId, a, tests[testId].winnerCallable))
      && (!outcome.Updated? ==> r.completed == st.completed)
      && (!outcome.Updated? && outcome != Ended ==> r == st)
  {
    if testId in tests && IsRunning(st.meta, testId, postId, now)
      && FilterIsArray(tests[testId].queryFilter, testId, postId)
      && FilterIsArray(tests[testId].goalFilter, testId, postId)
      && !EmptyResults(GetResults(st.meta, testId, postId))
    {
      ProcessAnalysed(tests, st, testId, postId, now, fetch, merge, pmf);
    }
  }

  /** A run that gets past every exit saves the analysis: the results read back,
      the variants are kept, and the completed record and winner events are
      those of the analysis. */
  lemma ProcessAnalysed(tests: map<string, TestDef>, st: Store, testId: string, postId: int, now: int,
      fetch: Fetch, merge: Merge, pmf: Pmf)
    requires testId in tests && IsRunning(st.meta, testId, postId, now)
    requires FilterIsArray(tests[testId].queryFilter, testId, postId)
    requires FilterIsArray(tests[testId].goalFilter, testId, postId)
    requires !EmptyResults(GetResults(st.meta, testId, postId))
    ensures var (r, outcome) := Process(tests, st, testId, postId, now, fetch, merge, pmf);
      var data := GetResults(st.meta, testId, postId);
      && outcome.Updated?
      && var a := Analyse(outcome.results.aggs.value, GetVariants(st.meta, testId, postId), pmf);
      && outcome.results.timestamp.value >= data.timestamp.GetOr(0)
      && outcome.results.winner == Some(a.winner)
      && GetResults(r.meta, testId, postId) == outcome.results
      && GetVariants(r.meta, testId, postId) == GetVariants(st.meta, testId, postId)
      && r.completed == st.completed + WinnerRecords(testId, postId, now, a)
      && r.events == st.events + WinnerEvents(testId, postId, a, tests[testId].winnerCallable)
  {
  }

  /** The store after processing the posts of a page in order. */
  function ProcessAll(tests: map<string, TestDef>, st: Store, testId: string, postIds: seq<int>, now: int,
      fetch: Fetch, merge: Merge, pmf: Pmf): Store
    decreases |postIds|
  {
    if postIds == [] then st
    else Process(tests, ProcessAll(tests, st, testId, postIds[..|postIds| - 1], now, fetch, merge, pmf),
      testId, postIds[|postIds| - 1], now, fetch, merge, pmf).0
  }

  /** For an unregistered test every run throws before changing anything, so a
      page leaves the store as it was. */
  lemma {:induction false} ProcessAllUnregistered(tests: map<string, TestDef>, st: Store, testId: string,
      postIds: seq<int>, now: int, fetch: Fetch, merge: Merge, pmf: Pmf)
    requires testId !in tests
    ensures ProcessAll(tests, st, testId, postIds, now, fetch, merge, pmf) == st
    decreases |postIds|
  {
    if postIds != [] {
      ProcessAllUnregistered(tests, st, testId, postIds[..|postIds| - 1], now, fetch, merge, pmf);
    }
  }

  /** Processing only appends: completed records and events already there stay,
      in order, and a post is never recorded twice by one run. */
  lemma ProcessGrows(tests: map<string, TestDef>, st: Store, testId: string, postId: int, now: int,
      fetch: Fetch, merge: Merge, pmf: Pmf)
    ensures var r := Process(tests, st, testId, postId, now, fetch, merge, pmf).0;
      && st.completed <= r.completed && st.events <= r.events
      && |r.completed| <= |st.completed| + 1
  {
  }

  /** Over a page, completed records and events only grow, and each post adds at
      most one completed record. */
  lemma {:induction false} ProcessAllGrows(tests: map<string, TestDef>, st: Store, testId: string,
      postIds: seq<int>, now: int, fetch: Fetch, merge: Merge, pmf: Pmf)
    ensures var r := ProcessAll(tests, st, testId, postIds, now, fetch, merge, pmf);
      && st.completed <= r.completed && st.events <= r.events
      && |r.completed| <= |st.completed| + |postIds|
    decreases |postIds|
  {
    if postIds != [] {
      var prefix := postIds[..|postIds| - 1];
      ProcessAllGrows(tests, st, testId, prefix, now, fetch, merge, pmf);
      ProcessGrows(tests, ProcessAll(tests, st, testId, prefix, now, fetch, merge, pmf),
        testId, postIds[|postIds| - 1], now, fetch, merge, pmf);
    }
  }

  class Site {
    /** `$post_ab_tests`: registered tests by id. */
    var tests: map<string, TestDef>
    /** Tests with the hourly cron event scheduled. */
    var hourly: set<string>
    var meta: Meta
    var completed: seq<Completed>
    var events: seq<Event>
    var queue: seq<CronRun>

    constructor ()
      ensures tests == map[] && hourly == {} && meta == map[]
      ensures completed == [] && events == [] && queue == []
    {
      tests := map[];
      hourly := {};
      meta := map[];
      completed := [];
      events := [];
      queue := [];
    }

    /** `register_post_ab_test`. */
    method Register(testId: string, options: Options)
      modifies this
      ensures tests == old(tests)[testId := WithDefaults(testId, options)]
      ensures hourly == old(hourly) + {testId}
      ensures meta == old(meta) && completed == old(completed)
      ensures events == old(events) && queue == old(queue)
    {
      tests := tests[testId := WithDefaults(testId, options)];
      if testId !in hourly {
        hourly := hourly + {testId};
      }
    }

    /** `update_is_ab_test_paused_for_post`. */
    method UpdatePaused(testId: string, postId: int, paused: bool)
      modifies this
      ensures meta == old(meta)[MetaKey(postId, testId, Paused) := PausedText(paused)]
      ensures IsPaused(meta, testId, postId) == paused
      ensures tests == old(tests) && hourly == old(hourly) && completed == old(completed)
      ensures events == old(events) && queue == old(queue)
    {
      meta := meta[MetaKey(postId, testId, Paused) := PausedText(paused)];
    }

    /** `update_ab_test_end_time_for_post`. */
    method UpdateEndTime(testId: string, postId: int, date: int)
      modifies this
      ensures meta == old(meta)[MetaKey(postId, testId, EndTime) := Number(date)]
      ensures date != 0 ==> forall now :: GetEndTime(meta, testId, postId, now) == date
      ensures tests == old(tests) && hourly == old(hourly) && completed == old(completed)
      ensures events == old(events) && queue == old(queue)
    {
      meta := meta[MetaKey(postId, testId, EndTime) := Number(date)];
    }

    /** `update_ab_test_variants_for_post`. */
    method UpdateVariants(testId: string, postId: int, variants: seq<string>)
      modifies this
      ensures meta == VariantsUpdated(old(meta), testId, postId, variants)
      ensures tests == old(tests) && hourly == old(hourly) && completed == old(completed)
      ensures events == old(events) && queue == old(queue)
    {
      var oldVariants := GetVariants(meta, testId, postId);
      if exists i :: 0 <= i < |oldVariants| && oldVariants[i] !in variants {
        var results := GetResults(meta, testId, postId);
        meta := meta[MetaKey(postId, testId, TestResults) := Snapshot(ResetResults(results))];
      }
      meta := meta[MetaKey(postId, testId, Variants) := List(variants)];
    }

    /** `save_ab_test_results_for_post`: the timestamp defaults to now. */
    method SaveCompleted(testId: string, postId: int, now: int, winner: Pick, variants: seq<Stat>)
      modifies this
      ensures completed == old(completed) + [Completed(postId, testId, now, winner, variants)]
      ensures tests == old(tests) && hourly == old(hourly) && meta == old(meta)
      ensures events == old(events) && queue == old(queue)
    {
      completed := completed + [Completed(postId, testId, now, winner, variants)];
    }

    /** `analyse_ab_test_results`: the analysis of the aggregations and, when a
        winner is declared, its effects: paused, ended now, one completed record,
        the winner actions and the winner callback with the winner's value. */
    method AnalyseResults(aggs: seq<Agg>, testId: string, postId: int, now: int, pmf: Pmf)
      returns (a: Analysis)
      modifies this
      ensures a == Analyse(aggs, GetVariants(old(meta), testId, postId), pmf)
      ensures meta == WinnerMeta(old(meta), testId, postId, a.winner, now)
      ensures completed == old(completed) + WinnerRecords(testId, postId, now, a)
      ensures events == old(events) + WinnerEvents(testId, postId, a, testId in old(tests) && old(tests)[testId].winnerCallable)
      ensures tests == old(tests) && hourly == old(hourly) && queue == old(queue)
    {
      var values := GetVariants(meta, testId, postId);
      var winning, variants := ScanAggregations(aggs, values, pmf);
      ScanLeaderInRange(variants);
      var winner := NoPick;
      if winning.Pick? {
        var w := variants[winning.index];
        // Require 99% certainty.
        if w.p.Some? && w.p.value < SIGNIFICANCE {
          winner := winning;
          UpdatePaused(testId, postId, true);
          UpdateEndTime(testId, postId, now);
          SaveCompleted(testId, postId, now, winner, variants);
          events := events + [Action(WINNER_FOUND_ACTION, Some(testId), postId),
            Action(WINNER_FOUND_ACTION + "." + testId, None, postId)];
          if testId in tests && tests[testId].winnerCallable {
            events := events + [WinnerCallback(testId, w.value, postId)];
          }
        }
      }
      a := Analysis(winning, winner, variants);
    }

    /** `process_post_ab_test_result`: ends in the store and outcome `Process`
        gives, and so as `ProcessMeans` describes. */
    method ProcessResult(testId: string, postId: int, now: int, fetch: Fetch, merge: Merge, pmf: Pmf)
      returns (outcome: Outcome)
      modifies this
      ensures (Store(meta, completed, events), outcome)
        == Process(old(tests), Store(old(meta), old(completed), old(events)), testId, postId, now, fetch, merge, pmf)
      ensures outcome == UnregisteredTest <==> testId !in old(tests)
      ensures testId in old(tests) && !IsRunning(old(meta), testId, postId, now) ==>
        if GetEndTime(old(meta), testId, postId, now) <= now then
          && outcome == Ended
          && meta == old(meta)[MetaKey(postId, testId, Paused) := PausedText(true)]
          && events == old(events) + EndedActions(testId, postId)
        else outcome == NotRunning && meta == old(meta) && events == old(events)
      ensures outcome.Updated? ==>
        var data := GetResults(old(meta), testId, postId);
        var values := GetVariants(old(meta), testId, postId);
        var response := fetch(RequestFor(old(tests)[testId], testId, postId, data));
        var aggs := merge(data.aggs.GetOr([]), Slotted(response.buckets.GetOr([]), |values|));
        var a := Analyse(aggs, values, pmf);
        && outcome.results == Merged(data, response.maxTimestamp, aggs, a)
        && meta == WinnerMeta(old(meta), testId, postId, a.winner, now)
             [MetaKey(postId, testId, TestResults) := Snapshot(outcome.results)]
        && completed == old(completed) + WinnerRecords(testId, postId, now, a)
        && events == old(events) + WinnerEvents(testId, postId, a, old(tests)[testId].winnerCallable)
      ensures !outcome.Updated? ==> completed == old(completed)
      ensures !outcome.Updated? && outcome != Ended ==> meta == old(meta) && events == old(events)
      ensures outcome.Updated? ==>
        IsRunning(old(meta), testId, postId, now) && !EmptyResults(GetResults(old(meta), testId, postId))
      ensures testId in old(tests) && IsRunning(old(meta), testId, postId, now) ==>
        && (outcome == QueryFilterNotArray <==> !FilterIsArray(old(tests)[testId].queryFilter, testId, postId))
        && (FilterIsArray(old(tests)[testId].queryFilter, testId, postId) ==>
              (outcome == GoalFilterNotArray <==> !FilterIsArray(old(tests)[testId].goalFilter, testId, postId)))
        && (FilterIsArray(old(tests)[testId].queryFilter, testId, postId)
            && FilterIsArray(old(tests)[testId].goalFilter, testId, postId) ==>
              (outcome == NoData <==> EmptyResults(GetResults(old(meta), testId, postId)))
              && (!EmptyResults(GetResults(old(meta), testId, postId)) ==> outcome.Updated?))
      ensures tests == old(tests) && hourly == old(hourly) && queue == old(queue)
    {
      ghost var before := Store(meta, completed, events);
      if testId !in tests {
        outcome := UnregisteredTest;
      } else {
        var test := tests[testId];
        var data := GetResults(meta, testId, postId);

        // Bail if test no longer running.
        if !IsRunning(meta, testId, postId, now) {
          if GetEndTime(meta, testId, postId, now) <= now {
            UpdatePaused(testId, postId, true);
            events := events + EndedActions(testId, postId);
            outcome := Ended;
            assert Process(tests, before, testId, postId, now, fetch, merge, pmf)
              == (Store(meta, completed, events), outcome);
          } else {
            outcome := NotRunning;
          }
        } else if !FilterIsArray(test.queryFilter, testId, postId) {
          outcome := QueryFilterNotArray;
        } else if !FilterIsArray(test.goalFilter, testId, postId) {
          outcome := GoalFilterNotArray;
        } else {
          var response := fetch(RequestFor(test, testId, postId, data));
          if EmptyResults(data) {
            outcome := NoData;
          } else {
            // Sort buckets by variant ID.
            var values := GetVariants(meta, testId, postId);
            var sorted := SortBuckets(response.buckets.GetOr([]), |values|);
            var aggs := merge(data.aggs.GetOr([]), sorted);

            var a := AnalyseResults(aggs, testId, postId, now, pmf);
            var merged := Merged(data, response.maxTimestamp, aggs, a);
            meta := meta[MetaKey(postId, testId, TestResults) := Snapshot(merged)];
            outcome := Updated(merged);
            assert Process(tests, before, testId, postId, now, fetch, merge, pmf)
              == (Store(meta, completed, events), outcome);
          }
        }
      }
      ProcessMeans(tests, before, testId, postId, now, fetch, merge, pmf);
    }

    /** `handle_post_ab_test_cron`: processes the posts of one page in order
        (the query result is an input), ending in the store `ProcessAll` gives,
        and queues the next page when more posts were found. For an
        unregistered test the first post throws (`aborted`): nothing is changed
        and no page is queued. */
    method HandleCron(testId: string, page: int, found: int, postIds: seq<int>,
        now: int, fetch: Fetch, merge: Merge, pmf: Pmf) returns (aborted: bool)
      modifies this
      ensures aborted <==> testId !in old(tests) && postIds != []
      ensures queue == old(queue)
        + (if !aborted && QueuesNext(found, page) then [CronRun(testId, page + 1)] else [])
      ensures Store(meta, completed, events)
        == ProcessAll(old(tests), Store(old(meta), old(completed), old(events)), testId, postIds, now, fetch, merge, pmf)
      ensures aborted ==> meta == old(meta) && completed == old(completed) && events == old(events)
      ensures tests == old(tests) && hourly == old(hourly)
    {
      for i := 0 to |postIds|
        invariant queue == old(queue) && tests == old(tests) && hourly == old(hourly)
        invariant i > 0 ==> testId in tests
        invariant Store(meta, completed, events)
          == ProcessAll(tests, Store(old(meta), old(completed), old(events)), testId, postIds[..i], now, fetch, merge, pmf)
      {
        assert postIds[..i + 1][..i] == postIds[..i];
        var outcome := ProcessResult(testId, postIds[i], now, fetch, merge, pmf);
        if outcome == UnregisteredTest {
          ProcessAllUnregistered(tests, Store(old(meta), old(completed), old(events)), testId, postIds,
            now, fetch, merge, pmf);
          return true;
        }
      }
      assert postIds[..|postIds|] == postIds;
      // Queue up next batch.
      if found > page * POSTS_PER_PAGE {
        queue := queue + [CronRun(testId, page + 1)];
      }
      return false;
    }
  }
}
