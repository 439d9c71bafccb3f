/** src/experiments.js: the `<ab-test>` element. The visitor's assignments live
    in localStorage under `_altis_ab_tests` (a JSON object from test key to a
    variant index or `false`); a URL parameter can set the assignment before it
    is looked up; the shown variant is the assigned one, the control, or the
    fallback for an excluded visitor. The page's `location.search` and the
    `Math.random()` draws are inputs. */
module ExperimentsClient {
  import opened Common
  import opened VariantAssignment

  /** The storage key of `ABTest` (it overrides the base class's `_altis_tests`). */
  const STORAGE_KEY: string := "_altis_ab_tests"

  /** `${ testId }_${ postId }`: the key of a test on a post. */
  function TestIdWithPost(testId: string, postId: string): string {
    testId + "_" + postId
  }

  function UtmPrefix(key: string): string {
    "utm_campaign=test_" + key + ":"
  }

  function SetTestPrefix(key: string): string {
    "set_test=test_" + key + ":"
  }

  /** `p` followed by at least one digit starts at position `i` (letters compared
      case-insensitively, as the regular expression's `i` flag does). */
  predicate MatchesAt(s: string, i: nat, p: string) {
    StartsWithAt(s, i, p) && DigitRun(s, i + |p|) > 0
  }

  /** The value of the digits after `p` at `i` (`parseInt( match[ 2 ], 10 )`). */
  function DigitsAt(s: string, i: nat, p: string): nat
    requires MatchesAt(s, i, p)
  {
    var j := i + |p|;
    DigitsValue(s, j)
  }

  /** `(utm_campaign|set_test)=test_<key>:(\d+)` matches at position `i`. */
  predicate OverrideAt(s: string, i: nat, key: string) {
    MatchesAt(s, i, UtmPrefix(key)) || MatchesAt(s, i, SetTestPrefix(key))
  }

  /** The captured integer of a match at `i`. */
  function OverrideValue(s: string, i: nat, key: string): nat
    requires OverrideAt(s, i, key)
  {
    if MatchesAt(s, i, UtmPrefix(key)) then DigitsAt(s, i, UtmPrefix(key))
    else DigitsAt(s, i, SetTestPrefix(key))
  }

  /** The leftmost match at or after `i`, as `String.prototype.match` finds it. */
  function FirstOverride(s: string, i: nat, key: string): (r: Option<nat>)
    ensures r.Some? ==> i <= r.value < |s| && OverrideAt(s, r.value, key)
    ensures r.Some? ==> forall l :: i <= l < r.value ==> !OverrideAt(s, l, key)
    ensures r.None? ==> forall l :: i <= l < |s| ==> !OverrideAt(s, l, key)
  {
    var p := (l: nat) => OverrideAt(s, l, key);
    assert forall l: nat :: p(l) == OverrideAt(s, l, key);
    FirstWhere(p, i, |s|)
  }

  /** The assignment a URL sets for the test `key`, if any. */
  function UrlOverride(search: string, key: string): Option<nat> {
    match FirstOverride(search, 0, key)
    case Some(i) => Some(OverrideValue(search, i, key))
    case None => None
  }

  /** What a test element shows: the fallback, or the variant at an index. */
  datatype Shown = Fallback | Variant(index: int)

  /** The fallback for an excluded visitor when the element has one; otherwise
      `variants[ variantId || 0 ]`. */
  function ShownFor(id: Stored, hasFallback: bool): (s: Shown)
    ensures s == Fallback <==> hasFallback && id == Excluded
    ensures id.Assigned? ==> s == Variant(id.index)
    ensures id == Excluded && !hasFallback ==> s == Variant(0)
  {
    if hasFallback && id == Excluded then Fallback else Variant(ShownIndex(id))
  }

  function Lookup(tests: map<string, Stored>, key: string): Option<Stored> {
    if key in tests then Some(tests[key]) else None
  }

  /** The storage after a decision: its write, if any, under the test's key. */
  function Written(tests: map<string, Stored>, key: string, d: Decision): map<string, Stored> {
    if d.write.Some? then tests[key := d.write.value] else tests
  }

  /** A URL match for the test's own key decides the assignment whenever the
      value names an existing variant: it is shown, with no draw and no
      further write. */
  lemma UrlOverrideDecides(search: string, key: string, tests: map<string, Stored>,
      variantCount: int, trafficPercentage: int, r1: real, r2: real)
    requires UrlOverride(search, key).Some? && UrlOverride(search, key).value < variantCount
    ensures var n := UrlOverride(search, key).value;
      var d := Decide(Lookup(tests[key := Assigned(n)], key), variantCount, trafficPercentage, r1, r2);
      d.id == Assigned(n) && d.write.None? && ShownFor(d.id, true) == Variant(n)
  {
  }

  class Page {
    /** The JSON object stored under `STORAGE_KEY`. */
    var tests: map<string, Stored>
    /** Attributes registered with the analytics client for every event. */
    var attributes: map<string, int>
    /** `Test.goalHandlers`. */
    var goalHandlers: map<string, GoalHandler>

    constructor (stored: map<string, Stored>)
      ensures tests == stored && attributes == map[] && goalHandlers == map[]
    {
      tests := stored;
      attributes := map[];
      goalHandlers := map[];
    }

    /** `addTestForUser`: the given keys override, all others are kept. */
    method AddTestForUser(test: map<string, Stored>)
      modifies this
      ensures tests == old(tests) + test
      ensures tests.Keys == old(tests).Keys + test.Keys
      ensures forall k :: k in test ==> tests[k] == test[k]
      ensures forall k :: k in old(tests) && k !in test ==> tests[k] == old(tests)[k]
      ensures attributes == old(attributes) && goalHandlers == old(goalHandlers)
    {
      tests := tests + test;
    }

    /** `ABTest.getVariantId`. */
    method GetVariantId(testId: string, postId: string, variantCount: int, trafficPercentage: int,
        r1: real, r2: real) returns (id: Stored)
      modifies this
      ensures var key := TestIdWithPost(testId, postId);
        var d := Decide(Lookup(old(tests), key), variantCount, trafficPercentage, r1, r2);
        && id == d.id
        && tests == Written(old(tests), key, d)
        && attributes == (if d.registers then old(attributes)["test_" + key := id.index] else old(attributes))
      ensures goalHandlers == old(goalHandlers)
    {
      var key := TestIdWithPost(testId, postId);
      var currentTests := tests;
      var variantId := Excluded;
      if key in currentTests && currentTests[key].Assigned? && currentTests[key].index < variantCount {
        variantId := currentTests[key];
      } else if key in currentTests && currentTests[key] == Excluded {
        return variantId;
      } else {
        if r1 * 100.0 > trafficPercentage as real {
          // Exclude from this test.
          AddTestForUser(map[key := Excluded]);
          return variantId;
        }
        variantId := Assigned((r2 * variantCount as real).Floor);
        AddTestForUser(map[key := variantId]);
      }
      // Log active test variant for all events.
      attributes := attributes["test_" + key := variantId.index];
      return variantId;
    }

    /** `connectedCallback` with the variant choice of `init`: a URL match
        stores its value first, then the assignment decides what is shown. */
    method ConnectedCallback(search: string, testId: string, postId: string, variantCount: int,
        trafficPercentage: int, hasFallback: bool, r1: real, r2: real) returns (shown: Shown)
      modifies this
      ensures var key := TestIdWithPost(testId, postId);
        var o := UrlOverride(search, key);
        var before := if o.Some? then old(tests)[key := Assigned(o.value)] else old(tests);
        var d := Decide(Lookup(before, key), variantCount, trafficPercentage, r1, r2);
        && shown == ShownFor(d.id, hasFallback)
        && tests == Written(before, key, d)
        && attributes == (if d.registers then old(attributes)["test_" + key := d.id.index] else old(attributes))
      ensures goalHandlers == old(goalHandlers)
    {
      var key := TestIdWithPost(testId, postId);
      var urlTest := UrlOverride(search, key);
      if urlTest.Some? {
        AddTestForUser(map[key := Assigned(urlTest.value)]);
      }
      var variantId := GetVariantId(testId, postId, variantCount, trafficPercentage, r1, r2);
      // Use fallback if we're not in the test.
      if hasFallback && variantId == Excluded {
        return Fallback;
      }
      return Variant(ShownIndex(variantId));
    }

    /** `Test.registerGoal`: `closest` is always stored as an array. */
    method RegisterGoal(name: string, callback: int, closest: Closest)
      modifies this
      ensures goalHandlers == old(goalHandlers)[name := GoalHandler(callback, ClosestList(closest))]
      ensures tests == old(tests) && attributes == old(attributes)
    {
      goalHandlers := goalHandlers[name := GoalHandler(callback, ClosestList(closest))];
    }
  }
}
