/** src/tests.js: the older `<ab-test>` element. Its `getVariantId` first reads
    a `utm_campaign=test_<key>:<digits>` parameter and stores the integer under
    the captured key (which may belong to any test), then applies the shared
    assignment decision; the shown variant is `variants[ variantId || 0 ]`. */
module TestsClient {
  import opened Common
  import opened VariantAssignment

  const STORAGE_KEY: string := "_altis_ab_tests"
  const UTM_PREFIX: string := "utm_campaign=test_"

  /** `[a-z0-9_-]` under the `i` flag. */
  predicate IsKeyChar(c: char) {
    'a' <= Lower(c) <= 'z' || IsDigit(c) || c == '_' || c == '-'
  }

  predicate AllKeyChars(key: string) {
    forall k :: 0 <= k < |key| ==> IsKeyChar(key[k])
  }

  /** Length of the run of key characters in `s` starting at `i`. */
  function KeyRun(s: string, i: nat): (n: nat)
    requires i <= |s|
    ensures i + n <= |s|
    ensures i + n < |s| ==> !IsKeyChar(s[i + n])
    decreases |s| - i
  {
    if i < |s| && IsKeyChar(s[i]) then 1 + KeyRun(s, i + 1) else 0
  }

  /** Every character of the run is a key character. */
  lemma {:induction false} KeyRunChars(s: string, i: nat)
    requires i <= |s|
    ensures AllKeyChars(s[i..i + KeyRun(s, i)])
    decreases |s| - i
  {
    var n := KeyRun(s, i);
    if n > 0 {
      KeyRunChars(s, i + 1);
      assert s[i..i + n] == [s[i]] + s[i + 1..i + n];
    }
  }

  /** The regular expression matches at `i`: the prefix, a non-empty run of key
      characters (greedy; it cannot give back, since ':' is not a key
      character), a colon and at least one digit. */
  predicate UtmAt(s: string, i: nat) {
    && StartsWithAt(s, i, UTM_PREFIX)
    && var j := i + |UTM_PREFIX|;
      var k := KeyRun(s, j);
      && k > 0 && j + k < |s| && s[j + k] == ':'
      && DigitRun(s, j + k + 1) > 0
  }

  /** The key run at `i` is followed by another character, as in a match. */
  predicate CaptureFits(s: string, i: nat) {
    i + |UTM_PREFIX| <= |s| && i + |UTM_PREFIX| + KeyRun(s, i + |UTM_PREFIX|) < |s|
  }

  /** The captured key and integer of a match at `i`. */
  function UtmCapture(s: string, i: nat): (string, nat)
    requires CaptureFits(s, i)
  {
    var j := i + |UTM_PREFIX|;
    var k := KeyRun(s, j);
    (s[j..j + k], DigitsValue(s, j + k + 1))
  }

  /** The leftmost match at or after `i`. */
  function FirstUtm(s: string, i: nat): (r: Option<nat>)
    ensures r.Some? ==> i <= r.value < |s| && UtmAt(s, r.value)
    ensures r.Some? ==> forall l :: i <= l < r.value ==> !UtmAt(s, l)
    ensures r.None? ==> forall l :: i <= l < |s| ==> !UtmAt(s, l)
  {
    var p := (l: nat) => UtmAt(s, l);
    assert forall l: nat :: p(l) == UtmAt(s, l);
    FirstWhere(p, i, |s|)
  }

  /** The key and assignment a URL sets, if any. */
  function UtmOverride(search: string): Option<(string, nat)> {
    match FirstUtm(search, 0)
    case Some(i) => Some(UtmCapture(search, i))
    case None => None
  }

  /** The captured key is made of key characters only, so it never holds the
      colon that ends it. */
  lemma UtmKeyIsKeyChars(search: string)
    requires UtmOverride(search).Some?
    ensures var key := UtmOverride(search).value.0;
      key != [] && AllKeyChars(key)
  {
    var i := FirstUtm(search, 0).value;
    KeyRunChars(search, i + |UTM_PREFIX|);
  }

  /** A key-character run of length `n` that ends at another character or at
      the end is exactly what `KeyRun` measures. */
  lemma {:induction false} KeyRunExact(s: string, i: nat, n: nat)
    requires i + n <= |s| && AllKeyChars(s[i..i + n])
    requires i + n == |s| || !IsKeyChar(s[i + n])
    ensures KeyRun(s, i) == n
    decreases n
  {
    if n > 0 {
      assert IsKeyChar(s[i..i + n][0]);
      assert s[i + 1..i + n] == s[i..i + n][1..];
      KeyRunExact(s, i + 1, n - 1);
    }
  }

  /** `?utm_campaign=test_<key>:<n>`, a campaign link for one test. */
  function UtmLink(key: string, n: nat): string {
    "?" + UTM_PREFIX + key + ":" + NatToString(n)
  }

  lemma UtmLinkPrefix(key: string, n: nat)
    ensures !StartsWithAt(UtmLink(key, n), 0, UTM_PREFIX)
    ensures StartsWithAt(UtmLink(key, n), 1, UTM_PREFIX)
  {
    var s := UtmLink(key, n);
    assert Lower(s[0]) != Lower(UTM_PREFIX[0]);
    assert s[1..1 + |UTM_PREFIX|] == UTM_PREFIX;
    forall k | 0 <= k < |UTM_PREFIX| ensures s[1 + k] == UTM_PREFIX[k] {
      assert s[1..1 + |UTM_PREFIX|][k] == s[1 + k];
    }
  }

  lemma UtmLinkKey(key: string, n: nat)
    requires key != [] && AllKeyChars(key)
    ensures var s := UtmLink(key, n);
      var j := 1 + |UTM_PREFIX|;
      && j + |key| < |s| && s[j + |key|] == ':'
      && KeyRun(s, j) == |key| && s[j..j + |key|] == key
  {
    var s := UtmLink(key, n);
    var j := 1 + |UTM_PREFIX|;
    assert s[j..j + |key|] == key;
    assert s[j + |key|] == ':';
    KeyRunExact(s, j, |key|);
  }

  lemma UtmLinkDigits(key: string, n: nat)
    ensures var s := UtmLink(key, n);
      var c := 2 + |UTM_PREFIX| + |key|;
      && c <= |s|
      && DigitRun(s, c) == |NatToString(n)|
      && s[c..c + |NatToString(n)|] == NatToString(n)
  {
    var s := UtmLink(key, n);
    var d := NatToString(n);
    var c := 2 + |UTM_PREFIX| + |key|;
    assert s[c..] == d;
    assert s[c..c + |d|] == d;
    DigitRunExact(s, c, |d|);
  }

  /** The campaign link sets assignment `n` for `key`, for every non-empty key
      of key characters. */
  lemma UtmLinkRoundTrip(key: string, n: nat)
    requires key != [] && AllKeyChars(key)
    ensures UtmOverride(UtmLink(key, n)) == Some((key, n))
  {
    var s := UtmLink(key, n);
    UtmLinkMatch(key, n);
    assert FirstUtm(s, 0) == Some(1);
    UtmLinkCapture(key, n);
  }

  /** The campaign link matches at its second character and not at the `?`. */
  lemma UtmLinkMatch(key: string, n: nat)
    requires key != [] && AllKeyChars(key)
    ensures !UtmAt(UtmLink(key, n), 0) && UtmAt(UtmLink(key, n), 1)
  {
    UtmLinkPrefix(key, n);
    UtmLinkKey(key, n);
    UtmLinkDigits(key, n);
  }

  /** The match in the campaign link captures its key and number. */
  lemma UtmLinkCapture(key: string, n: nat)
    requires key != [] && AllKeyChars(key)
    ensures CaptureFits(UtmLink(key, n), 1) && UtmCapture(UtmLink(key, n), 1) == (key, n)
  {
    UtmLinkKey(key, n);
    UtmLinkDigits(key, n);
    CaptureKey(UtmLink(key, n), 1, key);
    CaptureDigits(UtmLink(key, n), 1, |key|);
    DigitsValueOf(UtmLink(key, n), 2 + |UTM_PREFIX| + |key|, NatToString(n));
    ParseNatToString(n);
  }

  /** A capture whose key run is `key` captures that key. */
  lemma CaptureKey(s: string, i: nat, key: string)
    requires var j := i + |UTM_PREFIX|;
      j + |key| < |s| && KeyRun(s, j) == |key| && s[j..j + |key|] == key
    ensures CaptureFits(s, i) && UtmCapture(s, i).0 == key
  {
  }

  /** A capture whose key run has length `m` reads the digits after the colon
      that follows it. */
  lemma CaptureDigits(s: string, i: nat, m: nat)
    requires i + |UTM_PREFIX| + m < |s| && KeyRun(s, i + |UTM_PREFIX|) == m
    ensures CaptureFits(s, i) && UtmCapture(s, i).1 == DigitsValue(s, i + |UTM_PREFIX| + m + 1)
  {
  }

  function Lookup(tests: map<string, Stored>, key: string): Option<Stored> {
    if key in tests then Some(tests[key]) else None
  }

  /** The storage after the URL parameter is applied. */
  function WithUtm(tests: map<string, Stored>, search: string): map<string, Stored> {
    match UtmOverride(search)
    case Some((key, n)) => tests[key := Assigned(n)]
    case None => tests
  }

  class Page {
    /** The JSON object stored under `STORAGE_KEY`. */
    var tests: map<string, Stored>
    /** Attributes registered with the analytics client for every event. */
    var attributes: map<string, int>
    /** `ABTest.goalHandlers`. */
    var goalHandlers: map<string, GoalHandler>

    constructor (stored: map<string, Stored>)
      ensures tests == stored && attributes == map[] && goalHandlers == map[]
    {
      tests := stored;
      attributes := map[];
      goalHandlers := map[];
    }

    /** `addTestForUser`: the given keys override, all others are kept. */
    method AddTestForUser(test: map<string, Stored>)
      modifies this
      ensures tests == old(tests) + test
      ensures tests.Keys == old(tests).Keys + test.Keys
      ensures forall k :: k in test ==> tests[k] == test[k]
      ensures forall k :: k in old(tests) && k !in test ==> tests[k] == old(tests)[k]
      ensures attributes == old(attributes) && goalHandlers == old(goalHandlers)
    {
      tests := tests + test;
    }

    /** `ABTest.getVariantId`, with the campaign parameter read first. */
    method GetVariantId(search: string, testId: string, postId: string, variantCount: int,
        trafficPercentage: int, r1: real, r2: real) returns (id: Stored)
      modifies this
      ensures var key := testId + "_" + postId;
        var before := WithUtm(old(tests), search);
        var d := Decide(Lookup(before, key), variantCount, trafficPercentage, r1, r2);
        && id == d.id
        && tests == (if d.write.Some? then before[key := d.write.value] else before)
        && attributes == (if d.registers then old(attributes)["test_" + key := id.index] else old(attributes))
      ensures goalHandlers == old(goalHandlers)
    {
      var key := testId + "_" + postId;

      // Extract test set by campaign parameter and add for user.
      var utmTest := UtmOverride(search);
      if utmTest.Some? {
        AddTestForUser(map[utmTest.value.0 := Assigned(utmTest.value.1)]);
        assert tests == old(tests)[utmTest.value.0 := Assigned(utmTest.value.1)];
      }
      assert tests == WithUtm(old(tests), search);

      var currentTests := tests;
      ghost var d := Decide(Lookup(currentTests, key), variantCount, trafficPercentage, r1, r2);
      var variantId := Excluded;
      if key in currentTests && currentTests[key].Assigned? && currentTests[key].index < variantCount {
        variantId := currentTests[key];
        assert d == Decision(variantId, None, true);
      } else if key in currentTests && currentTests[key] == Excluded {
        assert d == Decision(Excluded, None, false);
        return variantId;
      } else {
        if r1 * 100.0 > trafficPercentage as real {
          // Exclude from this test.
          assert d == Decision(Excluded, Some(Excluded), false);
          AddTestForUser(map[key := Excluded]);
          return variantId;
        }
        variantId := Assigned((r2 * variantCount as real).Floor);
        assert d == Decision(variantId, Some(variantId), true);
        AddTestForUser(map[key := variantId]);
      }
      // Log active test variant for all events.
      attributes := attributes["test_" + key := variantId.index];
      return variantId;
    }

    /** `connectedCallback`: the variant shown is `variants[ variantId || 0 ]`,
        so an excluded visitor sees the control. */
    method ConnectedCallback(search: string, testId: string, postId: string, variantCount: int,
        trafficPercentage: int, r1: real, r2: real) returns (shown: int)
      modifies this
      ensures var key := testId + "_" + postId;
        var before := WithUtm(old(tests), search);
        var d := Decide(Lookup(before, key), variantCount, trafficPercentage, r1, r2);
        && shown == ShownIndex(d.id)
        && (d.id == Excluded ==> shown == 0)
        && (d.id.Assigned? ==> shown == d.id.index)
        && tests == (if d.write.Some? then before[key := d.write.value] else before)
        && attributes == (if d.registers then old(attributes)["test_" + key := d.id.index] else old(attributes))
      ensures goalHandlers == old(goalHandlers)
    {
      var variantId := GetVariantId(search, testId, postId, variantCount, trafficPercentage, r1, r2);
      return ShownIndex(variantId);
    }

    /** `ABTest.registerGoal`: `closest` is always stored as an array. */
    method RegisterGoal(name: string, callback: int, closest: Closest)
      modifies this
      ensures goalHandlers == old(goalHandlers)[name := GoalHandler(callback, ClosestList(closest))]
      ensures tests == old(tests) && attributes == old(attributes)
    {
      goalHandlers := goalHandlers[name := GoalHandler(callback, ClosestList(closest))];
    }
  }
}
