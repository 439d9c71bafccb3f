/** src/features/titles/field-title-text.js: the list of alternative post
    titles in the title A/B test panel. `setTitles` works on a copy of the
    list and hands the copy to `onChange`; an empty list is seeded with the
    post's title; an extra field to add a title appears while the titles are
    editable and fewer than 26 exist; backspace in an empty field removes it;
    each title links to a preview that forces its variant. */
module TitleList {
  import opened Common
  import ExperimentsClient
  import VariantAssignment

  /** One title per letter of the alphabet. */
  const MAX_TITLES: nat := 26

  /** The list without the entry at `index`; `splice` past the end removes
      nothing. */
  function RemovedAt(titles: seq<string>, index: nat): seq<string>
    requires index <= |titles|
  {
    if index < |titles| then titles[..index] + titles[index + 1..] else titles
  }

  /** The list with `title` at `index`; assigning one past the end appends. */
  function SetAt(titles: seq<string>, index: nat, title: string): seq<string>
    requires index <= |titles|
  {
    if index < |titles| then titles[index := title] else titles + [title]
  }

  /** Removing at an index drops exactly that entry: the ones before keep
      their positions, the ones after move down by one. */
  lemma RemovedAtMeans(titles: seq<string>, index: nat)
    requires index < |titles|
    ensures var r := RemovedAt(titles, index);
      && |r| == |titles| - 1
      && (forall k :: 0 <= k < index ==> r[k] == titles[k])
      && (forall k :: index <= k < |r| ==> r[k] == titles[k + 1])
  {
  }

  /** Setting an existing index replaces that entry only; setting index
      `|titles|` appends; writing back the same title changes nothing, and
      removing an appended title restores the list. */
  lemma SetAtMeans(titles: seq<string>, index: nat, title: string)
    requires index <= |titles|
    ensures var r := SetAt(titles, index, title);
      && r[index] == title
      && (index < |titles| ==> |r| == |titles| && forall k :: 0 <= k < |r| && k != index ==> r[k] == titles[k])
      && (index == |titles| ==> r[..|titles|] == titles && |r| == |titles| + 1)
      && (index < |titles| ==> SetAt(titles, index, titles[index]) == titles)
      && RemovedAt(SetAt(titles, |titles|, title), |titles|) == titles
  {
    assert (titles + [title])[..|titles|] == titles;
  }

  /** `setTitles`: `slice()` copies the titles into a fresh array, which
      `splice` or an index assignment then changes; the input is not touched. */
  method SetTitles(titles: array<string>, title: string, index: nat, remove: bool)
    returns (newTitles: array<string>)
    requires index <= titles.Length
    ensures fresh(newTitles)
    ensures newTitles[..] == (if remove then RemovedAt(titles[..], index) else SetAt(titles[..], index, title))
  {
    var n := titles.Length;
    if remove && index < n {
      // The copy after `splice( index, 1 )`: later entries move down one place.
      newTitles := new string[n - 1];
      for k := 0 to index
        invariant forall j :: 0 <= j < k ==> newTitles[j] == titles[j]
      {
        newTitles[k] := titles[k];
      }
      for k := index to n - 1
        invariant forall j :: 0 <= j < index ==> newTitles[j] == titles[j]
        invariant forall j :: index <= j < k ==> newTitles[j] == titles[j + 1]
      {
        newTitles[k] := titles[k + 1];
      }
      assert newTitles[..] == titles[..index] + titles[index + 1..];
    } else if !remove && index == n {
      // Assigning one past the end grows the copy by one entry.
      newTitles := new string[n + 1];
      for k := 0 to n
        invariant forall j :: 0 <= j < k ==> newTitles[j] == titles[j]
      {
        newTitles[k] := titles[k];
      }
      newTitles[n] := title;
      assert newTitles[..] == titles[..] + [title];
    } else {
      newTitles := new string[n];
      for k := 0 to n
        invariant forall j :: 0 <= j < k ==> newTitles[j] == titles[j]
      {
        newTitles[k] := titles[k];
      }
      if !remove {
        newTitles[index] := title;
      }
    }
  }

  /** The titles shown: an empty list gets the post's own title. */
  function Seeded(titles: seq<string>, defaultTitle: string): seq<string> {
    if |titles| == 0 then [defaultTitle] else titles
  }

  /** A seeded list is never empty; seeding only ever adds the post's title to
      an empty list, and a second seeding changes nothing. */
  lemma SeededMeans(titles: seq<string>, defaultTitle: string, other: string)
    ensures var r := Seeded(titles, defaultTitle);
      && |r| >= 1
      && (titles == [] <==> r == [defaultTitle] && r != titles)
      && (titles != [] ==> r == titles)
      && Seeded(r, other) == r
  {
  }

  /** The `titles` prop, which the component extends in place. */
  class TitlesProp {
    var titles: seq<string>

    constructor (titles: seq<string>)
      ensures this.titles == titles
    {
      this.titles := titles;
    }

    /** `titles.push( defaultTitle )` when there are no titles yet. */
    method SeedDefault(defaultTitle: string)
      modifies this
      ensures titles == Seeded(old(titles), defaultTitle)
    {
      if |titles| == 0 {
        titles := titles + [defaultTitle];
      }
    }
  }

  /** The field for a further title is shown. */
  predicate CanAddTitle(isEditable: bool, count: nat) {
    isEditable && count < MAX_TITLES
  }

  /** The add field only ever appends, and only below the cap, so a list of at
      most 26 titles stays within 26; it never shows while the titles are read
      only. */
  lemma TitleCapHolds(titles: seq<string>, isEditable: bool, title: string)
    requires |titles| <= MAX_TITLES
    ensures CanAddTitle(isEditable, |titles|) ==> |SetAt(titles, |titles|, title)| <= MAX_TITLES
    ensures CanAddTitle(isEditable, |titles|) ==> SetAt(titles, |titles|, title) == titles + [title]
    ensures !isEditable ==> !CanAddTitle(isEditable, |titles|)
    ensures |titles| == MAX_TITLES ==> !CanAddTitle(isEditable, |titles|)
  {
  }

  /** The non-empty titles, in order. */
  function NonEmpty(titles: seq<string>): seq<string> {
    if titles == [] then []
    else (if titles[0] != "" then [titles[0]] else []) + NonEmpty(titles[1..])
  }

  lemma {:induction false} NonEmptyAppend(a: seq<string>, b: seq<string>)
    ensures NonEmpty(a + b) == NonEmpty(a) + NonEmpty(b)
    decreases |a|
  {
    if a != [] {
      assert (a + b)[0] == a[0];
      assert (a + b)[1..] == a[1..] + b;
      NonEmptyAppend(a[1..], b);
    } else {
      assert a + b == b;
    }
  }

  /** The `onKeyUp` handler of the title at `index`: the list handed to
      `onChange`, if it is called at all. */
  function OnKeyUp(titles: seq<string>, index: nat, value: string, key: Option<string>, which: Option<int>)
    : Option<seq<string>>
    requires index < |titles|
  {
    if titles[index] == "" && value == "" && (key == Some("Backspace") || which == Some(8))
    then Some(RemovedAt(titles, index))
    else None
  }

  /** Backspace removes a title only when it is already empty, and then only
      that one: every non-empty title is kept, in order. */
  lemma BackspaceKeepsText(titles: seq<string>, index: nat, value: string, key: Option<string>, which: Option<int>)
    requires index < |titles|
    ensures var r := OnKeyUp(titles, index, value, key, which);
      && (r.Some? <==> titles[index] == "" && value == "" && (key == Some("Backspace") || which == Some(8)))
      && (r.Some? ==> |r.value| == |titles| - 1 && NonEmpty(r.value) == NonEmpty(titles))
  {
    if OnKeyUp(titles, index, value, key, which).Some? {
      RemoveEmptyKeepsText(titles, index);
    }
  }

  /** Removing an empty title leaves the non-empty ones as they were. */
  lemma RemoveEmptyKeepsText(titles: seq<string>, index: nat)
    requires index < |titles| && titles[index] == ""
    ensures NonEmpty(RemovedAt(titles, index)) == NonEmpty(titles)
  {
    var a := titles[..index];
    var e := [titles[index]];
    var b := titles[index + 1..];
    calc {
      NonEmpty(titles);
      { assert titles == a + (e + b); }
      NonEmpty(a + (e + b));
      { NonEmptyAppend(a, e + b); }
      NonEmpty(a) + NonEmpty(e + b);
      { NonEmptyAppend(e, b); assert e[1..] == []; }
      NonEmpty(a) + NonEmpty(b);
      { NonEmptyAppend(a, b); }
      NonEmpty(a + b);
      { assert RemovedAt(titles, index) == a + b; }
      NonEmpty(RemovedAt(titles, index));
    }
  }

  /** The preview link of title `index` of a post. */
  function PreviewLink(postId: nat, index: nat): string {
    "/?p=" + NatToString(postId) + "&set_test=test_titles_" + NatToString(postId) + ":" + NatToString(index)
  }

  /** The key of the titles test on a post, as the `<ab-test>` element forms it. */
  function TitlesKey(postId: nat): string {
    ExperimentsClient.TestIdWithPost("titles", NatToString(postId))
  }

  /** Characters of the link before its `set_test` parameter. */
  predicate LeadChar(c: char) {
    c == '/' || c == '?' || c == 'p' || c == '=' || c == '&' || IsDigit(c)
  }

  lemma PreviewLinkParts(postId: nat, index: nat)
    ensures PreviewLink(postId, index)
      == "/?p=" + NatToString(postId) + "&" + ExperimentsClient.SetTestPrefix(TitlesKey(postId)) + NatToString(index)
  {
    var p := NatToString(postId);
    assert ExperimentsClient.SetTestPrefix(TitlesKey(postId)) == "set_test=test_titles_" + p + ":";
  }

  lemma LeadChars(postId: nat)
    ensures var lead := "/?p=" + NatToString(postId) + "&";
      forall k :: 0 <= k < |lead| ==> LeadChar(lead[k])
  {
    var p := NatToString(postId);
    var lead := "/?p=" + p + "&";
    forall k | 0 <= k < |lead| ensures LeadChar(lead[k]) {
      if 4 <= k < 4 + |p| {
        assert lead[k] == p[k - 4];
      }
    }
  }

  /** No override parameter starts at a lead character. */
  lemma NoOverrideAtLead(s: string, l: nat, key: string)
    requires l < |s| && LeadChar(s[l])
    ensures !ExperimentsClient.OverrideAt(s, l, key)
  {
    assert Lower(s[l]) == s[l];
    assert ExperimentsClient.UtmPrefix(key)[0] == 'u';
    assert ExperimentsClient.SetTestPrefix(key)[0] == 's';
  }

  /** A `set_test` parameter right after the lead matches, and no
      `utm_campaign` one does there; its digits read back as `n`. */
  lemma SetTestMatch(lead: string, key: string, n: nat)
    ensures var s := lead + ExperimentsClient.SetTestPrefix(key) + NatToString(n);
      var prefix := ExperimentsClient.SetTestPrefix(key);
      && ExperimentsClient.MatchesAt(s, |lead|, prefix)
      && ExperimentsClient.DigitsAt(s, |lead|, prefix) == n
      && !ExperimentsClient.MatchesAt(s, |lead|, ExperimentsClient.UtmPrefix(key))
  {
    var prefix := ExperimentsClient.SetTestPrefix(key);
    var digits := NatToString(n);
    var s := lead + prefix + digits;
    var j := |lead|;
    assert s[j..j + |prefix|] == prefix;
    assert s[j + |prefix|..] == digits;
    MatchOfParts(s, j, prefix, digits);
    ParseNatToString(n);
    assert s[j] == 's';
    NoMatchAtOtherLetter(s, j, ExperimentsClient.UtmPrefix(key));
  }

  /** A prefix followed by digits up to the end matches, and the match reads
      the digits. */
  lemma MatchOfParts(s: string, j: nat, p: string, d: string)
    requires j + |p| + |d| == |s| && s[j..j + |p|] == p && s[j + |p|..] == d
    requires d != [] && AllDigits(d)
    ensures ExperimentsClient.MatchesAt(s, j, p) && ExperimentsClient.DigitsAt(s, j, p) == ParseDigits(d)
  {
    StartsWithSlice(s, j, p);
    var c := j + |p|;
    assert DigitRun(s, c) == |d| && s[c..c + |d|] == d by {
      assert s[c..c + |d|] == d;
      DigitRunExact(s, c, |d|);
    }
    assert DigitsValue(s, c) == ParseDigits(d);
  }

  /** A `utm_campaign` prefix does not match where an `s` stands. */
  lemma NoMatchAtOtherLetter(s: string, j: nat, p: string)
    requires j < |s| && s[j] == 's' && p != [] && p[0] == 'u'
    ensures !ExperimentsClient.MatchesAt(s, j, p)
  {
    assert Lower(s[j + 0]) != Lower(p[0]);
  }

  /** After a lead of query characters, the first override parameter is the
      `set_test` one, so it decides the value read. */
  lemma OverrideAfterLead(lead: string, key: string, n: nat)
    requires forall k :: 0 <= k < |lead| ==> LeadChar(lead[k])
    ensures ExperimentsClient.UrlOverride(lead + ExperimentsClient.SetTestPrefix(key) + NatToString(n), key) == Some(n)
  {
    var s := lead + ExperimentsClient.SetTestPrefix(key) + NatToString(n);
    forall l | 0 <= l < |lead| ensures !ExperimentsClient.OverrideAt(s, l, key) {
      assert s[l] == lead[l];
      NoOverrideAtLead(s, l, key);
    }
    SetTestMatch(lead, key, n);
    assert ExperimentsClient.OverrideAt(s, |lead|, key);
    var r := ExperimentsClient.FirstOverride(s, 0, key);
    assert r == Some(|lead|);
  }

  /** The preview link sets the titles test of its post to the title's index:
      the element reads it back from the link, and for an index below the
      variant count it is the variant shown, whatever was stored before. */
  lemma PreviewLinkShowsTitle(postId: nat, index: nat, tests: map<string, VariantAssignment.Stored>,
      variantCount: int, trafficPercentage: int, r1: real, r2: real)
    ensures ExperimentsClient.UrlOverride(PreviewLink(postId, index), TitlesKey(postId)) == Some(index)
    ensures index < variantCount ==>
      var key := TitlesKey(postId);
      var d := VariantAssignment.Decide(ExperimentsClient.Lookup(tests[key := VariantAssignment.Assigned(index)], key),
        variantCount, trafficPercentage, r1, r2);
      d.id == VariantAssignment.Assigned(index) && ExperimentsClient.ShownFor(d.id, true) == ExperimentsClient.Variant(index)
  {
    var key := TitlesKey(postId);
    var s := PreviewLink(postId, index);
    PreviewLinkParts(postId, index);
    LeadChars(postId);
    OverrideAfterLead("/?p=" + NatToString(postId) + "&", key, index);
    if index < variantCount {
      ExperimentsClient.UrlOverrideDecides(s, key, tests, variantCount, trafficPercentage, r1, r2);
    }
  }
}
