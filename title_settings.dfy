/** src/features/titles/settings.js: the settings panel of a title test. It
    compares the edited titles with those the test last ran with, toggles the
    paused flag, disables running and pausing with fewer than two titles, and
    fills in missing settings for display. The current time is an input. */
module TitleSettings {
  import opened Common
  import AbTestState
  import TitleList
  import LegacyDateRange

  const DEFAULT_TRAFFIC: int := 35
  const DAY_MS: int := 24 * 60 * 60 * 1000
  const DEFAULT_LENGTH_MS: int := 30 * DAY_MS

  /** `array1.every( ( value, index ) => value === array2[ index ] )`; an index
      past the end of `b` reads `undefined`, which equals no title. */
  function Every(a: seq<string>, b: seq<string>): bool {
    if a == [] then true
    else b != [] && a[0] == b[0] && Every(a[1..], b[1..])
  }

  /** `arrayEquals`. */
  function ArrayEquals(a: seq<string>, b: seq<string>): bool {
    |a| == |b| && Every(a, b)
  }

  /** `every` alone only says that `a` is a prefix of `b`. */
  lemma {:induction false} EveryIsPrefix(a: seq<string>, b: seq<string>)
    ensures Every(a, b) <==> |a| <= |b| && b[..|a|] == a
    decreases |a|
  {
    if a != [] && b != [] {
      EveryIsPrefix(a[1..], b[1..]);
      if |a| <= |b| && b[..|a|] == a {
        assert b[1..][..|a| - 1] == a[1..];
      }
      if Every(a[1..], b[1..]) && a[0] == b[0] {
        assert b[..|a|] == [b[0]] + b[1..][..|a| - 1];
        assert a == [a[0]] + a[1..];
      }
    }
  }

  /** With the length check, `arrayEquals` is exactly list equality; lists of
      different lengths are never equal. */
  lemma ArrayEqualsIff(a: seq<string>, b: seq<string>)
    ensures ArrayEquals(a, b) <==> a == b
    ensures |a| != |b| ==> !ArrayEquals(a, b)
  {
    EveryIsPrefix(a, b);
    assert b[..|b|] == b;
  }

  /** The effect of a click on the pause/resume button: the paused flag sent
      with `updateTest`, the titles stored as `prevTitles`, and whether the
      confirmation dialog was shown. */
  datatype PauseClick = PauseClick(paused: bool, prevTitles: seq<string>, asked: bool)

  /** The click handler. `confirmed` is the answer to `window.confirm`, asked
      only when paused with edited titles; every path calls
      `setPaused( ! paused )`. */
  function OnPauseClick(titles: seq<string>, prevTitles: seq<string>, paused: bool, confirmed: bool): PauseClick {
    if ArrayEquals(titles, prevTitles) then PauseClick(!paused, titles, false)
    else if paused && confirmed then PauseClick(!paused, titles, true)
    else PauseClick(!paused, titles, paused)
  }

  /** The flag always toggles and the titles are always recorded; the dialog
      appears exactly when the test is paused and the titles were edited, and
      its answer changes nothing. */
  lemma PauseAlwaysToggles(titles: seq<string>, prevTitles: seq<string>, paused: bool, confirmed: bool)
    ensures var c := OnPauseClick(titles, prevTitles, paused, confirmed);
      && c.paused == !paused
      && c.prevTitles == titles
      && (c.asked <==> paused && titles != prevTitles)
      && c == OnPauseClick(titles, prevTitles, paused, !confirmed)
  {
    ArrayEqualsIff(titles, prevTitles);
  }

  /** The run and pause buttons are disabled. */
  predicate ButtonsDisabled(titleCount: nat) {
    titleCount < 2
  }

  /** A test needs two titles to run or pause; a post whose only title is the
      seeded post title cannot start one. */
  lemma TwoTitlesToRun(titles: seq<string>, defaultTitle: string)
    ensures !ButtonsDisabled(|titles|) <==> |titles| >= 2
    ensures ButtonsDisabled(|TitleList.Seeded([], defaultTitle)|)
  {
  }

  /** `trafficPercentage || 35`. */
  function TrafficShown(trafficPercentage: Option<int>): (t: int)
    ensures t != 0
  {
    if trafficPercentage.None? || trafficPercentage == Some(0) then DEFAULT_TRAFFIC else trafficPercentage.value
  }

  /** `startTime || Date.now()`. */
  function StartShown(startTime: Option<int>, now: int): int {
    if startTime.None? || startTime == Some(0) then now else startTime.value
  }

  /** `endTime || Date.now() + 30 days`. */
  function EndShown(endTime: Option<int>, now: int): int {
    if endTime.None? || endTime == Some(0) then now + DEFAULT_LENGTH_MS else endTime.value
  }

  /** A stored non-zero value is shown as it is; missing or zero values show
      the defaults, which agree with the server's `?:` defaults for the start
      and end time and leave the date range's own defaults unused. */
  lemma ShownDefaultsMeans(meta: AbTestState.Meta, testId: string, postId: int, trafficPercentage: Option<int>,
      startTime: Option<int>, endTime: Option<int>, now: int)
    ensures trafficPercentage.Some? && trafficPercentage.value != 0 ==> TrafficShown(trafficPercentage) == trafficPercentage.value
    ensures trafficPercentage.None? || trafficPercentage == Some(0) ==> TrafficShown(trafficPercentage) == 35
    ensures startTime.None? || startTime == Some(0) ==> StartShown(startTime, now) == now
    ensures startTime.Some? && startTime.value != 0 ==> StartShown(startTime, now) == startTime.value
    ensures endTime.None? || endTime == Some(0) ==> EndShown(endTime, now) == now + DEFAULT_LENGTH_MS
    ensures endTime.Some? && endTime.value != 0 ==> EndShown(endTime, now) == endTime.value
    ensures var s := AbTestState.IntCast(AbTestState.Read(meta, AbTestState.MetaKey(postId, testId, AbTestState.StartTime)));
      StartShown(Some(s), now) == AbTestState.GetStartTime(meta, testId, postId, now)
    ensures var e := AbTestState.IntCast(AbTestState.Read(meta, AbTestState.MetaKey(postId, testId, AbTestState.EndTime)));
      EndShown(Some(e), now) == AbTestState.GetEndTime(meta, testId, postId, now)
    ensures LegacyDateRange.DefaultRange(Some(StartShown(startTime, now)), Some(EndShown(endTime, now)), now)
      == (StartShown(startTime, now), EndShown(endTime, now))
    ensures EndShown(None, now) - StartShown(None, now) == DEFAULT_LENGTH_MS
  {
  }
}
