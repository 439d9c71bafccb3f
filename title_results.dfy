/** src/features/titles/results.js: the results panel of a finished title
    test. It formats the test's running time as days, hours and minutes, shows
    nothing until there are titles and at least two variants, and highlights
    the winning title. The percentage figures are left out. */
module TitleResults {
  import opened Common

  const MINUTE_MS: int := 60 * 1000
  const HOUR_MS: int := 60 * MINUTE_MS
  const DAY_MS: int := 24 * HOUR_MS

  datatype Duration = Duration(days: int, hours: int, minutes: int)

  /** The three `Math.floor` divisions of `getDurationString` (integer
      division by a positive divisor rounds down, as `Math.floor` does). */
  function DurationOf(elapsed: int): Duration {
    var days := elapsed / DAY_MS;
    var hours := (elapsed - days * DAY_MS) / HOUR_MS;
    var minutes := (elapsed - days * DAY_MS - hours * HOUR_MS) / MINUTE_MS;
    Duration(days, hours, minutes)
  }

  /** `${ days }d ${ hours }h ${ minutes }m`. */
  function DurationString(elapsed: int): string {
    var d := DurationOf(elapsed);
    IntToString(d.days) + "d " + IntToString(d.hours) + "h " + IntToString(d.minutes) + "m"
  }

  /** Hours and minutes are always within a day and an hour (for a negative
      time too, as the divisions round down); the parts add up to the elapsed
      time less at most a minute; and together they count the whole minutes
      elapsed. The days are never negative for a non-negative time. */
  lemma DurationMeans(elapsed: int)
    ensures var d := DurationOf(elapsed);
      var whole := d.days * DAY_MS + d.hours * HOUR_MS + d.minutes * MINUTE_MS;
      && 0 <= d.hours < 24 && 0 <= d.minutes < 60
      && whole <= elapsed < whole + MINUTE_MS
      && d.days * 1440 + d.hours * 60 + d.minutes == elapsed / MINUTE_MS
      && (elapsed >= 0 <==> d.days >= 0)
  {
    var d := DurationOf(elapsed);
    var r1 := elapsed - d.days * DAY_MS;
    assert 0 <= r1 < DAY_MS;
    var r2 := r1 - d.hours * HOUR_MS;
    assert 0 <= r2 < HOUR_MS;
    var r3 := r2 - d.minutes * MINUTE_MS;
    assert 0 <= r3 < MINUTE_MS;
    assert elapsed == MINUTE_MS * (d.days * 1440 + d.hours * 60 + d.minutes) + r3;
  }

  /** What `Results` shows beside a title: the original won, another title
      won, or nothing. */
  datatype Note = NoNote | OriginalWon | TitleWon

  /** One row of the results: the title's letter index, the title, whether it
      is highlighted, and its note. */
  datatype Row = Row(letter: nat, title: string, highlight: bool, note: Note)

  /** What `Results` gives: nothing, the rows, or the TypeError raised while
      mapping the title at `index`, which has no variant whose `rate` can be
      read. */
  datatype Panel = NoPanel | Rows(rows: seq<Row>) | NoVariantFor(index: nat)

  /** `Results`: nothing without titles or with fewer than two variants;
      otherwise a row per title in order, unless there are more titles than
      variants, when the first title past the variants throws. `winner` is the
      recorded winner, if any. */
  function ResultRows(titles: seq<string>, variantCount: nat, winner: Option<int>): Panel {
    if |titles| == 0 || variantCount < 2 then NoPanel
    else if |titles| > variantCount then NoVariantFor(variantCount)
    else Rows(seq(|titles|, i requires 0 <= i < |titles| =>
      Row(i, titles[i], winner == Some(i),
        if winner == Some(i) then (if i == 0 then OriginalWon else TitleWon) else NoNote)))
  }

  /** The panel renders exactly when there are titles, two variants, and a
      variant for every title; with more titles than variants the first title
      without one throws. When it renders, each title gets its row in order,
      the winner's row alone is highlighted and carries the note, and with no
      winner nothing is highlighted. */
  lemma ResultRowsMeans(titles: seq<string>, variantCount: nat, winner: Option<int>)
    ensures var p := ResultRows(titles, variantCount, winner);
      && (p.NoPanel? <==> |titles| == 0 || variantCount < 2)
      && (p.Rows? <==> 0 < |titles| <= variantCount && variantCount >= 2)
      && (p.NoVariantFor? <==> 2 <= variantCount < |titles|)
      && (p.NoVariantFor? ==> p.index == variantCount && p.index < |titles|)
      && (p.Rows? ==> (
            && |p.rows| == |titles|
            && (forall i :: 0 <= i < |titles| ==> p.rows[i].title == titles[i] && p.rows[i].letter == i)
            && (forall i :: 0 <= i < |titles| ==>
                  (p.rows[i].highlight <==> winner == Some(i))
                  && (p.rows[i].note != NoNote <==> p.rows[i].highlight))
            && (forall i, j :: 0 <= i < j < |titles| ==> !(p.rows[i].highlight && p.rows[j].highlight))
            && (winner.None? ==> forall i :: 0 <= i < |titles| ==> !p.rows[i].highlight)
            && (winner == Some(0) ==> p.rows[0].note == OriginalWon)))
  {
  }
}
