/** The decision logic of `analyse_ab_test_results` (inc/namespace.php): the
    conversion rate of each variant, the running leader with its minimum-sample
    rule, the p-value of each variant against the control, and the winner. The
    Binomial probability mass function comes from an external library and is a
    parameter here; rates are exact rationals. */
module AbTestAnalysis {
  import opened Common
  import opened AbTestState

  /** Minimum of `size * rate` and `size * (1 - rate)` for a variant to lead. */
  const MIN_SAMPLE: real := 5.0
  /** A leading variant wins when its p-value is below this (99% certainty). */
  const SIGNIFICANCE: real := 0.01

  /** `pmf( n, p, k )` of the Binomial distribution with n trials and success rate p. */
  type Pmf = (int, real, int) -> real

  /** `$agg['cardinality#impressions']['value'] ?? 0`. */
  function SizeOf(a: Agg): int {
    match a
    case EmptySlot => 0
    case Filled(b) => b.impressions.GetOr(0)
  }

  /** `$agg['filter#conversions']['doc_count'] ?? 0`. */
  function HitsOf(a: Agg): int {
    match a
    case EmptySlot => 0
    case Filled(b) => b.conversions.GetOr(0)
  }

  /** Conversion rate: hits over size, or 0 for an empty sample. */
  function Rate(size: int, hits: int): (r: real)
    ensures size != 0 ==> r * size as real == hits as real
    ensures size == 0 ==> r == 0.0
  {
    if size != 0 then hits as real / size as real else 0.0
  }

  predicate SampleLargeEnough(size: int, rate: real) {
    size as real * rate >= MIN_SAMPLE && size as real * (1.0 - rate) >= MIN_SAMPLE
  }

  /** With exact rates the sample rule asks for at least 5 hits and 5 misses. */
  lemma SampleRule(size: int, hits: int)
    ensures SampleLargeEnough(size, Rate(size, hits)) <==> size != 0 && hits >= 5 && size - hits >= 5
  {
    var rate := Rate(size, hits);
    if size != 0 {
      assert size as real * rate == hits as real;
      assert size as real * (1.0 - rate) == size as real - hits as real;
    }
  }

  /** `$variant_values[ $id ]`: null past the end of the variants list. */
  function ValueAt(values: seq<string>, i: int): Option<string> {
    if 0 <= i < |values| then Some(values[i]) else None
  }

  /** The statistics recorded for aggregation `i`; its p-value is the pmf of a
      Binomial with the variant's size and the control's (aggregation 0's) rate,
      taken at the variant's hits. */
  function StatAt(aggs: seq<Agg>, values: seq<string>, pmf: Pmf, i: int): Stat
    requires 0 <= i < |aggs|
  {
    var size := SizeOf(aggs[i]);
    var hits := HitsOf(aggs[i]);
    var controlRate := Rate(SizeOf(aggs[0]), HitsOf(aggs[0]));
    Stat(ValueAt(values, i), size, hits, Rate(size, hits), Some(pmf(size, controlRate, hits)))
  }

  function Stats(aggs: seq<Agg>, values: seq<string>, pmf: Pmf): (s: seq<Stat>)
    ensures |s| == |aggs|
    ensures forall i :: 0 <= i < |aggs| ==> s[i] == StatAt(aggs, values, pmf, i)
  {
    seq(|aggs|, i requires 0 <= i < |aggs| => StatAt(aggs, values, pmf, i))
  }

  /** The running `max_rate` and `winning` after scanning `stats` in order: a
      variant whose rate exceeds the running maximum raises it, and becomes the
      leader only if its sample is large enough. */
  function Scan(stats: seq<Stat>): (real, Pick)
    decreases |stats|
  {
    if stats == [] then (0.0, NoPick)
    else
      var (maxRate, winning) := Scan(stats[..|stats| - 1]);
      var s := stats[|stats| - 1];
      if s.rate > maxRate then
        (s.rate, if SampleLargeEnough(s.size, s.rate) then Pick(|stats| - 1) else winning)
      else (maxRate, winning)
  }

  /** One step of the scan: the running values after one more variant. */
  lemma ScanStep(prefix: seq<Stat>, s: Stat)
    ensures Scan(prefix + [s]) ==
      if s.rate > Scan(prefix).0 then
        (s.rate, if SampleLargeEnough(s.size, s.rate) then Pick(|prefix|) else Scan(prefix).1)
      else Scan(prefix)
  {
    assert (prefix + [s])[..|prefix|] == prefix;
  }

  /** Variant `j` raises the running maximum. */
  predicate Raises(stats: seq<Stat>, j: int)
    requires 0 <= j < |stats|
  {
    stats[j].rate > Scan(stats[..j]).0
  }

  /** Variant `j` raises the running maximum and has a large enough sample. */
  predicate TakesLead(stats: seq<Stat>, j: int)
    requires 0 <= j < |stats|
  {
    Raises(stats, j) && SampleLargeEnough(stats[j].size, stats[j].rate)
  }

  /** The winner: the leader, when its p-value is present and below 0.01. */
  function Decide(stats: seq<Stat>, winning: Pick): Pick {
    if winning.Pick? && 0 <= winning.index < |stats|
       && stats[winning.index].p.Some? && stats[winning.index].p.value < SIGNIFICANCE
    then winning
    else NoPick
  }

  datatype Analysis = Analysis(winning: Pick, winner: Pick, variants: seq<Stat>)

  /** The value `analyse_ab_test_results` returns. */
  function Analyse(aggs: seq<Agg>, values: seq<string>, pmf: Pmf): (a: Analysis)
    ensures |a.variants| == |aggs|
    ensures a.winner.Pick? ==> a.winner == a.winning && 0 <= a.winner.index < |aggs|
  {
    var stats := Stats(aggs, values, pmf);
    ScanLeaderInRange(stats);
    var winning := Scan(stats).1;
    Analysis(winning, Decide(stats, winning), stats)
  }

  lemma {:induction false} ScanLeaderInRange(stats: seq<Stat>)
    ensures Scan(stats).1.Pick? ==> 0 <= Scan(stats).1.index < |stats|
    decreases |stats|
  {
    if stats != [] {
      ScanLeaderInRange(stats[..|stats| - 1]);
    }
  }

  /** The running maximum is the largest rate seen, or 0 when no rate is positive. */
  lemma {:induction false} ScanMax(stats: seq<Stat>)
    ensures Scan(stats).0 >= 0.0
    ensures forall i :: 0 <= i < |stats| ==> stats[i].rate <= Scan(stats).0
    ensures Scan(stats).0 == 0.0 || exists i :: 0 <= i < |stats| && stats[i].rate == Scan(stats).0
    decreases |stats|
  {
    if stats != [] {
      var prefix := stats[..|stats| - 1];
      ScanMax(prefix);
      assert forall i :: 0 <= i < |prefix| ==> prefix[i] == stats[i];
    }
  }

  /** The leader is the last variant that took the lead; there is none when no
      variant ever did. */
  lemma {:induction false} ScanWinning(stats: seq<Stat>)
    ensures forall i :: Scan(stats).1 == Pick(i) <==>
      0 <= i < |stats| && TakesLead(stats, i) && forall j :: i < j < |stats| ==> !TakesLead(stats, j)
    ensures Scan(stats).1 == NoPick <==> forall j :: 0 <= j < |stats| ==> !TakesLead(stats, j)
    decreases |stats|
  {
    if stats != [] {
      var n := |stats| - 1;
      var prefix := stats[..n];
      ScanWinning(prefix);
      ScanLeaderInRange(prefix);
      TakesLeadPrefix(stats, n);
      if TakesLead(stats, n) {
        assert Scan(stats).1 == Pick(n);
        forall i ensures Scan(stats).1 == Pick(i) <==>
          0 <= i < |stats| && TakesLead(stats, i) && forall j :: i < j < |stats| ==> !TakesLead(stats, j)
        {
          if 0 <= i < n {
            assert TakesLead(stats, n);
          }
        }
      } else {
        assert Scan(stats).1 == Scan(prefix).1;
        forall i ensures Scan(stats).1 == Pick(i) <==>
          0 <= i < |stats| && TakesLead(stats, i) && forall j :: i < j < |stats| ==> !TakesLead(stats, j)
        {
          if 0 <= i < n {
            assert (forall j :: i < j < n ==> !TakesLead(prefix, j)) <==>
              (forall j :: i < j < |stats| ==> !TakesLead(stats, j));
          }
        }
      }
    }
  }

  /** Whether an earlier variant takes the lead does not depend on the
      variants after it. */
  lemma TakesLeadPrefix(stats: seq<Stat>, n: int)
    requires 0 <= n <= |stats|
    ensures forall j :: 0 <= j < n ==> (TakesLead(stats[..n], j) <==> TakesLead(stats, j))
  {
    forall j | 0 <= j < n ensures TakesLead(stats[..n], j) <==> TakesLead(stats, j) {
      assert stats[..n][..j] == stats[..j];
    }
  }

  /** A leader beats every earlier variant's rate strictly, and its rate is positive. */
  lemma LeaderBeatsEarlier(stats: seq<Stat>, i: int)
    requires Scan(stats).1 == Pick(i)
    ensures 0 <= i < |stats| && stats[i].rate > 0.0
    ensures forall j :: 0 <= j < i ==> stats[j].rate < stats[i].rate
  {
    ScanWinning(stats);
    ScanMax(stats[..i]);
    assert forall j :: 0 <= j < i ==> stats[..i][j] == stats[j];
  }

  /** Ties never displace a leader: a later variant whose rate does not exceed
      the leader's does not even raise the running maximum. */
  lemma TiesNeverDisplace(stats: seq<Stat>, i: int, j: int)
    requires Scan(stats).1 == Pick(i)
    requires 0 <= i < j < |stats| && stats[j].rate <= stats[i].rate
    ensures !Raises(stats, j)
  {
    ScanWinning(stats);
    ScanMax(stats[..j]);
    assert stats[..j][i] == stats[i];
  }

  /** When no rate is positive there is no leader. */
  lemma NoPositiveRateNoLeader(stats: seq<Stat>)
    requires forall i :: 0 <= i < |stats| ==> stats[i].rate <= 0.0
    ensures Scan(stats).1 == NoPick
  {
    if Scan(stats).1.Pick? {
      LeaderBeatsEarlier(stats, Scan(stats).1.index);
    }
  }

  /** `max_rate` is raised even when the sample check fails: a high rate on a
      small sample (variant 1) keeps a later variant with a large sample and a
      rate above the control's (variant 2) from taking the lead. */
  lemma SmallSampleBlocksLaterVariant()
    ensures var stats := [
        Stat(Some("A"), 100, 10, Rate(100, 10), None),
        Stat(Some("B"), 4, 3, Rate(4, 3), None),
        Stat(Some("C"), 100, 50, Rate(100, 50), None)];
      Scan(stats).1 == Pick(0)
  {
    var stats := [
        Stat(Some("A"), 100, 10, Rate(100, 10), None),
        Stat(Some("B"), 4, 3, Rate(4, 3), None),
        Stat(Some("C"), 100, 50, Rate(100, 50), None)];
    assert stats[..2][..1] == stats[..1];
    assert stats[..1][..0] == [];
    assert Scan(stats[..1]) == (0.1, Pick(0));
    assert Scan(stats[..2]) == (0.75, Pick(0));
  }

  /** No premature winner: a declared winner led with at least 5 hits and 5
      misses, and its p-value was strictly below 0.01. */
  lemma WinnerIsSignificantLeader(aggs: seq<Agg>, values: seq<string>, pmf: Pmf)
    ensures var a := Analyse(aggs, values, pmf);
      a.winner.Pick? ==>
        var i := a.winner.index;
        && a.winning == a.winner
        && HitsOf(aggs[i]) >= 5 && SizeOf(aggs[i]) - HitsOf(aggs[i]) >= 5
        && pmf(SizeOf(aggs[i]), Rate(SizeOf(aggs[0]), HitsOf(aggs[0])), HitsOf(aggs[i])) < SIGNIFICANCE
  {
    var a := Analyse(aggs, values, pmf);
    if a.winner.Pick? {
      var i := a.winner.index;
      ScanWinning(a.variants);
      SampleRule(SizeOf(aggs[i]), HitsOf(aggs[i]));
    }
  }

  /** The winner is exactly the leader whose p-value is below 0.01; in
      particular a p-value of exactly 0.01 declares nothing. */
  lemma WinnerIffSignificant(aggs: seq<Agg>, values: seq<string>, pmf: Pmf, i: int)
    requires 0 <= i < |aggs|
    ensures var a := Analyse(aggs, values, pmf);
      a.winner == Pick(i) <==>
        a.winning == Pick(i) && a.variants[i].p.Some? && a.variants[i].p.value < SIGNIFICANCE
  {
    ScanLeaderInRange(Stats(aggs, values, pmf));
  }

  /** The control's p-value compares it with its own rate. */
  lemma ControlAgainstItself(aggs: seq<Agg>, values: seq<string>, pmf: Pmf)
    requires |aggs| > 0
    ensures var c := Analyse(aggs, values, pmf).variants[0];
      c.p == Some(pmf(c.size, c.rate, c.hits))
  {
  }

  /** The loop of `analyse_ab_test_results`: builds the per-variant statistics
      and tracks `max_rate` and `winning`. */
  method ScanAggregations(aggs: seq<Agg>, values: seq<string>, pmf: Pmf)
    returns (winning: Pick, variants: seq<Stat>)
    ensures variants == Stats(aggs, values, pmf)
    ensures winning == Scan(variants).1
  {
    var maxRate := 0.0;
    winning := NoPick;
    variants := [];
    for i := 0 to |aggs|
      invariant |variants| == i
      invariant forall k :: 0 <= k < i ==> variants[k] == StatAt(aggs, values, pmf, k)
      invariant (maxRate, winning) == Scan(variants)
    {
      var size := SizeOf(aggs[i]);
      var hits := HitsOf(aggs[i]);
      var rate := Rate(size, hits);
      var stat := Stat(ValueAt(values, i), size, hits, rate, None);
      ghost var before := variants;
      ghost var running := (maxRate, winning);
      variants := variants + [stat];

      // Check if this variant is winning.
      if rate > maxRate {
        maxRate := rate;
        if SampleLargeEnough(size, rate) {
          winning := Pick(i);
        }
      }

      // The p-value against the control.
      var control := variants[0];
      variants := variants[i := stat.(p := Some(pmf(size, control.rate, hits)))];
      assert variants == before + [variants[i]];
      ScanStep(before, variants[i]);
    }
  }
}
