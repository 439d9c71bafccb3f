/** The variant-assignment decision shared by the two front-end scripts
    (src/experiments.js and src/tests.js): reuse a stored bucket, keep an
    excluded visitor out, exclude by traffic percentage, or draw a bucket
    uniformly. The two `Math.random()` draws are inputs in [0, 1). */
module VariantAssignment {
  import opened Common

  /** A stored assignment: `false` (excluded) or a variant index. */
  datatype Stored = Excluded | Assigned(index: int)

  /** What `getVariantId` returns, what it writes to storage under the test's
      key (if anything), and whether it registers the analytics attribute. */
  datatype Decision = Decision(id: Stored, write: Option<Stored>, registers: bool)

  /** `Math.floor( r * variantCount )`. */
  function Bucket(r: real, variantCount: int): int {
    (r * variantCount as real).Floor
  }

  function Decide(stored: Option<Stored>, variantCount: int, trafficPercentage: int, r1: real, r2: real): Decision {
    if stored.Some? && stored.value.Assigned? && stored.value.index < variantCount then
      Decision(stored.value, None, true)
    else if stored == Some(Excluded) then
      Decision(Excluded, None, false)
    else if r1 * 100.0 > trafficPercentage as real then
      Decision(Excluded, Some(Excluded), false)
    else
      Decision(Assigned(Bucket(r2, variantCount)), Some(Assigned(Bucket(r2, variantCount))), true)
  }

  /** A uniform draw lands on a valid variant index. */
  lemma BucketInRange(r: real, variantCount: int)
    requires 0.0 <= r < 1.0 && variantCount > 0
    ensures 0 <= Bucket(r, variantCount) < variantCount
  {
    var n := variantCount as real;
    assert 0.0 <= r * n;
    assert r * n < 1.0 * n by {
      assert (1.0 - r) * n > 0.0;
    }
  }

  /** The cases of the decision, each with its write: a valid stored index is
      reused without a write; a stored `false` is returned without a write or an
      attribute; otherwise a draw above the traffic percentage stores `false`,
      and any other draw stores and returns a valid index. */
  lemma DecideMeans(stored: Option<Stored>, variantCount: int, trafficPercentage: int, r1: real, r2: real)
    requires 0.0 <= r1 < 1.0 && 0.0 <= r2 < 1.0
    ensures var d := Decide(stored, variantCount, trafficPercentage, r1, r2);
      && (stored.Some? && stored.value.Assigned? && stored.value.index < variantCount ==>
            d.id == stored.value && d.write.None? && d.registers)
      && (stored == Some(Excluded) ==> d.id == Excluded && d.write.None? && !d.registers)
      && (d.write.Some? <==>
            (stored.None? || (stored.value.Assigned? && stored.value.index >= variantCount)))
      && (d.write.Some? ==> d.write == Some(d.id))
      && (d.write.Some? && r1 * 100.0 > trafficPercentage as real ==> d.id == Excluded && !d.registers)
      && (d.write.Some? && r1 * 100.0 <= trafficPercentage as real && variantCount > 0 ==>
            d.id.Assigned? && 0 <= d.id.index < variantCount && d.registers)
  {
    if variantCount > 0 {
      BucketInRange(r2, variantCount);
    }
  }

  /** Assignment is sticky: once a decision has been written, every later visit
      returns the same value with no further write, whatever it draws. */
  lemma Sticky(stored: Option<Stored>, variantCount: int, trafficPercentage: int,
      r1: real, r2: real, s1: real, s2: real)
    requires 0.0 <= r2 < 1.0 && variantCount > 0
    ensures var d := Decide(stored, variantCount, trafficPercentage, r1, r2);
      var stored' := if d.write.Some? then d.write else stored;
      var next := Decide(stored', variantCount, trafficPercentage, s1, s2);
      stored'.Some? ==> next.id == d.id && next.write.None?
  {
    BucketInRange(r2, variantCount);
  }

  /** A stored index past the last variant (a stale or overridden value) is
      treated as no assignment at all: the visitor is drawn afresh. */
  lemma OutOfRangeRedrawn(index: int, variantCount: int, trafficPercentage: int, r1: real, r2: real)
    requires index >= variantCount
    ensures Decide(Some(Assigned(index)), variantCount, trafficPercentage, r1, r2)
      == Decide(None, variantCount, trafficPercentage, r1, r2)
  {
  }

  /** `variants[ variantId || 0 ]`: the control for an excluded visitor. */
  function ShownIndex(id: Stored): (i: int)
    ensures id.Assigned? ==> i == id.index
    ensures id == Excluded ==> i == 0
  {
    if id.Assigned? && id.index != 0 then id.index else 0
  }

  /** A goal handler: its callback (an opaque token here) and its `closest` tags. */
  datatype GoalHandler = GoalHandler(callback: int, closest: seq<string>)

  /** The `closest` argument of `registerGoal`: an array of tags or a single tag. */
  datatype Closest = Tags(tags: seq<string>) | Tag(tag: string)

  /** `Array.isArray( closest ) ? closest : [ closest ]`. */
  function ClosestList(c: Closest): (l: seq<string>)
    ensures c.Tags? ==> l == c.tags
    ensures c.Tag? ==> l == [c.tag]
  {
    match c
    case Tags(tags) => tags
    case Tag(tag) => [tag]
  }

  /** Whether the goal handler is bound after the variant is shown: only for an
      assigned visitor, a non-empty event type and a registered handler. */
  predicate TracksGoal(id: Stored, eventType: string, handlers: map<string, GoalHandler>) {
    id != Excluded && eventType != "" && eventType in handlers
  }
}
