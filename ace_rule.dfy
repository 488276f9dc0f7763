/** The Ace rule shared by the two `Hand#total` implementations: every Ace is first counted
    as 11, then Aces are demoted to 1 (10 points off each) one at a time while the total is
    above 21 and Aces remain. */
module AceRule {

  const Limit: int := 21

  function Min(a: int, b: int): int { if a <= b then a else b }

  /** How many Aces the demotion loop demotes, one at a time: none once the sum is within
      the limit or no Ace is left, otherwise one more than from the sum 10 lower. */
  function Demotions(raw: int, aces: nat): (k: nat)
    ensures k <= aces
    decreases aces
  {
    if raw <= Limit || aces == 0 then 0 else 1 + Demotions(raw - 10, aces - 1)
  }

  /** Each demotion but the last leaves the sum above the limit, and demotion stops once
      the sum is within the limit or no Ace is left. */
  lemma {:induction false} DemotionsStepwise(raw: int, aces: nat)
    ensures forall j :: 0 <= j < Demotions(raw, aces) ==> raw - 10 * j > Limit
    ensures raw - 10 * Demotions(raw, aces) <= Limit || Demotions(raw, aces) == aces
    decreases aces
  {
    if raw > Limit && aces > 0 {
      DemotionsStepwise(raw - 10, aces - 1);
      forall j | 0 <= j < Demotions(raw, aces) ensures raw - 10 * j > Limit {
        if j > 0 {
          assert (raw - 10) - 10 * (j - 1) > Limit;
        }
      }
    }
  }

  /** In closed form: none within the limit, otherwise the fewest that bring the sum
      within it (the sum less 12, in tens), or every Ace when that is not enough. */
  lemma DemotionsClosedForm(raw: int, aces: nat)
    ensures Demotions(raw, aces) == if raw <= Limit then 0 else Min(aces, (raw - 12) / 10)
  {
    var k := Demotions(raw, aces);
    DemotionsStepwise(raw, aces);
    if raw > Limit {
      var q := (raw - 12) / 10;
      assert raw - 10 * q <= Limit && (q == 0 || raw - 10 * (q - 1) > Limit);
      if k < q {
        assert raw - 10 * k > Limit;
      }
    }
  }

  /** The total after demotion. */
  function Normalized(raw: int, aces: nat): int
  {
    raw - 10 * Demotions(raw, aces)
  }

  /** The demotion loop of `Hand#total`, run `aces` times at most: stop once the sum is
      within the limit, otherwise take 10 off. */
  method Normalize(raw: int, aces: nat) returns (total: int)
    ensures total == Normalized(raw, aces)
  {
    total := raw;
    var demoted := 0;
    while demoted < aces
      invariant demoted <= aces && total == raw - 10 * demoted
      invariant Demotions(raw, aces) == demoted + Demotions(total, aces - demoted)
    {
      if total <= Limit {
        break;
      }
      total := total - 10;
      demoted := demoted + 1;
    }
  }

  /** The total lies between the all-demoted and the raw sum; it exceeds the limit only
      when every Ace has been demoted; and once an Ace has been demoted it is at least 12. */
  lemma NormalizedBounds(raw: int, aces: nat)
    ensures raw - 10 * aces <= Normalized(raw, aces) <= raw
    ensures Normalized(raw, aces) > Limit ==> Demotions(raw, aces) == aces
    ensures Demotions(raw, aces) > 0 ==> Normalized(raw, aces) >= 12
  {
    var k := Demotions(raw, aces);
    DemotionsStepwise(raw, aces);
    if k > 0 {
      assert raw - 10 * (k - 1) > Limit;
    }
  }

  /** Demotion never leaves a total above the limit while an Ace is still counted as 11. */
  lemma NormalizedWithinLimit(raw: int, aces: nat)
    requires raw <= Limit + 10 * aces
    ensures Normalized(raw, aces) <= Limit
  {
    DemotionsStepwise(raw, aces);
  }
}
