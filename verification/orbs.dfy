/**
 * The special-orb catalog, the weighted choice of an orb type and the speed
 * effects that orbs switch on.
 *
 * Spawn chances are relative weights; they are kept here multiplied by 100
 * (0.2, 0.3, 0.25, 0.25, 0.4 become 20, 30, 25, 25, 40), and the speed
 * modifier is kept as a percentage of the move interval (1, 0.7, 1.3 become
 * 100, 70, 130).
 */
module Orbs {
  import opened Wrappers
  import opened Grid

  datatype OrbKind = Negative | Positive | SpeedUp | SlowDown | Crystal

  /** Catalog order; the weighted choice walks it front to back. */
  const Catalog: seq<OrbKind> := [Negative, Positive, SpeedUp, SlowDown, Crystal]

  function Weight(k: OrbKind): int
  {
    match k
    case Negative => 20
    case Positive => 30
    case SpeedUp => 25
    case SlowDown => 25
    case Crystal => 40
  }

  const TotalWeight: int := 140

  /** Sum of the weights of the first `n` catalog entries. */
  function CumWeight(n: nat): int
    requires n <= |Catalog|
  {
    if n == 0 then 0 else CumWeight(n - 1) + Weight(Catalog[n - 1])
  }

  /** Lifetime of an orb on the board, if it has one. */
  function DisappearTime(k: OrbKind): Option<int>
  {
    match k
    case SpeedUp => Some(15000)
    case SlowDown => Some(15000)
    case Crystal => Some(12000)
    case _ => None
  }

  /** How long a speed effect lasts once collected. */
  const SpeedEffectDuration: int := 15000

  /** An orb on the board. */
  datatype Orb = Orb(cell: Cell, kind: OrbKind, createdAt: int, disappearAt: Option<int>)

  /** The removal time an orb created at `now` is given. */
  function DisappearAt(k: OrbKind, now: int): Option<int>
  {
    match DisappearTime(k)
    case None => None
    case Some(t) => Some(now + t)
  }

  // ---------------------------------------------------------------------
  // Weighted choice
  // ---------------------------------------------------------------------

  /**
   * The choice loop from catalog entry `i` on, with `random` the threshold
   * left after subtracting the earlier weights.
   */
  function PickFrom(random: real, i: nat): Option<OrbKind>
    requires i <= |Catalog|
    decreases |Catalog| - i
  {
    if i == |Catalog| then None
    else
      var r := random - Weight(Catalog[i]) as real;
      if r <= 0.0 then Some(Catalog[i]) else PickFrom(r, i + 1)
  }

  /** The orb type chosen for a threshold drawn from [0, TotalWeight). */
  function PickKind(threshold: real): Option<OrbKind>
  {
    PickFrom(threshold, 0)
  }

  /** The catalog's weights add up to TotalWeight. */
  lemma CumWeightTotal()
    ensures CumWeight(|Catalog|) == TotalWeight
  {
    assert CumWeight(1) == 20;
    assert CumWeight(2) == 50;
    assert CumWeight(3) == 75;
    assert CumWeight(4) == 100;
  }

  lemma CumWeightMonotone(i: nat, j: nat)
    requires i <= j <= |Catalog|
    ensures CumWeight(i) <= CumWeight(j)
    decreases j - i
  {
    if i < j {
      CumWeightMonotone(i, j - 1);
    }
  }

  lemma {:induction false} PickFromByWeight(threshold: real, i: nat, j: nat)
    requires i <= j < |Catalog|
    requires i == 0 || CumWeight(i) as real < threshold
    ensures PickFrom(threshold - CumWeight(i) as real, i) == Some(Catalog[j]) <==>
            (j == 0 || CumWeight(j) as real < threshold) && threshold <= CumWeight(j + 1) as real
    decreases |Catalog| - i
  {
    var r := threshold - CumWeight(i) as real - Weight(Catalog[i]) as real;
    assert r == threshold - CumWeight(i + 1) as real;
    if r <= 0.0 {
      if i < j {
        CumWeightMonotone(i + 1, j);
      }
    } else if i < j {
      PickFromByWeight(threshold, i + 1, j);
    } else {
      PickFromLater(r, i + 1, i);
    }
  }

  /**
   * Catalog entry `i` is chosen exactly for the thresholds in its slice
   * (CumWeight(i), CumWeight(i + 1)] of the running sum (the first slice
   * also takes everything below it): each type owns a slice as wide as its
   * weight, and the earlier entry wins at a boundary.
   */
  lemma PickKindByWeight(threshold: real, i: nat)
    requires i < |Catalog|
    ensures PickKind(threshold) == Some(Catalog[i]) <==>
            (i == 0 || CumWeight(i) as real < threshold) && threshold <= CumWeight(i + 1) as real
  {
    PickFromByWeight(threshold, 0, i);
  }

  /** The choice yields a type exactly when the threshold is at most the total weight. */
  lemma {:induction false} PickKindTotal(threshold: real)
    ensures PickKind(threshold).Some? <==> threshold <= TotalWeight as real
  {
    if threshold <= TotalWeight as real {
      var i := 0;
      while i < |Catalog| - 1 && CumWeight(i + 1) as real < threshold
        invariant 0 <= i < |Catalog|
        invariant i == 0 || CumWeight(i) as real < threshold
      {
        i := i + 1;
      }
      PickKindByWeight(threshold, i);
    } else {
      PickFromAboveTotal(threshold, 0);
    }
  }

  lemma {:induction false} PickFromAboveTotal(threshold: real, i: nat)
    requires i <= |Catalog| && threshold > TotalWeight as real
    ensures PickFrom(threshold - CumWeight(i) as real, i) == None
    decreases |Catalog| - i
  {
    if i < |Catalog| {
      CumWeightMonotone(i + 1, |Catalog|);
      CumWeightTotal();
      assert threshold - CumWeight(i) as real - Weight(Catalog[i]) as real
          == threshold - CumWeight(i + 1) as real;
      PickFromAboveTotal(threshold, i + 1);
    }
  }

  /** The loop from entry `i` on never yields an earlier entry. */
  lemma {:induction false} PickFromLater(random: real, i: nat, m: nat)
    requires m < i <= |Catalog|
    ensures PickFrom(random, i) != Some(Catalog[m])
    decreases |Catalog| - i
  {
    if i < |Catalog| {
      PickFromLater(random - Weight(Catalog[i]) as real, i + 1, m);
    }
  }

  /**
   * The weighted choice of generateSpecialOrb: subtract each weight from the
   * threshold in catalog order and take the first type at which it reaches
   * zero or below.
   */
  method ChooseOrbType(threshold: real) returns (kind: Option<OrbKind>)
    ensures kind == PickKind(threshold)
  {
    var random := threshold;
    var i := 0;
    while i < |Catalog|
      invariant 0 <= i <= |Catalog|
      invariant PickFrom(random, i) == PickKind(threshold)
    {
      random := random - Weight(Catalog[i]) as real;
      if random <= 0.0 {
        return Some(Catalog[i]);
      }
      i := i + 1;
    }
    return None;
  }

  // ---------------------------------------------------------------------
  // Speed effects
  // ---------------------------------------------------------------------

  /** At most one speed effect: a modifier in percent and its end time (0: none). */
  datatype ActiveEffects = ActiveEffects(speedModifier: int, speedEffectEndTime: int)

  const NoEffect: ActiveEffects := ActiveEffects(100, 0)

  predicate ValidEffects(e: ActiveEffects)
  {
    e.speedModifier == 70 || e.speedModifier == 100 || e.speedModifier == 130
  }

  /** The expiry test at the top of every moveSnake call. */
  function AfterExpiry(e: ActiveEffects, now: int): (r: ActiveEffects)
    ensures ValidEffects(e) ==> ValidEffects(r)
    ensures r == e || r == NoEffect
    ensures 0 < e.speedEffectEndTime <= now ==> r == NoEffect
    ensures r.speedEffectEndTime == 0 || r.speedEffectEndTime > now
            || e.speedEffectEndTime <= 0
  {
    if e.speedEffectEndTime > 0 && now >= e.speedEffectEndTime then NoEffect else e
  }

  /**
   * The effect after collecting an orb of kind `k` at `now`: a speed orb
   * replaces whatever was active, the others leave it alone.
   */
  function AfterOrbEffect(e: ActiveEffects, k: OrbKind, now: int): (r: ActiveEffects)
    ensures ValidEffects(e) ==> ValidEffects(r)
    ensures k != SpeedUp && k != SlowDown ==> r == e
    ensures k == SpeedUp || k == SlowDown ==> r.speedEffectEndTime == now + SpeedEffectDuration
    ensures k == SpeedUp ==> r.speedModifier < 100
    ensures k == SlowDown ==> r.speedModifier > 100
  {
    match k
    case SpeedUp => ActiveEffects(70, now + SpeedEffectDuration)
    case SlowDown => ActiveEffects(130, now + SpeedEffectDuration)
    case _ => e
  }

  /** Speed orbs do not stack: the effect before the pickup makes no difference. */
  lemma SpeedOrbsOverwrite(e1: ActiveEffects, e2: ActiveEffects, k: OrbKind, now: int)
    requires k == SpeedUp || k == SlowDown
    ensures AfterOrbEffect(e1, k, now) == AfterOrbEffect(e2, k, now)
  {
  }
}
