/** Per-tenant degradation levels: what a tenant may still use, given what it has spent today. */
module Degradation {
  import opened Basics

  const FULL_SERVICE := 0
  const NO_STRONG := 1
  const FAST_ONLY := 2
  const DETERMINISTIC_ONLY := 3
  const QUEUED := 4

  const FAST := "fast"
  const MID := "mid"
  const STRONG := "strong"
  const TIER_PRIORITY: seq<string> := [STRONG, MID, FAST]

  function ComputeLevel(dailySpend: real, dailyLimit: real): int {
    if dailyLimit <= 0.0 then FULL_SERVICE
    else
      var ratio := dailySpend / dailyLimit;
      if ratio >= 1.0 then QUEUED
      else if ratio >= 0.95 then DETERMINISTIC_ONLY
      else if ratio >= 0.85 then FAST_ONLY
      else if ratio >= 0.70 then NO_STRONG
      else FULL_SERVICE
  }

  function TiersForLevel(level: int): seq<string> {
    if level == FULL_SERVICE then [FAST, MID, STRONG]
    else if level == NO_STRONG then [FAST, MID]
    else if level == FAST_ONLY then [FAST]
    else []
  }

  predicate RejectsLlm(level: int) {
    level >= DETERMINISTIC_ONLY
  }

  /** How capable a tier is; tiers outside the priority list have no rank. */
  function Rank(tier: string): (rank: int)
    requires tier in TIER_PRIORITY
  {
    if tier == STRONG then 2 else if tier == MID then 1 else 0
  }

  /** The first tier at or after position `from` of the priority list that is allowed. */
  function FirstAllowed(allowed: seq<string>, from: nat): string
    requires from < |TIER_PRIORITY|
    requires FAST in allowed
    decreases |TIER_PRIORITY| - from
  {
    if from + 1 == |TIER_PRIORITY| || TIER_PRIORITY[from] in allowed
    then TIER_PRIORITY[from] else FirstAllowed(allowed, from + 1)
  }

  function PriorityIndex(tier: string): (idx: nat)
    requires tier in TIER_PRIORITY
    ensures idx < |TIER_PRIORITY| && TIER_PRIORITY[idx] == tier
  {
    if tier == STRONG then 0 else if tier == MID then 1 else 2
  }

  function CappedTier(level: int, requested: string): string {
    var allowed := TiersForLevel(level);
    if allowed == [] || requested !in TIER_PRIORITY then requested
    else FirstAllowed(allowed, PriorityIndex(requested))
  }

  class DegradationManager {
    var dailyLimit: real
    var tenantLevels: map<string, int>

    constructor (limit: real)
      ensures dailyLimit == limit && tenantLevels == map[]
    {
      dailyLimit := limit;
      tenantLevels := map[];
    }

    function GetLevel(tenant: string): int
      reads this
    {
      if tenant in tenantLevels then tenantLevels[tenant] else FULL_SERVICE
    }

    /** A new limit moves no tenant by itself; it takes effect when a spend is next looked at. */
    method UpdateConfig(limit: real)
      modifies this`dailyLimit
      ensures dailyLimit == limit && forall t :: GetLevel(t) == old(GetLevel(t))
    {
      dailyLimit := limit;
    }

    method SetLevel(tenant: string, level: int)
      modifies this`tenantLevels
      ensures tenantLevels == old(tenantLevels)[tenant := level]
    {
      tenantLevels := tenantLevels[tenant := level];
    }

    /** Recomputes one tenant's level from its spend. The level says exactly how much of the
        limit is gone; every other tenant keeps its level. */
    method UpdateForSpend(tenant: string, dailySpend: real) returns (level: int)
      modifies this`tenantLevels
      ensures level == ComputeLevel(dailySpend, dailyLimit) == GetLevel(tenant)
      ensures tenantLevels == old(tenantLevels)[tenant := level]
      ensures dailyLimit > 0.0 ==> (RejectsLlm(level) <==> 100.0 * dailySpend >= 95.0 * dailyLimit)
      ensures dailyLimit <= 0.0 ==> level == FULL_SERVICE
    {
      level := ComputeLevel(dailySpend, dailyLimit);
      if dailyLimit > 0.0 {
        LevelThresholds(dailySpend, dailyLimit);
      }
      SetLevel(tenant, level);
    }

    /** Every level takes away the strongest tier that is left: from the third on nothing is allowed. */
    method IsTierAllowed(tenant: string, tier: string) returns (allowed: bool)
      ensures allowed <==> tier in TiersForLevel(GetLevel(tenant))
      ensures allowed <==> tier in TIER_PRIORITY && GetLevel(tenant) >= FULL_SERVICE && GetLevel(tenant) + Rank(tier) <= FAST_ONLY
      ensures RejectsLlm(GetLevel(tenant)) ==> !allowed
    {
      AllowedExactly(GetLevel(tenant), tier);
      allowed := tier in TiersForLevel(GetLevel(tenant));
    }

    method CapTier(tenant: string, requested: string) returns (tier: string)
      ensures tier == CappedTier(GetLevel(tenant), requested)
    {
      var allowed := TiersForLevel(GetLevel(tenant));
      if allowed == [] || requested !in TIER_PRIORITY {
        return requested;
      }
      var idx := PriorityIndex(requested);
      while idx < |TIER_PRIORITY|
        invariant idx < |TIER_PRIORITY|
        invariant FirstAllowed(allowed, PriorityIndex(requested)) == FirstAllowed(allowed, idx)
      {
        if TIER_PRIORITY[idx] in allowed {
          return TIER_PRIORITY[idx];
        }
        idx := idx + 1;
      }
      // The fast tier closes the priority list and is in every non-empty allowance.
      assert false;
      tier := requested;
    }

    method ResetTenant(tenant: string)
      modifies this`tenantLevels
      ensures GetLevel(tenant) == FULL_SERVICE
      ensures forall t :: t != tenant ==> GetLevel(t) == old(GetLevel(t))
    {
      tenantLevels := tenantLevels - {tenant};
    }
  }

  /** The level thresholds without the division. */
  lemma LevelThresholds(spend: real, limit: real)
    requires limit > 0.0
    ensures ComputeLevel(spend, limit) == QUEUED <==> spend >= limit
    ensures ComputeLevel(spend, limit) >= DETERMINISTIC_ONLY <==> 100.0 * spend >= 95.0 * limit
    ensures ComputeLevel(spend, limit) >= FAST_ONLY <==> 100.0 * spend >= 85.0 * limit
    ensures ComputeLevel(spend, limit) >= NO_STRONG <==> 100.0 * spend >= 70.0 * limit
  {
    RatioAtLeast(spend, limit, 1.0);
    RatioAtLeast(spend, limit, 0.95);
    RatioAtLeast(spend, limit, 0.85);
    RatioAtLeast(spend, limit, 0.70);
  }

  lemma AllowedExactly(level: int, tier: string)
    ensures tier in TiersForLevel(level) <==> tier in TIER_PRIORITY && level >= FULL_SERVICE && level + Rank(tier) <= FAST_ONLY
  {
    assert TIER_PRIORITY[0] == STRONG && TIER_PRIORITY[1] == MID && TIER_PRIORITY[2] == FAST;
    assert |FAST| == 4 && |MID| == 3 && |STRONG| == 6;
    var allowed := TiersForLevel(level);
    if FULL_SERVICE <= level <= FAST_ONLY { assert allowed[0] == FAST; }
    if FULL_SERVICE <= level <= NO_STRONG { assert allowed[1] == MID; }
    if level == FULL_SERVICE { assert allowed[2] == STRONG; }
  }

  /** More spend never lowers the level and never adds a tier. */
  lemma SpendIsAntitone(spend1: real, spend2: real, limit: real)
    requires limit > 0.0 && spend1 <= spend2
    ensures ComputeLevel(spend1, limit) <= ComputeLevel(spend2, limit)
    ensures forall t :: t in TiersForLevel(ComputeLevel(spend2, limit)) ==> t in TiersForLevel(ComputeLevel(spend1, limit))
  {
    LevelThresholds(spend1, limit);
    LevelThresholds(spend2, limit);
  }

  /** A capped tier is the strongest allowed tier that is no stronger than the one asked for. */
  ghost predicate IsStrongestAllowed(level: int, requested: string, tier: string)
    requires requested in TIER_PRIORITY
  {
    && tier in TIER_PRIORITY && tier in TiersForLevel(level) && Rank(tier) <= Rank(requested)
    && forall t :: t in TiersForLevel(level) && t in TIER_PRIORITY && Rank(t) <= Rank(requested) ==> Rank(t) <= Rank(tier)
  }

  lemma CappedTierIsStrongestAllowed(level: int, requested: string, tier: string)
    requires requested in TIER_PRIORITY && FULL_SERVICE <= level <= FAST_ONLY
    ensures IsStrongestAllowed(level, requested, tier) <==> tier == CappedTier(level, requested)
  {
    var allowed := TiersForLevel(level);
    assert FirstAllowed(allowed, 2) == FAST;
    assert FirstAllowed(allowed, 1) == if MID in allowed then MID else FAST;
    assert FirstAllowed(allowed, 0) == if STRONG in allowed then STRONG else if MID in allowed then MID else FAST;
    assert TIER_PRIORITY[0] == STRONG && TIER_PRIORITY[1] == MID && TIER_PRIORITY[2] == FAST;
    assert |FAST| == 4 && |MID| == 3 && |STRONG| == 6;
    assert allowed[0] == FAST;
    if level <= NO_STRONG { assert allowed[1] == MID; }
    if level == FULL_SERVICE { assert allowed[2] == STRONG; }
  }

  /** With nothing allowed, or with a tier name it does not know, the cap restricts nothing. */
  lemma CapIsIdentityWhenNothingIsAllowed(level: int, requested: string)
    requires level < FULL_SERVICE || level > FAST_ONLY || requested !in TIER_PRIORITY
    ensures CappedTier(level, requested) == requested
  {}

  /** Raising the spend to `spend2` can never buy a stronger capped tier, whatever was spent
      before, exactly when `spend2` is still below the 95% mark. Above it the cap is the identity. */
  lemma CapNeverStrongerIff(spend2: real, limit: real)
    requires limit > 0.0
    ensures (forall spend1: real, requested :: requested in TIER_PRIORITY && spend1 <= spend2 ==> NoStronger(spend1, spend2, limit, requested))
       <==> 100.0 * spend2 < 95.0 * limit
  {
    LevelThresholds(spend2, limit);
    if 100.0 * spend2 < 95.0 * limit {
      forall spend1: real, requested | requested in TIER_PRIORITY && spend1 <= spend2
        ensures NoStronger(spend1, spend2, limit, requested)
      {
        var level1, level2 := ComputeLevel(spend1, limit), ComputeLevel(spend2, limit);
        SpendIsAntitone(spend1, spend2, limit);
        CappedTierIsStrongestAllowed(level1, requested, CappedTier(level1, requested));
        CappedTierIsStrongestAllowed(level2, requested, CappedTier(level2, requested));
      }
    } else {
      var spend1 := 0.7 * limit;
      LevelThresholds(spend1, limit);
      CappedTierIsStrongestAllowed(NO_STRONG, STRONG, MID);
      assert TIER_PRIORITY[0] == STRONG && TIER_PRIORITY[1] == MID;
      CapIsIdentityWhenNothingIsAllowed(ComputeLevel(spend2, limit), STRONG);
      assert !NoStronger(spend1, spend2, limit, STRONG);
    }
  }

  ghost predicate NoStronger(spend1: real, spend2: real, limit: real, requested: string)
    requires requested in TIER_PRIORITY
  {
    var before, after := CappedTier(ComputeLevel(spend1, limit), requested), CappedTier(ComputeLevel(spend2, limit), requested);
    before in TIER_PRIORITY && after in TIER_PRIORITY && Rank(after) <= Rank(before)
  }
}
