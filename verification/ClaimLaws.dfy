/** How many shards a reconciliation claims, and which. */
module ClaimLaws {
  import opened Wrappers
  import opened JobShardStore
  import opened ShardOwnership

  // ----- How many -----

  function Least(a: int, b: int): int {
    if a <= b then a else b
  }

  /** `q` is the quotient of `a` and `b`, rounded toward zero. */
  ghost predicate RoundsToward(a: int, b: int, q: int) {
    if a >= 0 then 0 <= q && q * b <= a < q * b + b else q <= 0 && q * b - b < a <= q * b
  }

  lemma TruncRounds(a: int, b: int)
    requires b > 0
    ensures RoundsToward(a, b, TruncDiv(a, b))
  {
    var n := if a >= 0 then a else -a;
    assert n == b * (n / b) + n % b;
    assert b * (n / b) == (n / b) * b;
    assert a < 0 ==> -(n / b) * b == -((n / b) * b);
  }

  /**
   * The claim budget of one reconciliation. Without a ramp it is the flat budget, if that is positive;
   * once the ramp is over there is no limit; while it lasts, it is the interpolated budget less what
   * has been claimed so far. It is never more than there is to claim, and never negative.
   */
  lemma BudgetAmount(o: Options, elapsedMs: int, claimed: nat, claimable: nat, q: int)
    ensures var limit := ClaimBudgetForThisStep(o, elapsedMs, claimed, claimable);
      && (o.rampUpMs <= 0 ==> limit == if o.claimRampUpBudget >= 0 then Least(claimable, o.claimRampUpBudget) else 0)
      && (0 < o.rampUpMs <= elapsedMs ==> limit == claimable)
      && (o.rampUpMs > 0 && elapsedMs < o.rampUpMs && RoundsToward(elapsedMs * (o.maxBudget - o.initialBudget), o.rampUpMs, q) ==>
            var budget := o.initialBudget + q - claimed; limit == if budget >= 0 then Least(claimable, budget) else 0)
  {
    if o.rampUpMs > 0 && elapsedMs < o.rampUpMs {
      var a := elapsedMs * (o.maxBudget - o.initialBudget);
      TruncRounds(a, o.rampUpMs);
      if RoundsToward(a, o.rampUpMs, q) {
        RoundsOnce(a, o.rampUpMs, q, TruncDiv(a, o.rampUpMs));
      }
    }
  }

  lemma MultiplesApart(p: int, q: int, b: int)
    requires b > 0 && p < q
    ensures p * b + b <= q * b
  {
    var d := q - p - 1;
    assert d * b >= 0;
    assert q * b == p * b + b + d * b;
  }

  lemma RoundsOnce(a: int, b: int, p: int, q: int)
    requires b > 0 && RoundsToward(a, b, p) && RoundsToward(a, b, q)
    ensures p == q
  {
    if p < q { MultiplesApart(p, q, b); }
    if q < p { MultiplesApart(q, p, b); }
  }

  // ----- Which -----

  /** Nobody runs the shard, or a silo that is not active: it is there to be taken. */
  predicate Takeable(me: Silo, active: set<Silo>, r: Record) {
    && !r.poisoned
    && match r.owner
       case None => true
       case Some(other) => other != me && other !in active
  }

  /** How many shards before the `i`-th of a listing are there to be taken. */
  function Rank(me: Silo, active: set<Silo>, listed: Listed, i: nat): nat
    requires i <= |listed|
  {
    if i == 0 then 0 else Rank(me, active, listed, i - 1) + if Takeable(me, active, listed[i - 1].1) then 1 else 0
  }

  lemma {:induction false} RankTail(me: Silo, active: set<Silo>, listed: Listed, i: nat)
    requires 0 < i <= |listed|
    ensures Rank(me, active, listed, i) == Rank(me, active, listed[1..], i - 1) + if Takeable(me, active, listed[0].1) then 1 else 0
  {
    if i > 1 {
      RankTail(me, active, listed, i - 1);
    }
  }

  /** The claimable shards of a listing are those there to be taken, in its order. */
  lemma {:induction false} ClaimableAt(me: Silo, active: set<Silo>, listed: Listed, i: nat)
    requires i < |listed|
    ensures Takeable(me, active, listed[i].1) ==>
      var k := Rank(me, active, listed, i); k < |ClaimableOf(me, active, listed)| && ClaimableOf(me, active, listed)[k] == listed[i]
  {
    if i > 0 {
      RankTail(me, active, listed, i);
      ClaimableAt(me, active, listed[1..], i - 1);
    }
  }

  lemma {:induction false} ClaimableFrom(me: Silo, active: set<Silo>, listed: Listed, k: nat) returns (i: nat)
    requires k < |ClaimableOf(me, active, listed)|
    ensures i < |listed| && ClaimableOf(me, active, listed)[k] == listed[i]
    ensures Takeable(me, active, listed[i].1) && Rank(me, active, listed, i) == k
  {
    if Takeable(me, active, listed[0].1) && k == 0 {
      i := 0;
    } else {
      i := ClaimableFrom(me, active, listed[1..], if Takeable(me, active, listed[0].1) then k - 1 else k);
      i := i + 1;
      RankTail(me, active, listed, i);
    }
  }

  /** Adopting the shard once more is once too often. */
  predicate TooOften(o: Options, r: Record) {
    r.owner.Some? && r.adoptedCount >= o.maxAdoptedCount
  }

  /** Claiming a shard that is there to be taken, uncontended, wins it, or poisons it. */
  lemma TakeableIsTaken(o: Options, me: Silo, active: set<Silo>, r: Record)
    requires Takeable(me, active, r)
    ensures var (r', won) := Claim(r, me, DeadOwner(active, r), o.maxAdoptedCount);
      if TooOften(o, r) then !won && r'.poisoned && r'.owner.None? else won && r'.owner == Some(me) && !r'.poisoned
  {
  }

  // ----- Listings -----

  ghost predicate KeysApart(listed: Listed) {
    forall i, j | 0 <= i < j < |listed| :: listed[i].0 != listed[j].0
  }

  /** Every shard with jobs is listed, with its record. */
  lemma {:induction false} ListingIsComplete(order: seq<ShardKey>, shards: Shards, key: ShardKey) returns (i: nat)
    requires key in order && key in shards && shards[key].jobs != []
    ensures i < |Listing(order, shards)| && Listing(order, shards)[i] == (key, shards[key].record)
    decreases |order|
  {
    var n := |order| - 1;
    var init := Listing(order[..n], shards);
    if order[n] == key {
      i := |init|;
    } else {
      assert order == order[..n] + [order[n]];
      i := ListingIsComplete(order[..n], shards, key);
    }
  }

  lemma {:induction false} ListingApart(order: seq<ShardKey>, shards: Shards)
    requires forall i, j | 0 <= i < j < |order| :: order[i] != order[j]
    ensures KeysApart(Listing(order, shards))
    decreases |order|
  {
    if order != [] {
      var n := |order| - 1;
      ListingApart(order[..n], shards);
      forall i | 0 <= i < |Listing(order[..n], shards)| ensures Listing(order[..n], shards)[i].0 != order[n] {
        ListingIsCurrent(order[..n], shards, i);
        var k :| 0 <= k < n && order[..n][k] == Listing(order[..n], shards)[i].0;
        assert order[k] != order[n];
      }
    }
  }

  lemma {:induction false} OwnedKeysHas(me: Silo, listed: Listed, i: nat)
    requires i < |listed| && listed[i].1.owner == Some(me)
    ensures listed[i].0 in OwnedKeys(me, listed)
  {
    if i > 0 {
      OwnedKeysHas(me, listed[1..], i - 1);
    }
  }
}
