/** Regeneration of points over time. */
module Points {
  import opened Options
  import opened Uint128
  import opened Ledger

  /** Points do not exceed the stake. */
  ghost predicate PointsOk(acc: Account) {
    acc.points <= acc.staking
  }

  function Min(a: int, b: int): int {
    if a < b then a else b
  }

  /** What an account has regenerated after a number of seconds. */
  ghost function Regenerated(staking: int, points: int, elapsed: int): int
    requires elapsed >= 0
  {
    Min(staking, points + staking * elapsed / 604800)
  }

  lemma MulMonotone(a: int, b: int, c: int)
    requires a <= b && c >= 0
    ensures a * c <= b * c && c * a <= c * b
  {
  }

  lemma DivMonotone(a: int, b: int)
    requires a <= b
    ensures a / WEEK <= b / WEEK
  {
  }

  /** Points fail to be computed only when they exceed the stake, time runs back or the product overflows. */
  lemma PointsFailIff(acc: Account, ts: nat)
    ensures CurrentPoints(acc, ts).Err? <==>
            || acc.points > acc.staking
            || ts < acc.lastPointsTs
            || (ts - acc.lastPointsTs < WEEK && acc.staking * (ts - acc.lastPointsTs) >= LIMIT)
    ensures CurrentPoints(acc, ts).Ok? ==> acc.points <= CurrentPoints(acc, ts).value <= acc.staking
  {
    var elapsed := ts - acc.lastPointsTs;
    if 0 < elapsed < WEEK {
      assert acc.staking * elapsed >= 0;
    } else if elapsed == 0 {
      assert acc.staking * elapsed == 0;
    }
  }

  /**
   Whenever the points of an account can be computed they are its old points plus its share, up to the
   stake.
   */
  lemma PointsAreRegenerated(acc: Account, ts: nat)
    requires CurrentPoints(acc, ts).Ok?
    ensures PointsOk(acc) && acc.lastPointsTs <= ts
    ensures CurrentPoints(acc, ts).value == Regenerated(acc.staking, acc.points, ts - acc.lastPointsTs)
  {
    PointsFailIff(acc, ts);
    var elapsed := ts - acc.lastPointsTs;
    if elapsed >= WEEK {
      MulMonotone(WEEK, elapsed, acc.staking);
      DivMonotone(acc.staking * WEEK, acc.staking * elapsed);
    } else {
      assert acc.staking * elapsed >= 0;
      if elapsed == 0 {
        assert acc.staking * elapsed == 0;
      }
    }
  }

  lemma RegenerationIsMonotone(staking: int, points: int, e: int, f: int)
    requires 0 <= points <= staking && 0 <= e <= f
    ensures points <= Regenerated(staking, points, e) <= Regenerated(staking, points, f) <= staking
  {
    MulMonotone(e, f, staking);
    DivMonotone(staking * e, staking * f);
    assert staking * e >= 0;
  }

  lemma SplitDivision(a: nat, b: nat)
    ensures a / WEEK + b / WEEK <= (a + b) / WEEK <= a / WEEK + b / WEEK + 1
  {
  }

  /**
   Updating at a time in between never gains points over one update for the whole time, and loses
   at most one.
   */
  lemma UpdatingInBetween(staking: int, points: int, e: int, f: int)
    requires 0 <= points <= staking && e >= 0 && f >= 0
    ensures var direct := Regenerated(staking, points, e + f);
            direct - 1 <= Regenerated(staking, Regenerated(staking, points, e), f) <= direct
  {
    assert staking * e >= 0 && staking * f >= 0;
    assert staking * (e + f) == staking * e + staking * f;
    SplitDivision(staking * e, staking * f);
  }

  /** The same, for accounts, whenever the updates can be made. */
  lemma AccountUpdatedInBetween(acc: Account, t: nat, u: nat)
    requires UpdatePoints(acc, t).Ok? && CurrentPoints(UpdatePoints(acc, t).value, u).Ok? && CurrentPoints(acc, u).Ok?
    ensures var inTwo, direct := CurrentPoints(UpdatePoints(acc, t).value, u).value, CurrentPoints(acc, u).value;
            direct - 1 <= inTwo <= direct
  {
    PointsAreRegenerated(acc, u);
    if acc.lastPointsTs != t {
      PointsAreRegenerated(acc, t);
      PointsAreRegenerated(UpdatePoints(acc, t).value, u);
      UpdatingInBetween(acc.staking, acc.points, t - acc.lastPointsTs, u - t);
    }
  }

  // --------------------------------------------------------------------------------------------
  // Fetching
  // --------------------------------------------------------------------------------------------

  /** An account as a fetch at the state's time leaves it. */
  ghost predicate Current(acc: Account, ts: nat) {
    && (acc.lastPointsTs == ts || (acc.lastPointsTs <= ts && acc.points == acc.staking == 0))
    && (acc.lastUnstakingTs == 0 || ts - acc.lastUnstakingTs < WEEK)
  }

  /** Only an account that has never been written is fetched with an old time, and it owns nothing. */
  lemma FetchedIsCurrent(s: State, a: Address)
    requires GetAccount(s, a).Ok?
    ensures var acc := GetAccount(s, a).value;
            Current(acc, s.timestamp) && (acc.lastPointsTs == s.timestamp || acc == NEW_ACCOUNT)
  {
  }

  /** Fetching an account just written in the same block gives it back. */
  lemma Refetched(s: State, a: Address)
    requires a in s.accounts && Current(s.accounts[a], s.timestamp)
    ensures GetAccount(s, a) == Ok(s.accounts[a]) || GetAccount(s, a) == Ok(s.accounts[a].(lastPointsTs := s.timestamp))
  {
    var acc := s.accounts[a];
    if acc.lastPointsTs < s.timestamp {
      assert acc.staking * (s.timestamp - acc.lastPointsTs) == 0;
      assert UpdatePoints(acc, s.timestamp) == Ok(acc.(lastPointsTs := s.timestamp));
    }
  }
}
