/**
 The reselect round counter that `runner_session_start` resets and `enter_reselect_round` moves on,
 and the randomization of every n-th round.
 */
module ReselectRound {
  import opened Prelude

  const BIGINT_MAX: nat := 0x7fff_ffff_ffff_ffff

  /** The round that `enter_reselect_round` returns when the setting reads `setting`. */
  function Entered(setting: nat): nat {
    if setting == BIGINT_MAX then 0 else setting
  }

  function NextSetting(setting: nat): nat {
    Entered(setting) + 1
  }

  /** The setting `pg_cmd_queue.runner.reselect_round` of one session. */
  class RoundSetting {
    var setting: nat
    ghost var calls: nat  // of EnterReselectRound since the session started

    ghost predicate Valid()
      reads this
    {
      setting == SettingAfter(calls)
    }

    constructor RunnerSessionStart()
      ensures Valid() && calls == 0 && setting == 0
    {
      setting, calls := 0, 0;
    }

    /** The m-th call of a session returns (m - 1) mod (2^63 - 1); the addition stays in range. */
    method EnterReselectRound() returns (round: nat)
      requires Valid()
      modifies this
      ensures Valid() && calls == old(calls) + 1
      ensures round == old(calls) % BIGINT_MAX
      ensures 0 < setting <= BIGINT_MAX
    {
      round := setting;
      if round == BIGINT_MAX {
        round := 0;
      }
      setting := round + 1;
      calls := calls + 1;
      MthCall(calls);
    }
  }

  ghost function SettingAfter(calls: nat): nat {
    if calls == 0 then 0 else NextSetting(SettingAfter(calls - 1))
  }

  lemma {:induction false} MthCall(m: nat)
    requires 0 < m
    ensures Entered(SettingAfter(m - 1)) == (m - 1) % BIGINT_MAX
    ensures 0 < SettingAfter(m) <= BIGINT_MAX
  {
    if m > 1 {
      MthCall(m - 1);
    }
  }

  // ----- Every n-th round -----

  /** The value of `reselect_round` in the runner after the m-th empty regular select of a session;
      before the first one it is 0. */
  ghost function RoundNumber(m: nat): nat {
    if m == 0 then 0 else (m - 1) % BIGINT_MAX
  }

  predicate Randomized(round: nat, everyNth: pos) {
    round % everyNth == 0
  }

  lemma NoSmallMultiple(d: int, n: pos)
    ensures n * d <= 0 || n <= n * d
  {
    if 1 <= d {
      assert n * d == n + n * (d - 1) && 0 <= n * (d - 1);
    }
  }

  lemma MultiplesApart(a: nat, b: nat, n: pos)
    requires a < b < a + n
    ensures !Randomized(a, n) || !Randomized(b, n)
  {
    var qa, qb := a / n, b / n;
    NoSmallMultiple(qb - qa, n);
    assert n * (qb - qa) == n * qb - n * qa;
  }

  lemma MultipleHasNoRest(k: nat, n: pos)
    ensures Randomized(n * k, n)
  {
    var q := (n * k) / n;
    assert n * (k - q) == n * k - n * q;
    NoSmallMultiple(k - q, n);
  }

  lemma MultipleWithin(v: nat, n: pos) returns (w: nat)
    ensures v <= w < v + n && Randomized(w, n)
  {
    var k := v / n;
    if v == n * k {
      w := v;
      MultipleHasNoRest(k, n);
    } else {
      w := n * (k + 1);
      assert w == n * k + n;
      MultipleHasNoRest(k + 1, n);
    }
  }

  /** Of any n consecutive rounds after the initial one exactly one is randomized, for as long as
      the counter fits the runner's 32-bit integer. */
  lemma OneInEveryNth(first: nat, everyNth: pos)
    requires 1 <= first && first + everyNth <= 0x8000_0001
    ensures exists m :: first <= m < first + everyNth && Randomized(RoundNumber(m), everyNth)
                     && forall other :: first <= other < first + everyNth && other != m ==>
                               !Randomized(RoundNumber(other), everyNth)
  {
    hide Randomized, RoundNumber;
    var w := MultipleWithin(first - 1, everyNth);
    NumberIs(w + 1);
    assert Randomized(RoundNumber(w + 1), everyNth);
    forall other | first <= other < first + everyNth && other != w + 1
      ensures !Randomized(RoundNumber(other), everyNth)
    {
      NumberIs(other);
      if other - 1 < w { MultiplesApart(other - 1, w, everyNth); } else { MultiplesApart(w, other - 1, everyNth); }
    }
  }

  lemma NumberIs(m: nat)
    requires 1 <= m <= 0x8000_0001
    ensures RoundNumber(m) == m - 1
  {
  }

  /** The initial round does not fit the pattern: it and the round entered first both have number 0,
      so both are randomized whatever n is. */
  lemma FirstTwoBothRandomized(everyNth: pos)
    ensures Randomized(RoundNumber(0), everyNth) && Randomized(RoundNumber(1), everyNth)
    ensures 1 < everyNth ==> !Randomized(RoundNumber(2), everyNth)
  {
  }
}
