/**
 The resolver told by what happened: when a fetch was started, what it brought, and when the resolver was closed.
 Nothing here rests on the fields in which the resolver keeps those facts.
 */
module JwksRuns {
  import opened Options
  import opened Jwks

  lemma {:induction false} RunCuts(cfg: Config, s: State, run: seq<Action>, n: nat)
    requires IsRun(cfg, s, run) && n <= |run|
    ensures IsRun(cfg, s, run[..n])
    ensures n < |run| ==> Enabled(After(cfg, s, run[..n]), run[n])
    ensures n < |run| ==>
              IsRun(cfg, s, run[..n + 1]) && After(cfg, s, run[..n + 1]) == Next(cfg, After(cfg, s, run[..n]), run[n])
    decreases |run|
  {
    if n == 0 {
      if run != [] {
        assert run[..1][1..] == [];
      }
    } else {
      RunCuts(cfg, Next(cfg, s, run[0]), run[1..], n - 1);
      assert run[..n][1..] == run[1..][..n - 1];
      if n < |run| {
        assert run[..n + 1][1..] == run[1..][..n];
      }
    }
  }

  /** The state after the first `n` steps. */
  ghost function StateAt(cfg: Config, s: State, run: seq<Action>, n: nat): State
    requires IsRun(cfg, s, run) && n <= |run|
  {
    RunCuts(cfg, s, run, n);
    After(cfg, s, run[..n])
  }

  lemma StepAt(cfg: Config, s: State, run: seq<Action>, n: nat)
    requires IsRun(cfg, s, run) && n < |run|
    ensures Enabled(StateAt(cfg, s, run, n), run[n])
    ensures StateAt(cfg, s, run, n + 1) == Next(cfg, StateAt(cfg, s, run, n), run[n])
  {
    RunCuts(cfg, s, run, n);
  }

  lemma {:induction false} AdvancesAt(cfg: Config, s: State, run: seq<Action>, n: nat)
    requires IsRun(cfg, s, run) && Monotone(cfg, s, run) && n < |run|
    ensures Advances(StateAt(cfg, s, run, n), run[n])
    decreases |run|
  {
    if n == 0 {
      assert run[..0] == [];
    } else {
      AdvancesAt(cfg, Next(cfg, s, run[0]), run[1..], n - 1);
      assert run[..n][1..] == run[1..][..n - 1];
    }
  }

  /** Step `i` sends a request to the issuer. */
  ghost predicate StartsFetch(cfg: Config, s: State, run: seq<Action>, i: nat)
    requires IsRun(cfg, s, run) && i < |run|
  {
    run[i].RunClaim? && StateAt(cfg, s, run, i + 1).flight.Fetching?
  }

  /** Only such a step ever gets a fetch under way, so only those are followed by an outcome. */
  lemma OnlyClaimsFetch(cfg: Config, s: State, a: Action)
    requires Enabled(s, a) && Next(cfg, s, a).flight.Fetching?
    ensures s.flight.Fetching? || a.RunClaim?
  {
  }

  // ----- the rate floor

  /** The attempt the floor is measured from is `at` or a later one. */
  ghost predicate Floored(s: State, at: int) {
    s.core.lastAttempt.Some? && at <= s.core.lastAttempt.value
  }

  lemma StepKeepsFloored(cfg: Config, s: State, a: Action, at: int)
    requires cfg.minRefresh > 0 && Enabled(s, a) && Advances(s, a) && Floored(s, at)
    ensures Floored(Next(cfg, s, a), at)
    ensures a.RunClaim? && Next(cfg, s, a).flight.Fetching? ==> a.recorded - at >= cfg.minRefresh
  {
  }

  lemma ClaimFloors(cfg: Config, s: State, a: Action)
    requires Enabled(s, a) && a.RunClaim? && Next(cfg, s, a).flight.Fetching?
    ensures Floored(Next(cfg, s, a), a.recorded)
  {
  }

  lemma {:induction false} FlooredAt(cfg: Config, s: State, run: seq<Action>, m: nat, n: nat, at: int)
    requires cfg.minRefresh > 0 && IsRun(cfg, s, run) && Monotone(cfg, s, run) && m <= n <= |run|
    requires Floored(StateAt(cfg, s, run, m), at)
    ensures Floored(StateAt(cfg, s, run, n), at)
  {
    if m < n {
      FlooredAt(cfg, s, run, m, n - 1, at);
      StepAt(cfg, s, run, n - 1);
      AdvancesAt(cfg, s, run, n - 1);
      StepKeepsFloored(cfg, StateAt(cfg, s, run, n - 1), run[n - 1], at);
    }
  }

  /** Any two requests of a run are at least the floor apart. */
  lemma FetchesAreSpaced(cfg: Config, s: State, run: seq<Action>, i: nat, j: nat)
    requires Validate(cfg).None? && IsRun(cfg, s, run) && Monotone(cfg, s, run) && i < j < |run|
    requires StartsFetch(cfg, s, run, i) && StartsFetch(cfg, s, run, j)
    ensures run[j].recorded - run[i].recorded >= cfg.minRefresh
  {
    StepAt(cfg, s, run, i);
    ClaimFloors(cfg, StateAt(cfg, s, run, i), run[i]);
    FlooredAt(cfg, s, run, i + 1, j, run[i].recorded);
    StepAt(cfg, s, run, j);
    AdvancesAt(cfg, s, run, j);
    StepKeepsFloored(cfg, StateAt(cfg, s, run, j), run[j], run[i].recorded);
  }

  /** And the first comes at least the floor after a construction fetch that succeeded. */
  lemma FirstFetchIsSpaced(cfg: Config, t0: int, t1: int, keys: KeySet, run: seq<Action>, j: nat)
    requires Validate(cfg).None? && IsRun(cfg, Built(cfg, t0, t1, Some(keys)), run)
    requires Monotone(cfg, Built(cfg, t0, t1, Some(keys)), run)
    requires j < |run| && StartsFetch(cfg, Built(cfg, t0, t1, Some(keys)), run, j)
    ensures run[j].recorded - t0 >= cfg.minRefresh
  {
    var s := Built(cfg, t0, t1, Some(keys));
    assert run[..0] == [] && StateAt(cfg, s, run, 0) == s;
    FlooredAt(cfg, s, run, 0, j, t0);
    StepAt(cfg, s, run, j);
    AdvancesAt(cfg, s, run, j);
    StepKeepsFloored(cfg, StateAt(cfg, s, run, j), run[j], t0);
  }

  // ----- close

  lemma {:induction false} ClosedAt(cfg: Config, s: State, run: seq<Action>, m: nat, n: nat)
    requires IsRun(cfg, s, run) && m <= n <= |run| && StateAt(cfg, s, run, m).core.closed
    ensures StateAt(cfg, s, run, n).core.closed
  {
    if m < n {
      ClosedAt(cfg, s, run, m, n - 1);
      StepAt(cfg, s, run, n - 1);
    }
  }

  /** Once the resolver has been closed, no request is sent. */
  lemma NoFetchAfterClose(cfg: Config, s: State, run: seq<Action>, i: nat, j: nat)
    requires IsRun(cfg, s, run) && i < j < |run| && run[i].CloseResolver?
    ensures !StartsFetch(cfg, s, run, j)
  {
    StepAt(cfg, s, run, i);
    ClosedAt(cfg, s, run, i + 1, j);
    StepAt(cfg, s, run, j);
  }

  // ----- keys

  ghost predicate NoFetchOk(run: seq<Action>, m: nat, n: nat)
    requires n <= |run|
  {
    forall k | m <= k < n :: !run[k].FetchOk?
  }

  /** The set held is the one the last successful fetch of the run brought, at the time it did; or, without one, the
      one held at the start. */
  lemma {:induction false} HeldKeys(cfg: Config, s: State, run: seq<Action>, n: nat) returns (i: nat)
    requires IsRun(cfg, s, run) && n <= |run|
    ensures var core := StateAt(cfg, s, run, n).core;
            if NoFetchOk(run, 0, n) then core.keys == s.core.keys && core.fetchedAt == s.core.fetchedAt
            else
              && i < n && NoFetchOk(run, i + 1, n) && run[i] == FetchOk(core.keys)
              && core.fetchedAt == Some(StateAt(cfg, s, run, i).now)
  {
    i := 0;
    if n == 0 {
      assert run[..0] == [];
    } else {
      StepAt(cfg, s, run, n - 1);
      var before := StateAt(cfg, s, run, n - 1);
      StepStores(cfg, before, run[n - 1]);
      if run[n - 1].FetchOk? {
        i := n - 1;
        assert !NoFetchOk(run, 0, n);
      } else {
        i := HeldKeys(cfg, s, run, n - 1);
        assert NoFetchOk(run, 0, n) <==> NoFetchOk(run, 0, n - 1);
      }
    }
  }

  /** A first fill is awaited exactly from a tolerated construction failure to the first fetch that succeeds, so the
      recovery is announced once. */
  lemma {:induction false} FirstFillAwaitedIff(cfg: Config, t0: int, t1: int, fetched: Option<KeySet>,
                                               run: seq<Action>, n: nat)
    requires IsRun(cfg, Built(cfg, t0, t1, fetched), run) && n <= |run|
    ensures StateAt(cfg, Built(cfg, t0, t1, fetched), run, n).core.awaitingFirstFill <==>
            fetched.None? && NoFetchOk(run, 0, n)
  {
    var s := Built(cfg, t0, t1, fetched);
    if n == 0 {
      assert run[..0] == [];
    } else {
      FirstFillAwaitedIff(cfg, t0, t1, fetched, run, n - 1);
      StepAt(cfg, s, run, n - 1);
      StepAwaits(cfg, StateAt(cfg, s, run, n - 1), run[n - 1]);
      assert NoFetchOk(run, 0, n) <==> NoFetchOk(run, 0, n - 1) && !run[n - 1].FetchOk?;
    }
  }

  lemma StepAwaits(cfg: Config, s: State, a: Action)
    requires Enabled(s, a)
    ensures Next(cfg, s, a).core.awaitingFirstFill <==> s.core.awaitingFirstFill && !a.FetchOk?
  {
  }

  lemma StepStores(cfg: Config, s: State, a: Action)
    requires Enabled(s, a)
    ensures a.FetchOk? ==> Next(cfg, s, a).core.keys == a.keys && Next(cfg, s, a).core.fetchedAt == Some(s.now)
    ensures !a.FetchOk? ==>
              Next(cfg, s, a).core.keys == s.core.keys && Next(cfg, s, a).core.fetchedAt == s.core.fetchedAt
  {
  }

  /** A look hands out a key exactly when the set held has the kid and is between zero and the ceiling old, and then
      that key; a first look that does not goes on to refresh, and a second one on to the verdict. */
  lemma LookFinds(cfg: Config, s: State, c: nat, first: bool)
    requires var a := if first then FirstLook(c) else SecondLook(c); Enabled(s, a)
    ensures var a := if first then FirstLook(c) else SecondLook(c);
            var me, p := s.callers[c], Next(cfg, s, a).callers[c].place;
            if && s.core.fetchedAt.Some? && 0 <= s.now - s.core.fetchedAt.value <= cfg.staleCeiling
               && me.kid in s.core.keys
            then p.Returned? && p.answer.Found? && p.answer.key == s.core.keys[me.kid]
            else if first then p == Enter
            else p.Final?
  {
    assert s.callers[c].kid in s.core.keys ==> s.core.keys != map[];
  }
}
