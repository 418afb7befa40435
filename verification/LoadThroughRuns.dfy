/**
 The flight protocol told by what happened: which callers were cancelled, what their loaders returned and when a
 leader published. Nothing here rests on the fields in which the protocol keeps those facts.
 */
module LoadThroughRuns {
  import opened Options
  import opened LoadThrough

  // ----- a run, step by step

  lemma {:induction false} RunCuts(s: State, run: seq<Action>, n: nat)
    requires IsRun(s, run) && n <= |run|
    ensures IsRun(s, run[..n])
    ensures n < |run| ==> Enabled(After(s, run[..n]), run[n])
    ensures n < |run| ==> IsRun(s, run[..n + 1]) && After(s, run[..n + 1]) == Next(After(s, run[..n]), run[n])
    decreases |run|
  {
    if n == 0 {
      if run != [] {
        assert run[..1][1..] == [];
      }
    } else {
      RunCuts(Next(s, run[0]), run[1..], n - 1);
      assert run[..n][1..] == run[1..][..n - 1];
      if n < |run| {
        assert run[..n + 1][1..] == run[1..][..n];
      }
    }
  }

  /** The state after the first `n` steps. */
  ghost function StateAt(run: seq<Action>, n: nat): State
    requires IsRun(INIT, run) && n <= |run|
  {
    RunCuts(INIT, run, n);
    After(INIT, run[..n])
  }

  lemma StepAt(run: seq<Action>, n: nat)
    requires IsRun(INIT, run) && n < |run|
    ensures Enabled(StateAt(run, n), run[n]) && StateAt(run, n + 1) == Next(StateAt(run, n), run[n])
  {
    RunCuts(INIT, run, n);
  }

  /** The caller that takes step `n`, as it stands before it. */
  ghost function Actor(run: seq<Action>, n: nat): Caller
    requires IsRun(INIT, run) && n < |run| && !run[n].Arrive?
  {
    StepAt(run, n);
    StateAt(run, n).callers[run[n].c]
  }

  lemma InvAt(run: seq<Action>, n: nat)
    requires IsRun(INIT, run) && n <= |run|
    ensures Inv(StateAt(run, n))
  {
    RunCuts(INIT, run, n);
    RunKeepsInv(INIT, run[..n]);
  }

  // ----- what happened to a caller

  /** The caller's context ended within the first `n` steps. */
  ghost predicate Cancelled(run: seq<Action>, n: nat, c: nat)
    requires n <= |run|
  {
    exists j :: 0 <= j < n && run[j] == Cancel(c)
  }

  lemma StepKeepsContext(s: State, a: Action, c: nat)
    requires Enabled(s, a)
    ensures |s.callers| <= |Next(s, a).callers|
    ensures c < |s.callers| ==>
              && Next(s, a).callers[c].id == s.callers[c].id
              && (Next(s, a).callers[c].ctxDone <==> s.callers[c].ctxDone || a == Cancel(c))
    ensures |s.callers| <= c < |Next(s, a).callers| ==> !Next(s, a).callers[c].ctxDone
  {
  }

  lemma {:induction false} SameId(run: seq<Action>, m: nat, n: nat, c: nat)
    requires IsRun(INIT, run) && m <= n <= |run| && c < |StateAt(run, m).callers|
    ensures c < |StateAt(run, n).callers| && StateAt(run, n).callers[c].id == StateAt(run, m).callers[c].id
  {
    if m < n {
      SameId(run, m, n - 1, c);
      StepAt(run, n - 1);
      StepKeepsContext(StateAt(run, n - 1), run[n - 1], c);
    }
  }

  lemma CancelledSplits(run: seq<Action>, n: nat, c: nat)
    requires n < |run|
    ensures Cancelled(run, n + 1, c) <==> Cancelled(run, n, c) || run[n] == Cancel(c)
  {
  }

  /** A context is done exactly when the run cancelled it. */
  lemma {:induction false} ContextDoneIff(run: seq<Action>, n: nat, c: nat)
    requires IsRun(INIT, run) && n <= |run|
    ensures c < |StateAt(run, n).callers| ==> (StateAt(run, n).callers[c].ctxDone <==> Cancelled(run, n, c))
    ensures c >= |StateAt(run, n).callers| ==> !Cancelled(run, n, c)
  {
    if n > 0 {
      ContextDoneIff(run, n - 1, c);
      StepAt(run, n - 1);
      StepKeepsContext(StateAt(run, n - 1), run[n - 1], c);
      CancelledSplits(run, n - 1, c);
    }
  }

  /** What a caller carries from its loader: from the load's return to its own. */
  function Carried(p: Place): Option<Outcome> {
    match p
    case LoadDone(_, out) => Some(out)
    case Published(_, out) => Some(out)
    case Unlisted(_, out) => Some(out)
    case Done(Led(_), out) => Some(out)
    case _ => None
  }

  lemma StepKeepsCarried(s: State, a: Action, c: nat)
    requires Enabled(s, a) && c < |s.callers| && Carried(Next(s, a).callers[c].place).Some?
    ensures if a.LoadReturns? && a.c == c then Carried(Next(s, a).callers[c].place) == Some(Lead(a.result))
            else Carried(s.callers[c].place) == Carried(Next(s, a).callers[c].place)
  {
  }

  /** Whatever a leader carries, and so returns, is what its own loader's result gives. */
  lemma {:induction false} CarriedFromLoad(run: seq<Action>, n: nat, c: nat) returns (k: nat)
    requires IsRun(INIT, run) && n <= |run| && c < |StateAt(run, n).callers|
    requires Carried(StateAt(run, n).callers[c].place).Some?
    ensures k < n && run[k].LoadReturns? && run[k].c == c
    ensures Carried(StateAt(run, n).callers[c].place) == Some(Lead(run[k].result))
  {
    StepAt(run, n - 1);
    var s := StateAt(run, n - 1);
    StepKeepsCarried(s, run[n - 1], c);
    if run[n - 1].LoadReturns? && run[n - 1].c == c {
      k := n - 1;
    } else {
      k := CarriedFromLoad(run, n - 1, c);
    }
  }

  /** A panic and an unencodable value give an error over the zero value; anything else is returned as it came. */
  lemma LeadGives(r: LoaderResult)
    ensures r.Panicked? ==> Lead(r) == Outcome(Zero, Some(LoaderPanicked))
    ensures r.Returned? && r.err.Some? ==> Lead(r) == Outcome(r.val, r.err)
    ensures r.Returned? && r.err.None? && (r.isNil || r.encodes) ==> Lead(r) == Outcome(r.val, None)
    ensures r.Returned? && r.err.None? && !r.isNil && !r.encodes ==> Lead(r) == Outcome(Zero, Some(NotEncodable))
    ensures Lead(r).err.None? <==> r.Returned? && r.err.None? && (r.isNil || r.encodes)
  {
  }

  // ----- what a flight publishes

  predicate HasPublished(p: Place) {
    p.Published? || p.Unlisted? || p.Done?
  }

  /** The flight holds what its leader `l` carried at its publication, and whether its context was done then. */
  ghost predicate Holds(s: State, f: nat, l: nat, out: Outcome, done: bool) {
    && f < |s.flights| && l < |s.callers| && HasPublished(s.callers[l].place)
    && s.flights[f].leader == l && s.flights[f].outcome == out && s.flights[f].leaderCtxDone == done
  }

  lemma PublishHolds(s: State, l: nat)
    requires Inv(s) && Enabled(s, Publish(l)) && s.callers[l].place.own.Some?
    ensures var p := s.callers[l].place;
            Holds(Next(s, Publish(l)), p.own.value, l, p.out, s.callers[l].ctxDone)
  {
    assert LeaderOk(s, l);
  }

  lemma StepKeepsHolds(s: State, a: Action, f: nat, l: nat, out: Outcome, done: bool)
    requires Inv(s) && Enabled(s, a) && Holds(s, f, l, out, done)
    ensures Holds(Next(s, a), f, l, out, done)
  {
    if !a.Arrive? {
      assert LeaderOk(s, a.c);
    }
  }

  /** Step `i` is the publication of flight `f`. */
  ghost predicate Publishes(run: seq<Action>, i: nat, f: nat)
    requires IsRun(INIT, run) && i < |run|
  {
    run[i].Publish? && Actor(run, i).place.LoadDone? && Actor(run, i).place.own == Some(f)
  }

  /** Whatever runs after a leader's publication, the flight keeps it. */
  lemma {:induction false} PublicationStays(run: seq<Action>, i: nat, n: nat, f: nat)
    requires IsRun(INIT, run) && i < n <= |run| && Publishes(run, i, f)
    ensures var me := Actor(run, i); Holds(StateAt(run, n), f, run[i].c, me.place.out, me.ctxDone)
  {
    StepAt(run, i);
    if n == i + 1 {
      InvAt(run, i);
      PublishHolds(StateAt(run, i), run[i].c);
    } else {
      PublicationStays(run, i, n - 1, f);
      InvAt(run, n - 1);
      StepAt(run, n - 1);
      var me := Actor(run, i);
      StepKeepsHolds(StateAt(run, n - 1), run[n - 1], f, run[i].c, me.place.out, me.ctxDone);
    }
  }

  lemma PublishedByStep(s: State, a: Action, f: nat)
    requires Enabled(s, a) && f < |Next(s, a).flights| && Next(s, a).flights[f].published
    ensures || (f < |s.flights| && s.flights[f].published)
            || (a.Publish? && s.callers[a.c].place.own == Some(f))
  {
  }

  lemma {:induction false} WasPublished(run: seq<Action>, n: nat, f: nat) returns (i: nat)
    requires IsRun(INIT, run) && n <= |run| && f < |StateAt(run, n).flights| && StateAt(run, n).flights[f].published
    ensures i < n && Publishes(run, i, f)
  {
    StepAt(run, n - 1);
    PublishedByStep(StateAt(run, n - 1), run[n - 1], f);
    var s := StateAt(run, n - 1);
    if f < |s.flights| && s.flights[f].published {
      i := WasPublished(run, n - 1, f);
    } else {
      i := n - 1;
    }
  }

  // ----- the main law

  /** What a follower does when it wakes, over every run. Its flight was published at step `i` by another caller `l`
      of the same id, with what the loader result at step `k` gives. It goes round again exactly when that is an
      error, `l` had been cancelled by then and the follower itself has not been; otherwise it returns it. */
  lemma FollowerVerdict(run: seq<Action>, j: nat) returns (k: nat, i: nat)
    requires IsRun(INIT, run) && j < |run| && run[j].Wake?
    ensures k < i < j && run[k].LoadReturns? && run[i] == Publish(run[k].c) && run[k].c != run[j].c
    ensures Actor(run, k).id == Actor(run, j).id
    ensures var l, c, out := run[k].c, run[j].c, Lead(run[k].result);
            && c < |StateAt(run, j + 1).callers|
            && var p := StateAt(run, j + 1).callers[c].place;
            if out.err.Some? && Cancelled(run, i, l) && !Cancelled(run, j, c) then p == Enter
            else p.Done? && p.out == out && p.how.Shared? && (p.how.live <==> !Cancelled(run, j, c))
  {
    StepAt(run, j);
    InvAt(run, j);
    var s, c := StateAt(run, j), run[j].c;
    var f := s.callers[c].place.f;
    assert FollowerOk(s, c) && FlightOk(s, f);
    i := WasPublished(run, j, f);
    PublicationStays(run, i, j, f);
    StepAt(run, i);
    var l := run[i].c;
    k := CarriedFromLoad(run, i, l);
    StepAt(run, k);
    SameId(run, k, j, l);
    ContextDoneIff(run, i, l);
    ContextDoneIff(run, j, c);
  }

  lemma StepReturns(s: State, a: Action, c: nat)
    requires Enabled(s, a) && c < |Next(s, a).callers| && Next(s, a).callers[c].place.Done?
    ensures || (c < |s.callers| && s.callers[c].place == Next(s, a).callers[c].place)
            || (a == Wake(c) && Next(s, a).callers[c].place.how.Shared?)
            || (a == GiveUpWaiting(c) && Next(s, a).callers[c].place.how.GaveUp?)
            || Next(s, a).callers[c].place.how.Led?
  {
  }

  lemma {:induction false} ReturnedAt(run: seq<Action>, n: nat, c: nat) returns (j: nat)
    requires IsRun(INIT, run) && n <= |run| && c < |StateAt(run, n).callers|
    requires StateAt(run, n).callers[c].place.Done? && StateAt(run, n).callers[c].place.how.Shared?
    ensures j < n && run[j] == Wake(c)
    ensures c < |StateAt(run, j + 1).callers|
    ensures StateAt(run, j + 1).callers[c].place == StateAt(run, n).callers[c].place
  {
    StepAt(run, n - 1);
    StepReturns(StateAt(run, n - 1), run[n - 1], c);
    var s := StateAt(run, n - 1);
    if c < |s.callers| && s.callers[c].place == StateAt(run, n).callers[c].place {
      j := ReturnedAt(run, n - 1, c);
    } else {
      j := n - 1;
    }
  }

  /** What a caller has returned, over every run: the end of its own context, after a cancellation; what its own
      loader's result gives; or what the result of another caller's loader for the same id gives, and then never an
      error of a leader that was cancelled before it published to a follower that was live when it woke. */
  lemma ReturnedInRun(run: seq<Action>, c: nat) returns (k: nat, i: nat, j: nat)
    requires IsRun(INIT, run) && c < |StateAt(run, |run|).callers| && StateAt(run, |run|).callers[c].place.Done?
    ensures var me := StateAt(run, |run|).callers[c];
            match me.place.how
            case GaveUp => Cancelled(run, |run|, c) && me.place.out == Outcome(Zero, Some(ContextEnded))
            case Led(_) => k < |run| && run[k].LoadReturns? && run[k].c == c && me.place.out == Lead(run[k].result)
            case Shared(_, live) =>
              && k < i < j < |run| && run[k].LoadReturns? && run[i] == Publish(run[k].c) && run[j] == Wake(c)
              && run[k].c != c && me.place.out == Lead(run[k].result)
              && (live <==> !Cancelled(run, j, c))
              && (me.place.out.err.Some? ==> !Cancelled(run, i, run[k].c) || !live)
  {
    k, i, j := 0, 0, 0;
    var n := |run|;
    var me := StateAt(run, n).callers[c];
    InvAt(run, n);
    assert FollowerOk(StateAt(run, n), c);
    match me.place.how {
      case GaveUp => ContextDoneIff(run, n, c);
      case Led(_) => k := CarriedFromLoad(run, n, c);
      case Shared(_, _) =>
        j := ReturnedAt(run, n, c);
        StepAt(run, j);
        k, i := FollowerVerdict(run, j);
    }
  }

  /** A follower that returned live from a flight whose leader was cancelled before publishing it returned no error. */
  lemma LiveFollowersShareNoCancellation(run: seq<Action>, i: nat, c: nat)
    requires IsRun(INIT, run) && i < |run| && c < |StateAt(run, |run|).callers|
    requires var p := StateAt(run, |run|).callers[c].place;
             p.Done? && p.how.Shared? && p.how.live && Publishes(run, i, p.how.f)
    requires Cancelled(run, i, run[i].c)
    ensures StateAt(run, |run|).callers[c].place.out.err.None?
  {
    var n := |run|;
    StepAt(run, i);
    ContextDoneIff(run, i, run[i].c);
    PublicationStays(run, i, n, StateAt(run, n).callers[c].place.how.f);
    InvAt(run, n);
    assert FollowerOk(StateAt(run, n), c);
  }
}
