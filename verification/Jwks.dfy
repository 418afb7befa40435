/**
 The JWKS resolver: the last fetched key set behind a rate floor on attempts, a stale ceiling on its age and a
 closed flag. Lookups run concurrently with the refresh they share; a run is any interleaving of their lock
 sections, of fetches that succeed or fail, of clock readings, cancellations and the close.
 */
module Jwks {
  import opened Options

  type Key = nat
  type KeySet = map<string, Key>

  datatype Config = Config(ttl: int, staleCeiling: int, minRefresh: int, maxBodyBytes: int, uriOk: bool)

  datatype Field = Uri | Ttl | StaleCeiling | MinRefresh | MaxBodyBytes

  const MAX_BODY_BYTES := 16 * 1024 * 1024

  /** `validateJWKSSource`: the first field refused, in the order they are checked. */
  function Validate(c: Config): (refused: Option<Field>)
    ensures refused.None? <==>
            && c.uriOk && 0 <= c.ttl <= c.staleCeiling && 0 < c.minRefresh <= c.staleCeiling
            && 0 < c.maxBodyBytes <= MAX_BODY_BYTES
  {
    if !c.uriOk then Some(Uri)
    else if c.ttl < 0 then Some(Ttl)
    else if c.staleCeiling < 0 then Some(StaleCeiling)
    else if c.staleCeiling < c.ttl then Some(StaleCeiling)
    else if c.minRefresh <= 0 then Some(MinRefresh)
    else if c.minRefresh > c.staleCeiling then Some(MinRefresh)
    else if c.maxBodyBytes <= 0 then Some(MaxBodyBytes)
    else if c.maxBodyBytes > MAX_BODY_BYTES then Some(MaxBodyBytes)
    else None
  }

  // ----- the fields under the lock

  datatype Core = Core(keys: KeySet, fetchedAt: Option<int>, lastAttempt: Option<int>, closed: bool,
                       awaitingFirstFill: bool)

  predicate Usable(c: Config, k: Core, now: int) {
    k.fetchedAt.Some? && k.keys != map[] && 0 <= now - k.fetchedAt.value <= c.staleCeiling
  }

  function Lookup(c: Config, k: Core, kid: string, now: int): Option<Key> {
    if Usable(c, k, now) && kid in k.keys then Some(k.keys[kid]) else None
  }

  predicate AttemptAllowed(c: Config, k: Core, force: bool, now: int) {
    !k.closed && (force || k.lastAttempt.None? || now - k.lastAttempt.value >= c.minRefresh)
  }

  /** A claim checked at `now` and, if allowed, recorded at a clock reading of its own. */
  function Claimed(c: Config, k: Core, force: bool, now: int, recorded: int): Core {
    if AttemptAllowed(c, k, force, now) then k.(lastAttempt := Some(recorded)) else k
  }

  function Stored(k: Core, keys: KeySet, now: int): Core {
    k.(keys := keys, fetchedAt := Some(now), awaitingFirstFill := false)
  }

  function Tolerated(k: Core): Core {
    k.(lastAttempt := None, awaitingFirstFill := true)
  }

  const EMPTY := Core(map[], None, None, false, false)

  /** The resolver's fields as its methods update them. */
  class Resolver {
    const cfg: Config
    var keys: KeySet
    var fetchedAt: Option<int>
    var lastAttempt: Option<int>
    var closed: bool
    var awaitingFirstFill: bool

    function View(): Core
      reads this
    {
      Core(keys, fetchedAt, lastAttempt, closed, awaitingFirstFill)
    }

    constructor (cfg: Config)
      ensures this.cfg == cfg && View() == EMPTY
    {
      this.cfg := cfg;
      keys, fetchedAt, lastAttempt, closed, awaitingFirstFill := map[], None, None, false, false;
    }

    /** `now` and `recorded` are the two readings of the clock under the lock. */
    method ClaimAttempt(force: bool, now: int, recorded: int) returns (claimed: bool)
      modifies this
      ensures claimed == AttemptAllowed(cfg, old(View()), force, now)
      ensures View() == Claimed(cfg, old(View()), force, now, recorded)
    {
      if closed {
        return false;
      }
      if !force && lastAttempt.Some? && now - lastAttempt.value < cfg.minRefresh {
        return false;
      }
      lastAttempt := Some(recorded);
      return true;
    }

    method StoreKeys(fetched: KeySet, now: int) returns (firstFill: bool)
      modifies this
      ensures View() == Stored(old(View()), fetched, now) && firstFill == old(awaitingFirstFill)
    {
      keys := fetched;
      fetchedAt := Some(now);
      firstFill := awaitingFirstFill;
      awaitingFirstFill := false;
    }

    method TolerateInitialFailure()
      modifies this
      ensures View() == Tolerated(old(View()))
    {
      lastAttempt := None;
      awaitingFirstFill := true;
    }

    method LookupKey(kid: string, now: int) returns (key: Option<Key>)
      ensures key == Lookup(cfg, View(), kid, now)
    {
      if fetchedAt.None? || keys == map[] {
        return None;
      }
      var age := now - fetchedAt.value;
      if age < 0 || age > cfg.staleCeiling || kid !in keys {
        return None;
      }
      return Some(keys[kid]);
    }

    method Close()
      modifies this
      ensures View() == old(View()).(closed := true)
    {
      closed := true;
    }
  }

  // ----- the interleavings

  /** The one shared refresh: none, one whose claim has not run yet, one whose fetch is out, or one that settled at
      `at`, by a store, a failure or a refused claim, and has yet to end. */
  datatype Flight = Idle | Started | Fetching | Settled(at: int)

  datatype Answer = Found(key: Key, at: int, stores: nat) | KidUnknown | KeySetUnavailable

  /** Where a lookup stands. `refreshed` is when the refresh it waited for settled, None if it stopped waiting;
      `stores` and `at` are the number of stores and the clock at its second look. */
  datatype Place =
    | First
    | Enter
    | Waiting(flight: nat)
    | Second(refreshed: Option<int>)
    | Final(refreshed: Option<int>, stores: nat, at: int)
    | Returned(answer: Answer)

  datatype Caller = Caller(kid: string, ctxDone: bool, place: Place)

  /** A successful fetch. */
  datatype Store = Store(keys: KeySet, at: int)

  /** `attempts`, `stores` and `ended` are history: claimed attempts, successful fetches and, for each
      shared refresh that ended, when it had settled, all in order. */
  datatype State = State(now: int, core: Core, flight: Flight, callers: seq<Caller>,
                         attempts: seq<int>, stores: seq<Store>, ended: seq<int>)

  datatype Action =
    | Clock(now: int)
    | Call(kid: string)
    | Cancel(c: nat)
    | FirstLook(c: nat)
    | JoinRefresh(c: nat)
    | BackgroundTick
    | RunClaim(recorded: int)
    | FetchOk(keys: KeySet)
    | FetchFail
    | EndRefresh
    | Resume(c: nat)
    | StopWaiting(c: nat)
    | SecondLook(c: nat)
    | Judge(c: nat)
    | CloseResolver

  predicate Enabled(s: State, a: Action) {
    match a
    case Clock(_) => true
    case Call(_) => true
    case Cancel(c) => c < |s.callers|
    case FirstLook(c) => c < |s.callers| && s.callers[c].place.First?
    case JoinRefresh(c) => c < |s.callers| && s.callers[c].place.Enter?
    case BackgroundTick => true
    case RunClaim(_) => s.flight.Started?
    case FetchOk(keys) => s.flight.Fetching? && keys != map[]
    case FetchFail => s.flight.Fetching?
    case EndRefresh => s.flight.Settled?
    case Resume(c) => c < |s.callers| && s.callers[c].place.Waiting? && s.callers[c].place.flight < |s.ended|
    case StopWaiting(c) => c < |s.callers| && s.callers[c].place.Waiting? && s.callers[c].ctxDone
    case SecondLook(c) => c < |s.callers| && s.callers[c].place.Second?
    case Judge(c) => c < |s.callers| && s.callers[c].place.Final?
    case CloseResolver => true
  }

  function Move(s: State, c: nat, p: Place): State
    requires c < |s.callers|
  {
    s.(callers := s.callers[c := s.callers[c].(place := p)])
  }

  /** Joins the refresh in flight, or starts one. */
  function Joined(s: State): State {
    if s.flight.Idle? then s.(flight := Started) else s
  }

  function Settle(s: State): State {
    s.(flight := Settled(s.now))
  }

  function Look(cfg: Config, s: State, c: nat, otherwise: Place): State
    requires c < |s.callers|
  {
    match Lookup(cfg, s.core, s.callers[c].kid, s.now)
    case Some(key) => Move(s, c, Returned(Found(key, s.now, |s.stores|)))
    case None => Move(s, c, otherwise)
  }

  function Next(cfg: Config, s: State, a: Action): State
    requires Enabled(s, a)
  {
    match a
    case Clock(t) => s.(now := t)
    case Call(kid) => s.(callers := s.callers + [Caller(kid, false, First)])
    case Cancel(c) => s.(callers := s.callers[c := s.callers[c].(ctxDone := true)])
    case FirstLook(c) => Look(cfg, s, c, Enter)
    case JoinRefresh(c) => Move(Joined(s), c, Waiting(|s.ended|))
    case BackgroundTick => Joined(s)
    case RunClaim(at) =>
      if AttemptAllowed(cfg, s.core, false, s.now) then
        s.(now := at, core := Claimed(cfg, s.core, false, s.now, at), flight := Fetching, attempts := s.attempts + [at])
      else Settle(s)
    case FetchOk(keys) => Settle(s.(core := Stored(s.core, keys, s.now), stores := s.stores + [Store(keys, s.now)]))
    case FetchFail => Settle(s)
    case EndRefresh => s.(flight := Idle, ended := s.ended + [s.flight.at])
    case Resume(c) => Move(s, c, Second(Some(s.ended[s.callers[c].place.flight])))
    case StopWaiting(c) => Move(s, c, Second(None))
    case SecondLook(c) => Look(cfg, s, c, Final(s.callers[c].place.refreshed, |s.stores|, s.now))
    case Judge(c) => Move(s, c, Returned(if Usable(cfg, s.core, s.now) then KidUnknown else KeySetUnavailable))
    case CloseResolver => s.(core := s.core.(closed := true))
  }

  /** The resolver just built: the forced first fetch at `t0` filled the set at `t1`, or its failure was
      tolerated and forgotten. */
  function Built(cfg: Config, t0: int, t1: int, fetched: Option<KeySet>): State {
    var claimed := Claimed(cfg, EMPTY, true, t0, t0);
    match fetched
    case Some(keys) => State(t1, Stored(claimed, keys, t1), Idle, [], [t0], [Store(keys, t1)], [])
    case None => State(t1, Tolerated(claimed), Idle, [], [t0], [], [])
  }

  ghost predicate IsRun(cfg: Config, s: State, run: seq<Action>)
    decreases |run|
  {
    run == [] || (Enabled(s, run[0]) && IsRun(cfg, Next(cfg, s, run[0]), run[1..]))
  }

  ghost function After(cfg: Config, s: State, run: seq<Action>): State
    requires IsRun(cfg, s, run)
    decreases |run|
  {
    if run == [] then s else After(cfg, Next(cfg, s, run[0]), run[1..])
  }

  /** The step does not move the clock back. */
  predicate Advances(s: State, a: Action) {
    match a
    case Clock(t) => s.now <= t
    case RunClaim(at) => s.now <= at
    case _ => true
  }

  /** The clock never steps back during the run. */
  ghost predicate Monotone(cfg: Config, s: State, run: seq<Action>)
    requires IsRun(cfg, s, run)
    decreases |run|
  {
    run == [] || (Advances(s, run[0]) && Monotone(cfg, Next(cfg, s, run[0]), run[1..]))
  }

  // ----- keys come from the latest store, inside its ceiling

  ghost predicate AnswerOk(cfg: Config, s: State, kid: string, a: Answer) {
    a.Found? ==>
      && 0 < a.stores <= |s.stores|
      && var st := s.stores[a.stores - 1];
      && kid in st.keys && st.keys[kid] == a.key
      && 0 <= a.at - st.at <= cfg.staleCeiling
  }

  /** The fields hold the latest store. */
  ghost predicate LatestOk(s: State) {
    && (s.stores == [] ==> s.core.keys == map[] && s.core.fetchedAt.None?)
    && (s.stores != [] ==>
          var last := s.stores[|s.stores| - 1]; s.core.keys == last.keys && s.core.fetchedAt == Some(last.at))
  }

  ghost predicate CallerOk(cfg: Config, s: State, c: nat)
    requires c < |s.callers|
  {
    s.callers[c].place.Returned? ==> AnswerOk(cfg, s, s.callers[c].kid, s.callers[c].place.answer)
  }

  ghost predicate KeysInv(cfg: Config, s: State) {
    LatestOk(s) && forall c | 0 <= c < |s.callers| :: CallerOk(cfg, s, c)
  }

  /** A failed or skipped attempt changes neither the keys nor the fetch time. */
  lemma OnlyStoresChangeKeys(cfg: Config, s: State, a: Action)
    requires LatestOk(s) && Enabled(s, a)
    ensures LatestOk(Next(cfg, s, a))
    ensures s.stores <= Next(cfg, s, a).stores
    ensures !a.FetchOk? ==>
              Next(cfg, s, a).core.keys == s.core.keys && Next(cfg, s, a).core.fetchedAt == s.core.fetchedAt
    ensures a.FetchOk? ==> Next(cfg, s, a).core.keys == a.keys && Next(cfg, s, a).core.fetchedAt == Some(s.now)
  {
  }

  lemma StepKeepsKeys(cfg: Config, s: State, a: Action)
    requires KeysInv(cfg, s) && Enabled(s, a)
    ensures KeysInv(cfg, Next(cfg, s, a))
    ensures s.stores <= Next(cfg, s, a).stores
  {
    OnlyStoresChangeKeys(cfg, s, a);
    var t := Next(cfg, s, a);
    forall c | 0 <= c < |t.callers| ensures CallerOk(cfg, t, c) {
      if c < |s.callers| {
        assert CallerOk(cfg, s, c);
        StepKeepsCaller(cfg, s, a, c);
      }
    }
  }

  lemma StepKeepsCaller(cfg: Config, s: State, a: Action, c: nat)
    requires LatestOk(s) && Enabled(s, a) && c < |s.callers| && CallerOk(cfg, s, c)
    ensures c < |Next(cfg, s, a).callers| && CallerOk(cfg, Next(cfg, s, a), c)
  {
    if a != FirstLook(c) && a != SecondLook(c) && a != Judge(c) {
      OtherStepsKeepAnswer(cfg, s, a, c);
    }
  }

  lemma OtherStepsKeepAnswer(cfg: Config, s: State, a: Action, c: nat)
    requires Enabled(s, a) && c < |s.callers| && a != FirstLook(c) && a != SecondLook(c) && a != Judge(c)
    ensures c < |Next(cfg, s, a).callers| && s.stores <= Next(cfg, s, a).stores
    ensures var me, now := s.callers[c], Next(cfg, s, a).callers[c];
            now.kid == me.kid && (now.place.Returned? ==> now.place == me.place)
  {
  }

  lemma {:induction false} RunKeepsKeys(cfg: Config, s: State, run: seq<Action>)
    requires KeysInv(cfg, s) && IsRun(cfg, s, run)
    ensures KeysInv(cfg, After(cfg, s, run))
    ensures s.stores <= After(cfg, s, run).stores
    decreases |run|
  {
    if run != [] {
      StepKeepsKeys(cfg, s, run[0]);
      RunKeepsKeys(cfg, Next(cfg, s, run[0]), run[1..]);
    }
  }

  /** Over every run, whatever the clock does: a key handed out was in the most recent successful fetch at that
      moment, whose age was then between zero and the stale ceiling; and the set held is the latest fetched. */
  lemma KeysAreFresh(cfg: Config, t0: int, t1: int, fetched: Option<KeySet>, run: seq<Action>)
    requires IsRun(cfg, Built(cfg, t0, t1, fetched), run)
    ensures var s := After(cfg, Built(cfg, t0, t1, fetched), run);
            && LatestOk(s)
            && forall c | 0 <= c < |s.callers| && s.callers[c].place.Returned? ::
                 AnswerOk(cfg, s, s.callers[c].kid, s.callers[c].place.answer)
  {
    RunKeepsKeys(cfg, Built(cfg, t0, t1, fetched), run);
    var s := After(cfg, Built(cfg, t0, t1, fetched), run);
    forall c | 0 <= c < |s.callers| && s.callers[c].place.Returned?
      ensures AnswerOk(cfg, s, s.callers[c].kid, s.callers[c].place.answer)
    {
      assert CallerOk(cfg, s, c);
    }
  }

  // ----- the rate floor

  /** Attempts from index `from` on are at least the floor apart. */
  ghost predicate Spaced(attempts: seq<int>, gap: int, from: nat) {
    forall i | from < i < |attempts| :: attempts[i - 1] + gap <= attempts[i]
  }

  /** `forgotten` is 1 when construction tolerated its failed attempt, which the floor then does not count. */
  ghost predicate RateInv(cfg: Config, s: State, forgotten: nat) {
    && forgotten <= 1 <= |s.attempts|
    && Spaced(s.attempts, cfg.minRefresh, forgotten)
    && s.attempts[|s.attempts| - 1] <= s.now
    && s.core.lastAttempt == (if |s.attempts| == forgotten then None else Some(s.attempts[|s.attempts| - 1]))
    && (|s.attempts| > 1 ==> s.attempts[0] <= s.attempts[1])
  }

  lemma StepKeepsRate(cfg: Config, s: State, a: Action, forgotten: nat)
    requires RateInv(cfg, s, forgotten) && Enabled(s, a) && Advances(s, a)
    ensures RateInv(cfg, Next(cfg, s, a), forgotten)
  {
    if !a.RunClaim? {
      OtherStepsKeepAttempts(cfg, s, a);
    } else if AttemptAllowed(cfg, s.core, false, s.now) {
      assert Next(cfg, s, a).attempts == s.attempts + [a.recorded];
    }
  }

  lemma OtherStepsKeepAttempts(cfg: Config, s: State, a: Action)
    requires Enabled(s, a) && Advances(s, a) && !a.RunClaim?
    ensures var t := Next(cfg, s, a);
            t.attempts == s.attempts && t.core.lastAttempt == s.core.lastAttempt && s.now <= t.now
  {
  }

  lemma {:induction false} AttemptsAreSpaced(cfg: Config, s: State, run: seq<Action>, forgotten: nat)
    requires RateInv(cfg, s, forgotten) && IsRun(cfg, s, run) && Monotone(cfg, s, run)
    ensures RateInv(cfg, After(cfg, s, run), forgotten)
    decreases |run|
  {
    if run != [] {
      StepKeepsRate(cfg, s, run[0], forgotten);
      AttemptsAreSpaced(cfg, Next(cfg, s, run[0]), run[1..], forgotten);
    }
  }

  /** How many attempts fall in a closed window. */
  function CountIn(attempts: seq<int>, lo: int, hi: int): nat {
    if attempts == [] then 0
    else CountIn(attempts[..|attempts| - 1], lo, hi) + (if lo <= attempts[|attempts| - 1] <= hi then 1 else 0)
  }

  lemma {:induction false} SpacedIsSorted(a: seq<int>, gap: int, i: nat, j: nat)
    requires gap >= 0 && Spaced(a, gap, 0) && i <= j < |a|
    ensures a[i] <= a[j]
    decreases j
  {
    if i < j {
      SpacedIsSorted(a, gap, i, j - 1);
    }
  }

  lemma {:induction false} CountNone(a: seq<int>, lo: int, hi: int)
    requires forall i | 0 <= i < |a| :: !(lo <= a[i] <= hi)
    ensures CountIn(a, lo, hi) == 0
  {
    if a != [] {
      CountNone(a[..|a| - 1], lo, hi);
    }
  }

  lemma {:induction false} CountShrinks(a: seq<int>, lo: int, hi: int, top: int)
    requires top <= hi && forall i | 0 <= i < |a| :: a[i] <= top
    ensures CountIn(a, lo, hi) == CountIn(a, lo, top)
  {
    if a != [] {
      CountShrinks(a[..|a| - 1], lo, hi, top);
    }
  }

  /** The length of `n` gaps. */
  function Gaps(n: nat, gap: int): int {
    if n == 0 then 0 else Gaps(n - 1, gap) + gap
  }

  /** Spaced attempts: the ones inside a window span it, one gap between each two. */
  lemma {:induction false} WindowSpan(a: seq<int>, gap: int, lo: int, w: nat)
    requires gap > 0 && Spaced(a, gap, 0)
    ensures CountIn(a, lo, lo + w) > 0 ==> Gaps(CountIn(a, lo, lo + w) - 1, gap) <= w
    decreases |a|
  {
    if a != [] {
      var n := |a| - 1;
      if a[n] > lo + w {
        WindowSpan(a[..n], gap, lo, w);
      } else if a[n] < lo {
        forall i | 0 <= i < |a| ensures a[i] < lo {
          SpacedIsSorted(a, gap, i, n);
        }
        CountNone(a, lo, lo + w);
      } else {
        WindowSpanInside(a, gap, lo, w);
      }
    }
  }

  lemma WindowSpanInside(a: seq<int>, gap: int, lo: int, w: nat)
    requires gap > 0 && Spaced(a, gap, 0) && a != [] && lo <= a[|a| - 1] <= lo + w
    ensures CountIn(a, lo, lo + w) > 0 && Gaps(CountIn(a, lo, lo + w) - 1, gap) <= w
    decreases |a|, 0
  {
    var n := |a| - 1;
    var front, top := a[..n], a[n] - gap;
    forall i | 0 <= i < n ensures a[i] <= top {
      SpacedIsSorted(a, gap, i, n - 1);
    }
    CountShrinks(front, lo, lo + w, top);
    if top < lo {
      CountNone(front, lo, top);
    } else {
      WindowSpan(front, gap, lo, top - lo);
    }
  }

  lemma DivBound(n: nat, w: nat, gap: nat)
    requires gap > 0 && (n > 0 ==> Gaps(n - 1, gap) <= w)
    ensures n <= w / gap + 1
  {
    var q := w / gap;
    assert w < (q + 1) * gap by {
      assert w == q * gap + w % gap;
    }
    if n > 0 {
      GapsIsProduct(n - 1, gap);
      MulLess(n - 1, q + 1, gap);
    }
  }

  lemma {:induction false} GapsIsProduct(n: nat, gap: int)
    ensures Gaps(n, gap) == n * gap
  {
    if n > 0 {
      GapsIsProduct(n - 1, gap);
    }
  }

  lemma MulLess(a: nat, b: nat, gap: nat)
    requires a * gap < b * gap
    ensures a < b
  {
    assert (b - a) * gap > 0;
  }

  /** Over every run under a clock that does not step back, whatever the lookup load and the fetch outcomes: at
      most one attempt per floor in any window, plus one, plus the tolerated construction failure. */
  lemma AttemptsPerWindow(cfg: Config, t0: int, t1: int, fetched: Option<KeySet>, run: seq<Action>, lo: int, w: nat)
    requires Validate(cfg).None? && t0 <= t1 && (fetched.Some? ==> fetched.value != map[])
    requires IsRun(cfg, Built(cfg, t0, t1, fetched), run) && Monotone(cfg, Built(cfg, t0, t1, fetched), run)
    ensures CountIn(After(cfg, Built(cfg, t0, t1, fetched), run).attempts, lo, lo + w)
         <= w / cfg.minRefresh + 1 + (if fetched.None? then 1 else 0)
  {
    var forgotten := if fetched.None? then 1 else 0;
    AttemptsAreSpaced(cfg, Built(cfg, t0, t1, fetched), run, forgotten);
    WindowBound(After(cfg, Built(cfg, t0, t1, fetched), run).attempts, cfg.minRefresh, lo, w, forgotten);
  }

  lemma WindowBound(a: seq<int>, gap: nat, lo: int, w: nat, forgotten: nat)
    requires gap > 0 && Spaced(a, gap, forgotten) && forgotten <= 1 <= |a|
    ensures CountIn(a, lo, lo + w) <= w / gap + 1 + forgotten
  {
    if forgotten == 0 {
      WindowSpan(a, gap, lo, w);
      DivBound(CountIn(a, lo, lo + w), w, gap);
    } else {
      CountTail(a, lo, lo + w);
      WindowSpan(a[1..], gap, lo, w);
      DivBound(CountIn(a[1..], lo, lo + w), w, gap);
    }
  }

  lemma {:induction false} CountTail(a: seq<int>, lo: int, hi: int)
    requires a != []
    ensures CountIn(a, lo, hi) <= CountIn(a[1..], lo, hi) + 1
  {
    if |a| > 1 {
      var n := |a| - 1;
      CountTail(a[..n], lo, hi);
      assert a[1..][..n - 1] == a[..n][1..];
    } else {
      assert a[..0] == [];
    }
  }

  // ----- close

  /** Once closed, no attempt is ever claimed again. */
  lemma {:induction false} ClosedForever(cfg: Config, s: State, run: seq<Action>)
    requires s.core.closed && IsRun(cfg, s, run)
    ensures After(cfg, s, run).core.closed && After(cfg, s, run).attempts == s.attempts
    decreases |run|
  {
    if run != [] {
      ClosedForever(cfg, Next(cfg, s, run[0]), run[1..]);
    }
  }

  // ----- availability

  /** Every attempt of the run succeeds, nobody closes the resolver and the clock never steps back. */
  ghost predicate Healthy(cfg: Config, s: State, run: seq<Action>)
    requires IsRun(cfg, s, run)
  {
    Monotone(cfg, s, run) && forall i | 0 <= i < |run| :: !run[i].FetchFail? && !run[i].CloseResolver?
  }

  /** A refresh that settled at `r` left a set no older than the floor at that moment. */
  ghost predicate FreshAt(cfg: Config, s: State, r: int) {
    s.core.fetchedAt.Some? && r - s.core.fetchedAt.value < cfg.minRefresh
  }

  ghost predicate FreshInv(cfg: Config, s: State) {
    && !s.core.closed
    && (s.core.fetchedAt.Some? ==> s.core.fetchedAt.value <= s.now && s.core.keys != map[])
    && (s.core.lastAttempt.Some? ==> s.core.lastAttempt.value <= s.now)
    && (s.core.lastAttempt.Some? && !s.flight.Fetching? ==>
          s.core.fetchedAt.Some? && s.core.lastAttempt.value <= s.core.fetchedAt.value)
    && (s.flight.Settled? ==> FreshAt(cfg, s, s.flight.at))
    && (forall n | 0 <= n < |s.ended| :: FreshAt(cfg, s, s.ended[n]))
    && (forall c | 0 <= c < |s.callers| :: WaiterOk(cfg, s, c))
  }

  ghost predicate WaiterOk(cfg: Config, s: State, c: nat)
    requires c < |s.callers|
  {
    match s.callers[c].place
    case Second(Some(r)) => FreshAt(cfg, s, r)
    case Final(Some(r), _, _) => FreshAt(cfg, s, r)
    case _ => true
  }

  lemma StepKeepsFresh(cfg: Config, s: State, a: Action)
    requires Validate(cfg).None? && FreshInv(cfg, s) && Enabled(s, a)
    requires Advances(s, a) && !a.FetchFail? && !a.CloseResolver?
    ensures FreshInv(cfg, Next(cfg, s, a))
  {
    var t := Next(cfg, s, a);
    FetchTimeAdvances(cfg, s, a);
    forall n | 0 <= n < |t.ended| ensures FreshAt(cfg, t, t.ended[n]) {
      if n < |s.ended| {
        assert FreshAt(cfg, s, s.ended[n]);
      }
    }
    forall c | 0 <= c < |t.callers| ensures WaiterOk(cfg, t, c) {
      if c < |s.callers| {
        assert WaiterOk(cfg, s, c);
        StepKeepsWaiter(cfg, s, a, c);
      }
    }
  }

  lemma FetchTimeAdvances(cfg: Config, s: State, a: Action)
    requires Enabled(s, a) && (s.core.fetchedAt.Some? ==> s.core.fetchedAt.value <= s.now)
    ensures s.core.fetchedAt.Some? ==>
              Next(cfg, s, a).core.fetchedAt.Some? && s.core.fetchedAt.value <= Next(cfg, s, a).core.fetchedAt.value
  {
  }

  lemma StepKeepsWaiter(cfg: Config, s: State, a: Action, c: nat)
    requires Enabled(s, a) && c < |s.callers| && WaiterOk(cfg, s, c)
    requires s.core.fetchedAt.Some? ==> s.core.fetchedAt.value <= s.now
    requires forall n | 0 <= n < |s.ended| :: FreshAt(cfg, s, s.ended[n])
    ensures c < |Next(cfg, s, a).callers| && WaiterOk(cfg, Next(cfg, s, a), c)
  {
    FetchTimeAdvances(cfg, s, a);
    if a == Resume(c) {
      assert FreshAt(cfg, s, s.ended[s.callers[c].place.flight]);
    }
  }

  lemma {:induction false} StaysFresh(cfg: Config, s: State, run: seq<Action>)
    requires Validate(cfg).None? && FreshInv(cfg, s) && IsRun(cfg, s, run) && Healthy(cfg, s, run)
    ensures FreshInv(cfg, After(cfg, s, run))
    decreases |run|
  {
    if run != [] {
      assert !run[0].FetchFail? && !run[0].CloseResolver?;
      StepKeepsFresh(cfg, s, run[0]);
      assert forall i | 0 <= i < |run[1..]| :: run[1..][i] == run[i + 1];
      StaysFresh(cfg, Next(cfg, s, run[0]), run[1..]);
    }
  }

  /** With accepted settings, as long as attempts succeed, a set past its ceiling means the rate floor has lapsed:
      the next claim may fetch. */
  lemma StaleMeansFloorLapsed(cfg: Config, t0: int, t1: int, fetched: Option<KeySet>, run: seq<Action>)
    requires Validate(cfg).None? && t0 <= t1 && (fetched.Some? ==> fetched.value != map[])
    requires IsRun(cfg, Built(cfg, t0, t1, fetched), run) && Healthy(cfg, Built(cfg, t0, t1, fetched), run)
    ensures var s := After(cfg, Built(cfg, t0, t1, fetched), run);
            !s.flight.Fetching? && !Usable(cfg, s.core, s.now) ==> AttemptAllowed(cfg, s.core, false, s.now)
  {
    assert FreshInv(cfg, Built(cfg, t0, t1, fetched));
    StaysFresh(cfg, Built(cfg, t0, t1, fetched), run);
  }

  /** As long as attempts succeed, no lookup that waited its refresh out and is judged at most the ceiling less the
      floor, plus one tick, after it settled reports the key set unavailable, construction tolerated or not. */
  lemma NeverUnavailable(cfg: Config, t0: int, t1: int, fetched: Option<KeySet>, run: seq<Action>, c: nat)
    requires Validate(cfg).None? && t0 <= t1 && (fetched.Some? ==> fetched.value != map[])
    requires IsRun(cfg, Built(cfg, t0, t1, fetched), run) && Healthy(cfg, Built(cfg, t0, t1, fetched), run)
    requires var s := After(cfg, Built(cfg, t0, t1, fetched), run);
             && c < |s.callers| && s.callers[c].place.Final? && s.callers[c].place.refreshed.Some?
             && s.now - s.callers[c].place.refreshed.value <= cfg.staleCeiling - cfg.minRefresh + 1
    ensures var s := After(cfg, Built(cfg, t0, t1, fetched), run);
            Next(cfg, s, Judge(c)).callers[c].place == Returned(KidUnknown)
  {
    var s := After(cfg, Built(cfg, t0, t1, fetched), run);
    assert FreshInv(cfg, Built(cfg, t0, t1, fetched));
    StaysFresh(cfg, Built(cfg, t0, t1, fetched), run);
    assert WaiterOk(cfg, s, c);
  }

  /** A healthy run from `s` to `t`. */
  ghost predicate Leads(cfg: Config, s: State, run: seq<Action>, t: State) {
    IsRun(cfg, s, run) && Healthy(cfg, s, run) && After(cfg, s, run) == t
  }

  lemma {:induction false} Then(cfg: Config, s: State, run: seq<Action>, t: State, a: Action)
    requires Leads(cfg, s, run, t) && Enabled(t, a) && Advances(t, a) && !a.FetchFail? && !a.CloseResolver?
    ensures Leads(cfg, s, run + [a], Next(cfg, t, a))
    decreases |run|
  {
    var more := run + [a];
    if run == [] {
      assert more[1..] == [];
    } else {
      assert more[1..] == run[1..] + [a];
      assert forall i | 0 <= i < |run[1..]| :: run[1..][i] == run[i + 1];
      Then(cfg, Next(cfg, s, run[0]), run[1..], t, a);
    }
  }

  /** A lookup for an unknown kid just after its second look: the refresh it waited for found the floor in force. */
  ghost predicate LookedTwice(cfg: Config, s: State, t: int, r: int, keys: KeySet, kid: string) {
    && s.now == r && s.flight.Idle?
    && s.core == Core(keys, Some(t), Some(t), false, false)
    && s.callers == [Caller(kid, false, Final(Some(r), 1, r))]
    && s.stores == [Store(keys, t)]
  }

  /** The same lookup when it has just joined its refresh. */
  ghost predicate Joins(cfg: Config, s: State, t: int, r: int, keys: KeySet, kid: string) {
    && s.now == r && s.flight.Started? && s.ended == []
    && s.core == Core(keys, Some(t), Some(t), false, false)
    && s.callers == [Caller(kid, false, Waiting(0))]
    && s.stores == [Store(keys, t)]
  }

  lemma LookOnce(cfg: Config, t: int, r: int, keys: KeySet, kid: string) returns (run: seq<Action>, s: State)
    requires Validate(cfg).None? && keys != map[] && kid !in keys && t <= r < t + cfg.minRefresh
    ensures Leads(cfg, Built(cfg, t, t, Some(keys)), run, s) && Joins(cfg, s, t, r, keys, kid)
  {
    var s0 := Built(cfg, t, t, Some(keys));
    run, s := [], s0;
    Then(cfg, s0, run, s, Clock(r));
    run, s := run + [Clock(r)], Next(cfg, s, Clock(r));
    Then(cfg, s0, run, s, Call(kid));
    run, s := run + [Call(kid)], Next(cfg, s, Call(kid));
    Then(cfg, s0, run, s, FirstLook(0));
    run, s := run + [FirstLook(0)], Next(cfg, s, FirstLook(0));
    Then(cfg, s0, run, s, JoinRefresh(0));
    run, s := run + [JoinRefresh(0)], Next(cfg, s, JoinRefresh(0));
  }

  /** Such a lookup's refresh can settle at any time `r` inside the floor of the construction fetch at `t`. */
  lemma LookTwice(cfg: Config, t: int, r: int, keys: KeySet, kid: string) returns (run: seq<Action>, s: State)
    requires Validate(cfg).None? && keys != map[] && kid !in keys && t <= r < t + cfg.minRefresh
    ensures Leads(cfg, Built(cfg, t, t, Some(keys)), run, s) && LookedTwice(cfg, s, t, r, keys, kid)
  {
    var s0 := Built(cfg, t, t, Some(keys));
    run, s := LookOnce(cfg, t, r, keys, kid);
    Then(cfg, s0, run, s, RunClaim(r));
    run, s := run + [RunClaim(r)], Next(cfg, s, RunClaim(r));
    Then(cfg, s0, run, s, EndRefresh);
    run, s := run + [EndRefresh], Next(cfg, s, EndRefresh);
    Then(cfg, s0, run, s, Resume(0));
    run, s := run + [Resume(0)], Next(cfg, s, Resume(0));
    Then(cfg, s0, run, s, SecondLook(0));
    run, s := run + [SecondLook(0)], Next(cfg, s, SecondLook(0));
  }

  /** A healthy run after which lookup `c`, judged `delay` after its refresh settled, reports the set unavailable. */
  ghost predicate UnavailableAfter(cfg: Config, t0: int, t1: int, fetched: Option<KeySet>, run: seq<Action>, c: nat,
                                   delay: int)
  {
    && t0 <= t1 && (fetched.Some? ==> fetched.value != map[])
    && IsRun(cfg, Built(cfg, t0, t1, fetched), run) && Healthy(cfg, Built(cfg, t0, t1, fetched), run)
    && var s := After(cfg, Built(cfg, t0, t1, fetched), run);
    && c < |s.callers| && s.callers[c].place.Final? && s.callers[c].place.refreshed == Some(s.now - delay)
    && Next(cfg, s, Judge(c)).callers[c].place == Returned(KeySetUnavailable)
  }

  /** The bound is sharp: a verdict may come late enough to report unavailable exactly past it. */
  lemma UnavailableIffLate(cfg: Config, delay: int)
    requires Validate(cfg).None?
    ensures (exists t0, t1, fetched, run, c :: UnavailableAfter(cfg, t0, t1, fetched, run, c, delay)) <==>
            delay > cfg.staleCeiling - cfg.minRefresh + 1
  {
    if t0, t1, fetched, run, c :| UnavailableAfter(cfg, t0, t1, fetched, run, c, delay) {
      if delay <= cfg.staleCeiling - cfg.minRefresh + 1 {
        NeverUnavailable(cfg, t0, t1, fetched, run, c);
      }
    }
    if delay > cfg.staleCeiling - cfg.minRefresh + 1 {
      var keys: KeySet := map["a" := 0];
      assert "a" in keys && "b"[0] != "a"[0];
      var r := cfg.minRefresh - 1;
      var run, s := LookTwice(cfg, 0, r, keys, "b");
      Then(cfg, Built(cfg, 0, 0, Some(keys)), run, s, Clock(r + delay));
      assert UnavailableAfter(cfg, 0, 0, Some(keys), run + [Clock(r + delay)], 0, delay);
    }
  }

  // ----- unknown or unavailable

  /** What a lookup's second look established, for as long as no store lands. */
  ghost predicate LookOk(cfg: Config, s: State, c: nat)
    requires c < |s.callers|
  {
    match s.callers[c].place
    case Final(_, n, at) =>
      && n <= |s.stores| && at <= s.now
      && (n > 0 ==>
            && s.stores[n - 1].at <= at
            && (at - s.stores[n - 1].at <= cfg.staleCeiling ==> s.callers[c].kid !in s.stores[n - 1].keys))
    case _ => true
  }

  ghost predicate LooksInv(cfg: Config, s: State) {
    && LatestOk(s)
    && (forall i | 0 <= i < |s.stores| :: s.stores[i].at <= s.now && s.stores[i].keys != map[])
    && (forall i | 0 <= i < |s.stores| :: s.stores[i].at <= s.stores[|s.stores| - 1].at)
    && (forall c | 0 <= c < |s.callers| :: LookOk(cfg, s, c))
  }

  lemma StepKeepsLooks(cfg: Config, s: State, a: Action)
    requires LooksInv(cfg, s) && Enabled(s, a) && Advances(s, a)
    ensures LooksInv(cfg, Next(cfg, s, a))
  {
    OnlyStoresChangeKeys(cfg, s, a);
    var t := Next(cfg, s, a);
    forall c | 0 <= c < |t.callers| ensures LookOk(cfg, t, c) {
      if c < |s.callers| {
        assert LookOk(cfg, s, c);
        StepKeepsLook(cfg, s, a, c);
      }
    }
  }

  lemma StepKeepsLook(cfg: Config, s: State, a: Action, c: nat)
    requires LatestOk(s) && (forall i | 0 <= i < |s.stores| :: s.stores[i].at <= s.now && s.stores[i].keys != map[])
    requires Enabled(s, a) && c < |s.callers| && LookOk(cfg, s, c) && Advances(s, a)
    ensures c < |Next(cfg, s, a).callers| && LookOk(cfg, Next(cfg, s, a), c)
  {
    if a != SecondLook(c) {
      OtherStepsKeepLook(cfg, s, a, c);
    }
  }

  lemma OtherStepsKeepLook(cfg: Config, s: State, a: Action, c: nat)
    requires Enabled(s, a) && c < |s.callers| && a != SecondLook(c) && Advances(s, a)
    ensures c < |Next(cfg, s, a).callers| && s.stores <= Next(cfg, s, a).stores && s.now <= Next(cfg, s, a).now
    ensures var me, now := s.callers[c], Next(cfg, s, a).callers[c];
            now.kid == me.kid && (now.place.Final? ==> now.place == me.place)
  {
  }

  lemma {:induction false} LooksHold(cfg: Config, s: State, run: seq<Action>)
    requires LooksInv(cfg, s) && IsRun(cfg, s, run) && Monotone(cfg, s, run)
    ensures LooksInv(cfg, After(cfg, s, run))
    decreases |run|
  {
    if run != [] {
      StepKeepsLooks(cfg, s, run[0]);
      LooksHold(cfg, Next(cfg, s, run[0]), run[1..]);
    }
  }

  /** The verdict after two failed looks, over every run. Unavailable means that no fetch succeeded within the last
      ceiling; and unknown means that the set lacks the kid, as long as no fetch has landed since the second look. */
  lemma SplitIsExact(cfg: Config, t0: int, t1: int, fetched: Option<KeySet>, run: seq<Action>, c: nat)
    requires fetched.Some? ==> fetched.value != map[]
    requires IsRun(cfg, Built(cfg, t0, t1, fetched), run) && Monotone(cfg, Built(cfg, t0, t1, fetched), run)
    requires var s := After(cfg, Built(cfg, t0, t1, fetched), run); c < |s.callers| && s.callers[c].place.Final?
    ensures var s := After(cfg, Built(cfg, t0, t1, fetched), run);
            var me, a := s.callers[c], Next(cfg, s, Judge(c)).callers[c].place.answer;
            && (a.KeySetUnavailable? <==> forall i | 0 <= i < |s.stores| :: s.now - s.stores[i].at > cfg.staleCeiling)
            && (a.KidUnknown? && me.place.stores == |s.stores| ==> me.kid !in s.stores[|s.stores| - 1].keys)
  {
    var s := After(cfg, Built(cfg, t0, t1, fetched), run);
    LooksHold(cfg, Built(cfg, t0, t1, fetched), run);
    UsableIff(cfg, s);
    assert LookOk(cfg, s, c);
  }

  /** A set is usable exactly when some fetch succeeded within the last ceiling. */
  lemma UsableIff(cfg: Config, s: State)
    requires LooksInv(cfg, s)
    ensures Usable(cfg, s.core, s.now) <==>
            exists i :: 0 <= i < |s.stores| && s.now - s.stores[i].at <= cfg.staleCeiling
  {
    if s.stores != [] {
      var last := s.stores[|s.stores| - 1];
      assert Usable(cfg, s.core, s.now) <==> s.now - last.at <= cfg.staleCeiling;
    }
  }

  /** With a fetch in between, unknown can be wrong: over any accepted settings there is a healthy run in which a
      live caller is told that the kid is unknown while the set it was judged by holds it. */
  lemma StoreBetweenMisleads(cfg: Config, t: int, keys: KeySet, newer: KeySet, kid: string) returns (run: seq<Action>)
    requires Validate(cfg).None? && keys != map[] && kid !in keys && kid in newer
    ensures IsRun(cfg, Built(cfg, t, t, Some(keys)), run) && Healthy(cfg, Built(cfg, t, t, Some(keys)), run)
    ensures var s := After(cfg, Built(cfg, t, t, Some(keys)), run);
            && s.callers == [Caller(kid, false, Returned(KidUnknown))]
            && Lookup(cfg, s.core, kid, s.now) == Some(newer[kid])
  {
    var s0, late := Built(cfg, t, t, Some(keys)), t + cfg.minRefresh;
    var s;
    run, s := LookTwice(cfg, t, t, keys, kid);
    Then(cfg, s0, run, s, Clock(late));
    run, s := run + [Clock(late)], Next(cfg, s, Clock(late));
    Then(cfg, s0, run, s, BackgroundTick);
    run, s := run + [BackgroundTick], Next(cfg, s, BackgroundTick);
    Then(cfg, s0, run, s, RunClaim(late));
    run, s := run + [RunClaim(late)], Next(cfg, s, RunClaim(late));
    assert newer != map[];
    Then(cfg, s0, run, s, FetchOk(newer));
    run, s := run + [FetchOk(newer)], Next(cfg, s, FetchOk(newer));
    Then(cfg, s0, run, s, Judge(0));
    run, s := run + [Judge(0)], Next(cfg, s, Judge(0));
  }
}
