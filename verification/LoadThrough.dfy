/**
 The load-through flight protocol: concurrent misses for one cache instance, value type and key collapse
 into a single loader call, and a live follower never inherits the cancellation of its leader.

 Every caller of `fill` is a small program. Its steps are the points where another goroutine may interleave:
 join-or-start under the table's mutex, the loader returning, the three statements of `settle`, and a
 follower's two ways out of its select. A run is any sequence of enabled steps of any number of callers.
 */
module LoadThrough {
  import opened Options

  // ----- data model

  /** Scopes collapsing; `cache == 0` means the cache has no pointer identity to scope by. */
  datatype FlightID = FlightID(cache: nat, typ: nat, key: string)

  datatype Value = Zero | Loaded(n: nat)

  datatype Error = LoaderFailed(n: nat) | LoaderPanicked | NotEncodable | ContextEnded

  datatype Outcome = Outcome(val: Value, err: Option<Error>)

  /** What the caller's loader did: `isNil` and `encodes` are what `lead` asks of a returned value. */
  datatype LoaderResult = Panicked | Returned(val: Value, err: Option<Error>, isNil: bool, encodes: bool)

  /** A heap-allocated flight. `id` and `leader` are history: who allocated it and for what. */
  datatype Flight = Flight(id: FlightID, leader: nat, published: bool, outcome: Outcome, leaderCtxDone: bool,
                           closed: bool)

  /** How a caller came by what it returned. `live` is its context's state at the follower check. */
  datatype How = Led(own: Option<nat>) | Shared(f: nat, live: bool) | GaveUp

  /** Where a caller stands inside `fill`. */
  datatype Place =
    | Enter
    | Loading(own: Option<nat>)
    | LoadDone(own: Option<nat>, out: Outcome)
    | Published(f: nat, out: Outcome)
    | Unlisted(f: nat, out: Outcome)
    | Waiting(f: nat)
    | Done(how: How, out: Outcome)

  /** `joined` is history: every flight the caller joined or started, oldest first. */
  datatype Caller = Caller(id: FlightID, ctxDone: bool, place: Place, joined: seq<nat>)

  /** One completed loader run. */
  datatype Load = Load(id: FlightID, caller: nat, out: Outcome)

  /** A flight pointer is an index into `flights`; `active` is the shared table; `loads` is history. */
  datatype State = State(flights: seq<Flight>, active: map<FlightID, nat>, callers: seq<Caller>, loads: seq<Load>)

  datatype Action =
    | Arrive(id: FlightID)
    | Cancel(c: nat)
    | Join(c: nat)
    | LoadReturns(c: nat, result: LoaderResult)
    | Publish(c: nat)
    | Unlist(c: nat)
    | Close(c: nat)
    | Wake(c: nat)
    | GiveUpWaiting(c: nat)

  // ----- the steps

  /** What `lead` hands back: a panic and an unencodable value become errors over the zero value. */
  function Lead(r: LoaderResult): Outcome {
    match r
    case Panicked => Outcome(Zero, Some(LoaderPanicked))
    case Returned(v, err, isNil, encodes) =>
      if err.Some? || isNil || encodes then Outcome(v, err) else Outcome(Zero, Some(NotEncodable))
  }

  function Move(s: State, c: nat, p: Place): State
    requires c < |s.callers|
  {
    s.(callers := s.callers[c := s.callers[c].(place := p)])
  }

  function SetFlight(s: State, f: nat, fl: Flight): State
    requires f < |s.flights|
  {
    s.(flights := s.flights[f := fl])
  }

  predicate Enabled(s: State, a: Action) {
    if a.Arrive? then true else
      && a.c < |s.callers|
      && var p := s.callers[a.c].place;
      match a
      case Cancel(_) => true
      case Join(_) => p.Enter?
      case LoadReturns(_, _) => p.Loading?
      case Publish(_) => p.LoadDone? && (p.own.Some? ==> p.own.value < |s.flights|)
      case Unlist(_) => p.Published?
      case Close(_) => p.Unlisted? && p.f < |s.flights|
      case Wake(_) => p.Waiting? && p.f < |s.flights| && s.flights[p.f].closed
      case GiveUpWaiting(_) => p.Waiting? && s.callers[a.c].ctxDone
  }

  /** `joinOrStart`, and the branch of `fill` it selects. The table is keyed by value type, so the
      type assertion on an existing entry succeeds exactly when the entry's flight has the id's type. */
  function JoinStep(s: State, c: nat): State
    requires c < |s.callers|
  {
    var me := s.callers[c];
    if me.id.cache == 0 then Move(s, c, Loading(None))
    else if me.id in s.active then
      var f := s.active[me.id];
      if f < |s.flights| && s.flights[f].id.typ == me.id.typ then
        s.(callers := s.callers[c := me.(place := Waiting(f), joined := me.joined + [f])])
      else Move(s, c, Loading(None))
    else
      var f := |s.flights|;
      State(s.flights + [Flight(me.id, c, false, Outcome(Zero, None), false, false)],
            s.active[me.id := f],
            s.callers[c := me.(place := Loading(Some(f)), joined := me.joined + [f])],
            s.loads)
  }

  function Next(s: State, a: Action): State
    requires Enabled(s, a)
  {
    match a
    case Arrive(id) => s.(callers := s.callers + [Caller(id, false, Enter, [])])
    case Cancel(c) => s.(callers := s.callers[c := s.callers[c].(ctxDone := true)])
    case Join(c) => JoinStep(s, c)
    case LoadReturns(c, r) =>
      var me := s.callers[c];
      Move(s, c, LoadDone(me.place.own, Lead(r))).(loads := s.loads + [Load(me.id, c, Lead(r))])
    case Publish(c) =>
      var me := s.callers[c];
      var out := me.place.out;
      if me.place.own.None? then Move(s, c, Done(Led(None), out))
      else
        var f := me.place.own.value;
        Move(SetFlight(s, f, s.flights[f].(published := true, outcome := out, leaderCtxDone := me.ctxDone)),
             c, Published(f, out))
    case Unlist(c) =>
      var me := s.callers[c];
      Move(s, c, Unlisted(me.place.f, me.place.out)).(active := s.active - {me.id})
    case Close(c) =>
      var p := s.callers[c].place;
      Move(SetFlight(s, p.f, s.flights[p.f].(closed := true)), c, Done(Led(Some(p.f)), p.out))
    case Wake(c) =>
      var me := s.callers[c];
      var fl := s.flights[me.place.f];
      if fl.outcome.err.Some? && fl.leaderCtxDone && !me.ctxDone then Move(s, c, Enter)
      else Move(s, c, Done(Shared(me.place.f, !me.ctxDone), fl.outcome))
    case GiveUpWaiting(c) => Move(s, c, Done(GaveUp, Outcome(Zero, Some(ContextEnded))))
  }

  const INIT := State([], map[], [], [])

  ghost predicate IsRun(s: State, run: seq<Action>)
    decreases |run|
  {
    run == [] || (Enabled(s, run[0]) && IsRun(Next(s, run[0]), run[1..]))
  }

  ghost function After(s: State, run: seq<Action>): State
    requires IsRun(s, run)
    decreases |run|
  {
    if run == [] then s else After(Next(s, run[0]), run[1..])
  }

  ghost predicate Reachable(s: State) {
    exists run :: IsRun(INIT, run) && After(INIT, run) == s
  }

  // ----- the invariant

  /** The flight a caller leads and has not closed yet. */
  function Leads(p: Place): Option<nat> {
    match p
    case Loading(own) => own
    case LoadDone(own, _) => own
    case Published(f, _) => Some(f)
    case Unlisted(f, _) => Some(f)
    case _ => None
  }

  /** The flight a caller leads or has led: a caller leads at most one in its life. */
  function EverLed(p: Place): Option<nat> {
    if p.Done? && p.how.Led? then p.how.own else Leads(p)
  }

  /** The stretch of `fill` during which the leader's entry stays in the table. */
  predicate Listed(p: Place) {
    (p.Loading? && p.own.Some?) || (p.LoadDone? && p.own.Some?) || p.Published?
  }

  ghost predicate EntryOk(s: State, id: FlightID)
    requires id in s.active
  {
    var f := s.active[id];
    && f < |s.flights| && s.flights[f].id == id && !s.flights[f].closed
    && s.flights[f].leader < |s.callers|
    && Listed(s.callers[s.flights[f].leader].place)
  }

  ghost predicate FlightOk(s: State, f: nat)
    requires f < |s.flights|
  {
    var fl := s.flights[f];
    && fl.id.cache != 0
    && fl.leader < |s.callers|
    && s.callers[fl.leader].id == fl.id
    && EverLed(s.callers[fl.leader].place) == Some(f)
    && (fl.closed <==> s.callers[fl.leader].place.Done?)
    && (fl.closed ==> fl.published)
    && (fl.published ==> Load(fl.id, fl.leader, fl.outcome) in s.loads)
    && (fl.leaderCtxDone ==> s.callers[fl.leader].ctxDone)
  }

  ghost predicate LeaderOk(s: State, c: nat)
    requires c < |s.callers|
  {
    var me := s.callers[c];
    var p := me.place;
    && (EverLed(p).Some? ==>
          var f := EverLed(p).value;
          && f < |s.flights| && s.flights[f].leader == c
          && (s.flights[f].published <==> !p.Loading? && !p.LoadDone?))
    && (Listed(p) ==> me.id in s.active && s.active[me.id] == EverLed(p).value)
    && ((p.Loading? || p.LoadDone?) && p.own.None? ==> me.id.cache == 0)
    && (p.LoadDone? ==> Load(me.id, c, p.out) in s.loads)
    && (p.Published? || p.Unlisted? || (p.Done? && p.how == Led(EverLed(p)) && EverLed(p).Some?) ==>
          EverLed(p).value < |s.flights| && s.flights[EverLed(p).value].outcome == p.out)
    && (p.Done? && p.how.Led? ==> Load(me.id, c, p.out) in s.loads)
  }

  ghost predicate FollowerOk(s: State, c: nat)
    requires c < |s.callers|
  {
    var me := s.callers[c];
    match me.place
    case Waiting(f) => f < |s.flights| && s.flights[f].id == me.id && s.flights[f].leader != c
    case Done(Shared(f, live), out) =>
      && f < |s.flights| && s.flights[f].id == me.id && s.flights[f].leader != c
      && s.flights[f].closed && s.flights[f].outcome == out
      && (live ==> !(out.err.Some? && s.flights[f].leaderCtxDone))
    case Done(GaveUp, out) => me.ctxDone && out == Outcome(Zero, Some(ContextEnded))
    case _ => true
  }

  /** A flight whose shared error a live follower `c` must not take: `c` went round again after it. */
  ghost predicate Abandoned(s: State, c: nat, f: nat) {
    && f < |s.flights| && c < |s.callers|
    && s.flights[f].id == s.callers[c].id && s.flights[f].leader != c
    && s.flights[f].closed && s.flights[f].outcome.err.Some? && s.flights[f].leaderCtxDone
  }

  /** How many flights the caller has put behind it. */
  function Retries(me: Caller): nat {
    if me.place.Enter? then |me.joined| else if me.joined == [] then 0 else |me.joined| - 1
  }

  ghost predicate HistoryOk(s: State, c: nat)
    requires c < |s.callers|
  {
    var me := s.callers[c];
    && (forall i | 0 <= i < Retries(me) :: Abandoned(s, c, me.joined[i]))
    && (forall i, j | 0 <= i < j < |me.joined| :: me.joined[i] != me.joined[j])
    && (me.place.Waiting? ==> me.joined != [] && me.joined[|me.joined| - 1] == me.place.f)
    && (forall i | 0 <= i < |me.joined| :: me.joined[i] < |s.flights|)
  }

  ghost predicate Inv(s: State) {
    && (forall id | id in s.active :: EntryOk(s, id))
    && (forall f | 0 <= f < |s.flights| :: FlightOk(s, f))
    && (forall c | 0 <= c < |s.callers| :: LeaderOk(s, c))
    && (forall c | 0 <= c < |s.callers| :: FollowerOk(s, c))
    && (forall c | 0 <= c < |s.callers| :: HistoryOk(s, c))
  }

  lemma StepKeepsInv(s: State, a: Action)
    requires Inv(s) && Enabled(s, a)
    ensures Inv(Next(s, a))
  {
    var t := Next(s, a);
    forall id | id in t.active ensures EntryOk(t, id) { StepKeepsEntry(s, a, id); }
    forall f | 0 <= f < |t.flights| ensures FlightOk(t, f) { StepKeepsFlight(s, a, f); }
    forall c | 0 <= c < |t.callers| ensures LeaderOk(t, c) { StepKeepsLeader(s, a, c); }
    forall c | 0 <= c < |t.callers| ensures FollowerOk(t, c) { StepKeepsFollower(s, a, c); }
    forall c | 0 <= c < |t.callers| ensures HistoryOk(t, c) { StepKeepsHistory(s, a, c); }
  }

  /** The facts about the acting caller that a step's effect on anyone else rests on. */
  ghost predicate ActorOk(s: State, a: Action) {
    a.Arrive? ||
    (&& a.c < |s.callers|
     && LeaderOk(s, a.c)
     && (EverLed(s.callers[a.c].place).Some? ==> FlightOk(s, EverLed(s.callers[a.c].place).value))
     && (s.callers[a.c].id in s.active ==> EntryOk(s, s.callers[a.c].id)))
  }

  lemma ActorIsOk(s: State, a: Action)
    requires Inv(s) && Enabled(s, a)
    ensures ActorOk(s, a)
  {
    if !a.Arrive? {
      assert LeaderOk(s, a.c);
    }
  }

  /** What a step leaves alone: every other caller, every flight its actor does not lead, every entry it
      does not delete. */
  ghost predicate Frame(s: State, a: Action, t: State) {
    var actor := if a.Arrive? then |s.callers| else a.c;
    && |s.flights| <= |t.flights| && |s.callers| <= |t.callers|
    && (forall l | l in s.loads :: l in t.loads)
    && (forall d | 0 <= d < |s.callers| && d != actor :: t.callers[d] == s.callers[d])
    && (forall f | 0 <= f < |s.flights| ::
          t.flights[f] == s.flights[f] || (actor < |s.callers| && Leads(s.callers[actor].place) == Some(f)))
    && (forall id | id in s.active ::
          || (id in t.active && t.active[id] == s.active[id])
          || (a.Unlist? && actor < |s.callers| && s.callers[actor].id == id))
  }

  lemma StepFrames(s: State, a: Action)
    requires Enabled(s, a) && ActorOk(s, a)
    ensures Frame(s, a, Next(s, a))
  {
  }

  lemma StepKeepsEntry(s: State, a: Action, id: FlightID)
    requires Inv(s) && Enabled(s, a) && id in Next(s, a).active
    ensures EntryOk(Next(s, a), id)
  {
    ActorIsOk(s, a);
    if id in s.active {
      assert EntryOk(s, id);
      assert FlightOk(s, s.active[id]);
      StepFrames(s, a);
      if !a.Arrive? && s.flights[s.active[id]].leader == a.c {
        StepKeepsOwnEntry(s, a);
      }
    }
  }

  lemma StepKeepsOwnEntry(s: State, a: Action)
    requires Enabled(s, a) && ActorOk(s, a) && !a.Arrive? && Listed(s.callers[a.c].place)
    ensures var id := s.callers[a.c].id; id in Next(s, a).active ==> EntryOk(Next(s, a), id)
  {
  }

  lemma StepKeepsFlight(s: State, a: Action, f: nat)
    requires Inv(s) && Enabled(s, a) && f < |Next(s, a).flights|
    ensures FlightOk(Next(s, a), f)
  {
    ActorIsOk(s, a);
    if f == |s.flights| {
      NewFlightIsOk(s, a);
    } else {
      assert FlightOk(s, f);
      if !a.Arrive? && s.flights[f].leader == a.c {
        StepKeepsOwnFlight(s, a, f);
      } else {
        StepFrames(s, a);
        StepKeepsOtherFlight(s, a, Next(s, a), f);
      }
    }
  }

  lemma NewFlightIsOk(s: State, a: Action)
    requires Enabled(s, a) && |s.flights| < |Next(s, a).flights|
    ensures FlightOk(Next(s, a), |s.flights|)
  {
  }

  lemma StepKeepsOtherFlight(s: State, a: Action, t: State, f: nat)
    requires ActorOk(s, a) && Frame(s, a, t) && f < |s.flights| && FlightOk(s, f)
    requires a.Arrive? || s.flights[f].leader != a.c
    ensures f < |t.flights| && FlightOk(t, f)
  {
  }

  lemma StepKeepsOwnFlight(s: State, a: Action, f: nat)
    requires Enabled(s, a) && ActorOk(s, a) && !a.Arrive? && EverLed(s.callers[a.c].place) == Some(f)
    ensures f < |Next(s, a).flights| && FlightOk(Next(s, a), f)
  {
  }

  lemma StepKeepsLeader(s: State, a: Action, c: nat)
    requires Inv(s) && Enabled(s, a) && c < |Next(s, a).callers|
    ensures LeaderOk(Next(s, a), c)
  {
    ActorIsOk(s, a);
    if !a.Arrive? && a.c == c {
      StepKeepsOwnLeader(s, a);
    } else if c < |s.callers| {
      assert LeaderOk(s, c);
      StepFrames(s, a);
      StepKeepsOtherLeader(s, a, Next(s, a), c);
    }
  }

  lemma StepKeepsOtherLeader(s: State, a: Action, t: State, c: nat)
    requires Enabled(s, a) && ActorOk(s, a) && Frame(s, a, t)
    requires c < |s.callers| && LeaderOk(s, c) && (a.Arrive? || a.c != c)
    ensures LeaderOk(t, c)
  {
  }

  lemma StepKeepsOwnLeader(s: State, a: Action)
    requires Enabled(s, a) && ActorOk(s, a) && !a.Arrive?
    ensures LeaderOk(Next(s, a), a.c)
  {
  }

  lemma StepKeepsFollower(s: State, a: Action, c: nat)
    requires Inv(s) && Enabled(s, a) && c < |Next(s, a).callers|
    ensures FollowerOk(Next(s, a), c)
  {
    if a.Arrive? || a.c != c {
      StepKeepsOtherFollower(s, a, c);
    } else {
      assert FollowerOk(s, c) && LeaderOk(s, c);
      if a.Join? && s.callers[c].id in s.active {
        assert EntryOk(s, s.callers[c].id);
      }
    }
  }

  lemma StepKeepsOtherFollower(s: State, a: Action, c: nat)
    requires Inv(s) && Enabled(s, a) && c < |Next(s, a).callers| && (a.Arrive? || a.c != c)
    ensures FollowerOk(Next(s, a), c)
  {
    if c < |s.callers| {
      assert FollowerOk(s, c);
      ActorIsOk(s, a);
      StepFrames(s, a);
      var p := s.callers[c].place;
      if p.Done? && p.how.Shared? {
        StepKeepsClosed(s, a, p.how.f);
      } else if p.Waiting? {
        StepKeepsIdentity(s, a, p.f);
      }
    }
  }

  lemma StepKeepsIdentity(s: State, a: Action, f: nat)
    requires Enabled(s, a) && f < |s.flights|
    ensures f < |Next(s, a).flights|
    ensures Next(s, a).flights[f].id == s.flights[f].id && Next(s, a).flights[f].leader == s.flights[f].leader
  {
  }

  lemma StepKeepsHistory(s: State, a: Action, c: nat)
    requires Inv(s) && Enabled(s, a) && c < |Next(s, a).callers|
    ensures HistoryOk(Next(s, a), c)
  {
    if c < |s.callers| {
      var t, me := Next(s, a), s.callers[c];
      assert HistoryOk(s, c);
      forall i | 0 <= i < Retries(me) ensures Abandoned(t, c, me.joined[i]) {
        StepKeepsAbandoned(s, a, c, me.joined[i]);
      }
      if a == Join(c) {
        JoinKeepsHistory(s, c);
      } else if a == Wake(c) {
        WakeKeepsHistory(s, c);
      } else {
        OtherStepsKeepRounds(s, a, c);
      }
    }
  }

  /** Only joining and waking move a caller from one round of `fill` to the next. */
  lemma OtherStepsKeepRounds(s: State, a: Action, c: nat)
    requires Enabled(s, a) && c < |s.callers| && a != Join(c) && a != Wake(c)
    ensures |s.flights| <= |Next(s, a).flights| && c < |Next(s, a).callers|
    ensures var me, now := s.callers[c], Next(s, a).callers[c];
            && now.joined == me.joined && Retries(now) == Retries(me)
            && (now.place.Waiting? ==> now.place == me.place)
  {
  }

  lemma JoinKeepsHistory(s: State, c: nat)
    requires Inv(s) && Enabled(s, Join(c))
    requires forall i | 0 <= i < |s.callers[c].joined| :: Abandoned(Next(s, Join(c)), c, s.callers[c].joined[i])
    ensures HistoryOk(Next(s, Join(c)), c)
  {
    assert HistoryOk(s, c);
    JoinIsFresh(s, c);
    if s.callers[c].id in s.active {
      assert EntryOk(s, s.callers[c].id);
    }
  }

  lemma WakeKeepsHistory(s: State, c: nat)
    requires Inv(s) && Enabled(s, Wake(c))
    requires forall i | 0 <= i < Retries(s.callers[c]) :: Abandoned(Next(s, Wake(c)), c, s.callers[c].joined[i])
    ensures HistoryOk(Next(s, Wake(c)), c)
  {
    assert HistoryOk(s, c);
    assert FollowerOk(s, c);
  }

  lemma StepKeepsAbandoned(s: State, a: Action, c: nat, f: nat)
    requires Inv(s) && Enabled(s, a) && Abandoned(s, c, f)
    ensures Abandoned(Next(s, a), c, f)
  {
    StepKeepsClosed(s, a, f);
  }

  /** A caller that goes round again never meets a flight it has met before. */
  lemma JoinIsFresh(s: State, c: nat)
    requires Inv(s) && Enabled(s, Join(c))
    ensures s.callers[c].id in s.active ==> s.active[s.callers[c].id] !in s.callers[c].joined
    ensures |s.flights| !in s.callers[c].joined
  {
    var me := s.callers[c];
    assert HistoryOk(s, c);
    forall i | 0 <= i < |me.joined|
      ensures me.joined[i] < |s.flights| && s.flights[me.joined[i]].closed
    {
      assert Abandoned(s, c, me.joined[i]);
    }
    if me.id in s.active {
      assert EntryOk(s, me.id);
    }
  }

  /** `settle` writes the fields before it closes and nothing writes them after: a closed flight is final. */
  lemma StepKeepsClosed(s: State, a: Action, f: nat)
    requires Inv(s) && Enabled(s, a) && f < |s.flights| && s.flights[f].closed
    ensures f < |Next(s, a).flights| && Next(s, a).flights[f] == s.flights[f]
  {
    assert FlightOk(s, f);
    if !a.Arrive? {
      assert LeaderOk(s, a.c);
    }
  }

  lemma {:induction false} RunKeepsInv(s: State, run: seq<Action>)
    requires Inv(s) && IsRun(s, run)
    ensures Inv(After(s, run))
    decreases |run|
  {
    if run != [] {
      StepKeepsInv(s, run[0]);
      RunKeepsInv(Next(s, run[0]), run[1..]);
    }
  }

  lemma ReachableInv(s: State)
    requires Reachable(s)
    ensures Inv(s)
  {
    var run :| IsRun(INIT, run) && After(INIT, run) == s;
    RunKeepsInv(INIT, run);
  }

  // ----- what every interleaving guarantees

  /** At most one loader runs at a time per identified id, and the table entry is its leader's own flight. */
  lemma OneLoaderAtATime(s: State, c: nat, d: nat)
    requires Reachable(s) && c < |s.callers| && d < |s.callers|
    requires s.callers[c].place.Loading? && s.callers[d].place.Loading?
    requires s.callers[c].id == s.callers[d].id && s.callers[c].id.cache != 0
    ensures c == d
    ensures s.callers[c].id in s.active && s.callers[c].place.own == Some(s.active[s.callers[c].id])
  {
    ReachableInv(s);
    assert LeaderOk(s, c) && LeaderOk(s, d);
  }

  /** The table holds exactly the in-progress loads: one entry per leader that has not unlisted yet. */
  lemma TableHoldsLeaders(s: State, id: FlightID, f: nat)
    requires Reachable(s)
    ensures (id in s.active && s.active[id] == f) <==>
            (f < |s.flights| && s.flights[f].id == id && s.flights[f].leader < |s.callers|
             && Listed(s.callers[s.flights[f].leader].place))
  {
    ReachableInv(s);
    if id in s.active {
      assert EntryOk(s, id);
    }
    if f < |s.flights| {
      assert FlightOk(s, f);
      assert LeaderOk(s, s.flights[f].leader);
    }
  }

  /** The type assertion in `joinOrStart` never fails: with an entry present the caller joins that very flight, and
      without one it leads a new flight; only a cache without identity loads alone. */
  lemma JoinFindsItsFlight(s: State, c: nat)
    requires Reachable(s) && Enabled(s, Join(c))
    ensures var me, p := s.callers[c], Next(s, Join(c)).callers[c].place;
            if me.id.cache == 0 then p == Loading(None)
            else if me.id in s.active then p == Waiting(s.active[me.id])
            else p == Loading(Some(|s.flights|)) && Next(s, Join(c)).active == s.active[me.id := |s.flights|]
  {
    ReachableInv(s);
    if s.callers[c].id in s.active {
      assert EntryOk(s, s.callers[c].id);
    }
  }

  /** `settle` deletes the leader's own entry and no other, and closes a channel that is still open
      and already carries the outcome, so the close can never panic. */
  lemma SettleTouchesOwnFlight(s: State, c: nat)
    requires Reachable(s) && c < |s.callers|
    ensures Enabled(s, Unlist(c)) ==>
              var me := s.callers[c];
              && me.id in s.active && s.active[me.id] == me.place.f
              && me.place.f < |s.flights| && s.flights[me.place.f].leader == c
    ensures Enabled(s, Close(c)) ==>
              var fl := s.flights[s.callers[c].place.f];
              fl.leader == c && !fl.closed && fl.published && fl.outcome == s.callers[c].place.out
  {
    ReachableInv(s);
    assert LeaderOk(s, c);
    if Leads(s.callers[c].place).Some? {
      assert FlightOk(s, Leads(s.callers[c].place).value);
    }
  }

  /** Once closed, a flight's fields never change again, whatever runs afterwards. */
  lemma {:induction false} ClosedForever(s: State, run: seq<Action>, f: nat)
    requires Inv(s) && IsRun(s, run) && f < |s.flights| && s.flights[f].closed
    ensures f < |After(s, run).flights| && After(s, run).flights[f] == s.flights[f]
    decreases |run|
  {
    if run != [] {
      StepKeepsClosed(s, run[0], f);
      StepKeepsInv(s, run[0]);
      ClosedForever(Next(s, run[0]), run[1..], f);
    }
  }

  /** Whatever a caller returns is its own context's end or the outcome of one loader run for its id; and a
      follower live at the check never returns the error of a flight whose leader's context was done. */
  lemma ReturnedOutcomes(s: State, c: nat)
    requires Reachable(s) && c < |s.callers| && s.callers[c].place.Done?
    ensures var me := s.callers[c];
            match me.place.how
            case GaveUp => me.ctxDone && me.place.out == Outcome(Zero, Some(ContextEnded))
            case Led(_) => Load(me.id, c, me.place.out) in s.loads
            case Shared(f, live) =>
              && f < |s.flights| && s.flights[f].closed && s.flights[f].leader != c
              && Load(me.id, s.flights[f].leader, me.place.out) in s.loads
              && (live && s.flights[f].leaderCtxDone ==> me.place.out.err.None?)
  {
    ReachableInv(s);
    assert LeaderOk(s, c) && FollowerOk(s, c);
    if s.callers[c].place.how.Shared? {
      assert FlightOk(s, s.callers[c].place.how.f);
    }
  }

  /** No lost wakeup: the flight a follower waits on is closed, or its leader is still on its way to close it. */
  lemma WaitersHaveALeader(s: State, c: nat)
    requires Reachable(s) && c < |s.callers| && s.callers[c].place.Waiting?
    ensures s.callers[c].place.f < |s.flights|
    ensures Enabled(s, Wake(c)) ||
            var l := s.flights[s.callers[c].place.f].leader;
            && l != c
            && (|| Enabled(s, LoadReturns(l, Panicked)) || Enabled(s, Publish(l))
                || Enabled(s, Unlist(l)) || Enabled(s, Close(l)))
  {
    ReachableInv(s);
    assert FollowerOk(s, c);
    assert FlightOk(s, s.callers[c].place.f);
    assert LeaderOk(s, s.flights[s.callers[c].place.f].leader);
  }

  /** Nothing leaks: when every caller has returned, the table is empty and every flight is closed. */
  lemma QuiescentTableIsEmpty(s: State)
    requires Reachable(s)
    ensures (forall c | 0 <= c < |s.callers| :: s.callers[c].place.Done?) ==>
              s.active == map[] && forall f | 0 <= f < |s.flights| :: s.flights[f].closed
  {
    ReachableInv(s);
    if id :| id in s.active {
      assert EntryOk(s, id);
    }
    forall f | 0 <= f < |s.flights|
      ensures s.flights[f].leader < |s.callers|
      ensures s.flights[f].closed <==> s.callers[s.flights[f].leader].place.Done?
    {
      assert FlightOk(s, f);
    }
  }

  /** The other callers of the same id whose context has ended. */
  function CancelledPeers(s: State, c: nat): set<nat>
    requires c < |s.callers|
  {
    set d: nat | d < |s.callers| && d != c && s.callers[d].ctxDone && s.callers[d].id == s.callers[c].id
  }

  /** Each retry meets a new flight led by a different cancelled peer, so the peers bound the retries. */
  lemma RetriesBoundedByCancelledPeers(s: State, c: nat)
    requires Reachable(s) && c < |s.callers|
    ensures Retries(s.callers[c]) <= |CancelledPeers(s, c)|
  {
    ReachableInv(s);
    var me := s.callers[c];
    assert HistoryOk(s, c);
    var n := Retries(me);
    var leaders := seq(n, i requires 0 <= i < n && HistoryOk(s, c) => s.flights[me.joined[i]].leader);
    forall d | d in leaders ensures d in CancelledPeers(s, c) {
      var i :| 0 <= i < |leaders| && leaders[i] == d;
      assert Abandoned(s, c, me.joined[i]);
      assert FlightOk(s, me.joined[i]);
    }
    forall i, j | 0 <= i < j < |leaders| ensures leaders[i] != leaders[j] {
      OneLeaderPerFlight(s, me.joined[i], me.joined[j]);
    }
    DistinctSize(leaders);
    SubsetSize(Elements(leaders), CancelledPeers(s, c));
  }

  function Elements(xs: seq<nat>): set<nat> {
    set x | x in xs
  }

  lemma {:induction false} DistinctSize(xs: seq<nat>)
    requires forall i, j | 0 <= i < j < |xs| :: xs[i] != xs[j]
    ensures |Elements(xs)| == |xs|
  {
    if xs != [] {
      var front, last := xs[..|xs| - 1], xs[|xs| - 1];
      assert xs == front + [last];
      assert Elements(xs) == Elements(front) + {last};
      DistinctSize(front);
    }
  }

  lemma OneLeaderPerFlight(s: State, f: nat, g: nat)
    requires Inv(s) && f < |s.flights| && g < |s.flights| && f != g
    ensures s.flights[f].leader != s.flights[g].leader
  {
    assert FlightOk(s, f) && FlightOk(s, g);
  }

  lemma {:induction false} SubsetSize(a: set<nat>, b: set<nat>)
    requires a <= b
    ensures |a| <= |b|
  {
    if a != {} {
      var x :| x in a;
      SubsetSize(a - {x}, b - {x});
    }
  }

  // ----- the table itself

  /** The package-level table and the flights it points to, as `joinOrStart` and `settle` mutate them.
      The ghost state is the whole system at the moment the method's lock section or statement runs. */
  class FlightTable {
    var flights: seq<Flight>
    var active: map<FlightID, nat>

    ghost predicate Shows(s: State)
      reads this
    {
      flights == s.flights && active == s.active
    }

    method JoinOrStart(c: nat, id: FlightID, ghost s: State) returns (f: Option<nat>, leader: bool)
      requires Shows(s) && Enabled(s, Join(c)) && s.callers[c].id == id
      modifies this
      ensures Shows(Next(s, Join(c)))
      ensures Next(s, Join(c)).callers[c].place == if leader || f.None? then Loading(f) else Waiting(f.value)
      ensures leader ==> f.Some?
    {
      if id.cache == 0 {
        return None, false;
      }
      if id in active {
        var existing := active[id];
        f := if existing < |flights| && flights[existing].id.typ == id.typ then Some(existing) else None;
        return f, false;
      }
      f := Some(|flights|);
      active := active[id := |flights|];
      flights := flights + [Flight(id, c, false, Outcome(Zero, None), false, false)];
      return f, true;
    }

    /** The first statement of `settle`. */
    method WriteOutcome(c: nat, f: nat, out: Outcome, ctxDone: bool, ghost s: State)
      requires Shows(s) && Enabled(s, Publish(c))
      requires s.callers[c].place == LoadDone(Some(f), out) && s.callers[c].ctxDone == ctxDone
      modifies this
      ensures Shows(Next(s, Publish(c)))
    {
      flights := flights[f := flights[f].(published := true, outcome := out, leaderCtxDone := ctxDone)];
    }

    /** The delete under the mutex. */
    method DeleteEntry(c: nat, id: FlightID, ghost s: State)
      requires Shows(s) && Enabled(s, Unlist(c)) && s.callers[c].id == id
      modifies this
      ensures Shows(Next(s, Unlist(c)))
    {
      active := active - {id};
    }

    /** The close that wakes the followers. */
    method CloseDone(c: nat, f: nat, ghost s: State)
      requires Shows(s) && Enabled(s, Close(c)) && s.callers[c].place.f == f
      modifies this
      ensures Shows(Next(s, Close(c)))
    {
      flights := flights[f := flights[f].(closed := true)];
    }
  }
}
