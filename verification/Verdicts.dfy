/**
 The readiness verdict store: per kind, the verdict of the freshest judgment and the log lines its transitions
 owe. Judgments commit out of order, so observation times decide what is stored and the clock at commit decides
 how often a degraded kind is reported.
 */
module Verdicts {
  import opened Options

  datatype Status = Healthy | Unhealthy | NotConfigured | Disabled | PerTenant

  predicate IsFailing(s: Status) {
    s.Unhealthy?
  }

  datatype Line = NoLine | UnhealthyLine | RecoveredLine

  /** `warnedAt` is None while the kind has never warned. */
  datatype Entry = Entry(status: Status, critical: bool, observedAt: int, warnedAt: Option<int>)

  /** One judgment's verdict for a kind: what its probe saw, when the probe started, and the clock at commit. */
  datatype Commit = Commit(status: Status, critical: bool, observedAt: int, now: int)

  const WARN_INTERVAL := 60_000_000_000

  predicate Fails(e: Option<Entry>) {
    e.Some? && IsFailing(e.value.status)
  }

  function WarnedAt(e: Option<Entry>): Option<int> {
    if e.Some? then e.value.warnedAt else None
  }

  /** `transition`: the line a non-critical verdict owes and the warning time to keep beside it. */
  function Transition(previous: Option<Entry>, c: Commit): (Line, Option<int>) {
    var warned := WarnedAt(previous);
    if IsFailing(c.status) then
      if Fails(previous) && warned.Some? && c.now - warned.value < WARN_INTERVAL then (NoLine, warned)
      else (UnhealthyLine, Some(c.now))
    else if c.status.Healthy? && Fails(previous) then (RecoveredLine, warned)
    else (NoLine, warned)
  }

  predicate Drops(previous: Option<Entry>, c: Commit) {
    previous.Some? && c.observedAt < previous.value.observedAt
  }

  function Committed(previous: Option<Entry>, c: Commit): Option<Entry> {
    if Drops(previous, c) then previous
    else Some(Entry(c.status, c.critical, c.observedAt, if c.critical then None else Transition(previous, c).1))
  }

  function LineOf(previous: Option<Entry>, c: Commit): Line {
    if Drops(previous, c) || c.critical then NoLine else Transition(previous, c).0
  }

  /** The entry after the first `n` commits of one kind. */
  function After(cs: seq<Commit>, n: nat): Option<Entry>
    requires n <= |cs|
  {
    if n == 0 then None else Committed(After(cs, n - 1), cs[n - 1])
  }

  /** The line commit `n` owes. */
  function LineAt(cs: seq<Commit>, n: nat): Line
    requires n < |cs|
  {
    LineOf(After(cs, n), cs[n])
  }

  // ----- ordering

  /** Commit `i` is the last one with the greatest observation time among the first `n`. */
  ghost predicate IsFreshest(cs: seq<Commit>, n: nat, i: nat)
    requires n <= |cs|
  {
    && i < n
    && (forall j | 0 <= j < n :: cs[j].observedAt <= cs[i].observedAt)
    && (forall j | i < j < n :: cs[j].observedAt < cs[i].observedAt)
  }

  /** The stored verdict is the one the freshest observation gave, the later commit winning a tie. */
  lemma {:induction false} StoresFreshest(cs: seq<Commit>, n: nat, i: nat)
    requires n <= |cs| && IsFreshest(cs, n, i)
    ensures var e := After(cs, n);
            && e.Some? && e.value.observedAt == cs[i].observedAt
            && e.value.status == cs[i].status && e.value.critical == cs[i].critical
  {
    if i < n - 1 {
      StoresFreshest(cs, n - 1, i);
    } else if n > 1 {
      var j := Freshest(cs, n - 1);
      StoresFreshest(cs, n - 1, j);
    }
  }

  lemma {:induction false} Freshest(cs: seq<Commit>, n: nat) returns (i: nat)
    requires 0 < n <= |cs|
    ensures IsFreshest(cs, n, i)
  {
    if n == 1 {
      i := 0;
    } else {
      i := Freshest(cs, n - 1);
      if cs[i].observedAt <= cs[n - 1].observedAt {
        i := n - 1;
      }
    }
  }

  /** A strictly older commit changes nothing and owes no line. */
  lemma OlderCommitIsDropped(cs: seq<Commit>, n: nat, i: nat)
    requires n < |cs| && i < n && cs[n].observedAt < cs[i].observedAt
    ensures After(cs, n + 1) == After(cs, n) && LineAt(cs, n) == NoLine
  {
    var j := Freshest(cs, n);
    StoresFreshest(cs, n, j);
  }

  predicate DistinctTimes(cs: seq<Commit>) {
    forall i, j | 0 <= i < j < |cs| :: cs[i].observedAt != cs[j].observedAt
  }

  /** The order in which judgments commit does not matter: with distinct observation times every permutation
      ends in the same verdict. */
  lemma CommitOrderIsIrrelevant(cs: seq<Commit>, ds: seq<Commit>)
    requires multiset(cs) == multiset(ds) && DistinctTimes(ds) && cs != []
    ensures |cs| == |ds|
    ensures var e, f := After(cs, |cs|), After(ds, |ds|);
            e.Some? && f.Some? && e.value.status == f.value.status && e.value.critical == f.value.critical
            && e.value.observedAt == f.value.observedAt
  {
    assert |multiset(cs)| == |cs| && |multiset(ds)| == |ds|;
    var i := Freshest(cs, |cs|);
    var j := Freshest(ds, |ds|);
    StoresFreshest(cs, |cs|, i);
    StoresFreshest(ds, |ds|, j);
    assert cs[i] in multiset(ds) && ds[j] in multiset(cs);
    var i' :| 0 <= i' < |ds| && ds[i'] == cs[i];
    var j' :| 0 <= j' < |cs| && cs[j'] == ds[j];
    assert cs[j'].observedAt <= cs[i].observedAt && ds[i'].observedAt <= ds[j].observedAt;
    assert i' == j;
  }

  // ----- lines

  /** A kind that is never critical, under a clock that does not step back. */
  ghost predicate Reported(cs: seq<Commit>) {
    && (forall i | 0 <= i < |cs| :: !cs[i].critical)
    && (forall i, j | 0 <= i <= j < |cs| :: cs[i].now <= cs[j].now)
  }

  /** Commit `i` warned, and since then, up to the first `n` commits, the kind stayed failing in silence. */
  ghost predicate WarnedSince(cs: seq<Commit>, n: nat, i: nat)
    requires n <= |cs|
  {
    && i < n && LineAt(cs, i) == UnhealthyLine
    && (forall k | i < k <= n :: Fails(After(cs, k)))
    && (forall k | i < k < n :: LineAt(cs, k) == NoLine)
    && WarnedAt(After(cs, n)) == Some(cs[i].now)
  }

  /** A failing kind has always warned, and its warning time is that of the last line of its streak. */
  lemma {:induction false} FailingHasWarned(cs: seq<Commit>, n: nat) returns (i: nat)
    requires Reported(cs) && n <= |cs| && Fails(After(cs, n))
    ensures WarnedSince(cs, n, i)
  {
    if LineAt(cs, n - 1) == UnhealthyLine {
      i := n - 1;
    } else {
      assert Fails(After(cs, n - 1));
      i := FailingHasWarned(cs, n - 1);
    }
  }

  /** Every stored entry into unhealthy is reported. */
  lemma EntryIntoUnhealthyWarns(cs: seq<Commit>, n: nat)
    requires Reported(cs) && n < |cs| && !Fails(After(cs, n)) && Fails(After(cs, n + 1))
    ensures LineAt(cs, n) == UnhealthyLine
  {
  }

  /** Within one unhealthy streak, warnings are at least the interval apart. */
  lemma WarningsAreSpaced(cs: seq<Commit>, i: nat, j: nat)
    requires Reported(cs) && i < j < |cs| && LineAt(cs, i) == UnhealthyLine && LineAt(cs, j) == UnhealthyLine
    requires forall k | i < k <= j :: Fails(After(cs, k))
    ensures cs[j].now - cs[i].now >= WARN_INTERVAL
  {
    var last := FailingHasWarned(cs, j);
    assert i <= last;
  }

  /** Every recovery line answers a warning that no other recovery has answered. */
  lemma RecoveryAnswersWarning(cs: seq<Commit>, n: nat) returns (i: nat)
    requires Reported(cs) && n < |cs| && LineAt(cs, n) == RecoveredLine
    ensures i < n && LineAt(cs, i) == UnhealthyLine
    ensures forall k | i < k < n :: LineAt(cs, k) != RecoveredLine
  {
    i := FailingHasWarned(cs, n);
  }

  /** A commit that an earlier one already outdates. */
  ghost predicate Outdated(cs: seq<Commit>, n: nat)
    requires n < |cs|
  {
    exists i :: 0 <= i < n && cs[i].observedAt > cs[n].observedAt
  }

  ghost predicate WasUnhealthy(cs: seq<Commit>, n: nat)
    requires n <= |cs|
  {
    After(cs, n).Some? && After(cs, n).value.status.Unhealthy?
  }

  lemma OutdatedIffDropped(cs: seq<Commit>, n: nat)
    requires n < |cs|
    ensures Outdated(cs, n) <==> Drops(After(cs, n), cs[n])
  {
    if n > 0 {
      var i := Freshest(cs, n);
      StoresFreshest(cs, n, i);
    }
  }

  /** Exactly when a recovery is reported: a healthy verdict that is stored over an unhealthy one. */
  lemma RecoveryIsReportedIff(cs: seq<Commit>, n: nat)
    requires n < |cs| && !cs[n].critical
    ensures LineAt(cs, n) == RecoveredLine <==> !Outdated(cs, n) && cs[n].status.Healthy? && WasUnhealthy(cs, n)
  {
    OutdatedIffDropped(cs, n);
  }

  /** Exactly when a warning is given: an unhealthy verdict is stored, and it starts a streak or comes at least the
      interval after the last warning `i` of the streak. */
  lemma WarningIsGivenIff(cs: seq<Commit>, n: nat) returns (i: nat)
    requires Reported(cs) && n < |cs|
    ensures WasUnhealthy(cs, n) ==> WarnedSince(cs, n, i)
    ensures LineAt(cs, n) == UnhealthyLine <==>
            && !Outdated(cs, n) && cs[n].status.Unhealthy?
            && (WasUnhealthy(cs, n) ==> cs[n].now - cs[i].now >= WARN_INTERVAL)
  {
    OutdatedIffDropped(cs, n);
    i := 0;
    if WasUnhealthy(cs, n) {
      i := FailingHasWarned(cs, n);
    }
  }

  /** A critical kind's verdicts are never logged here. */
  lemma CriticalIsSilent(cs: seq<Commit>, n: nat)
    requires n < |cs| && cs[n].critical
    ensures LineAt(cs, n) == NoLine
  {
  }

  // ----- the store

  datatype Reading = Reading(kind: string, status: Status, critical: bool)

  class VerdictStore {
    var entries: map<string, Entry>

    constructor ()
      ensures entries == map[]
    {
      entries := map[];
    }

    ghost function EntryOf(kind: string): Option<Entry>
      reads this
    {
      if kind in entries then Some(entries[kind]) else None
    }

    /** The state change under the lock: exactly one kind's entry moves, by the rules above. */
    method CommitVerdict(kind: string, status: Status, critical: bool, observedAt: int, now: int) returns (line: Line)
      modifies this
      ensures EntryOf(kind) == Committed(old(EntryOf(kind)), Commit(status, critical, observedAt, now))
      ensures line == LineOf(old(EntryOf(kind)), Commit(status, critical, observedAt, now))
      ensures entries - {kind} == old(entries) - {kind}
    {
      var known := kind in entries;
      if known && observedAt < entries[kind].observedAt {
        return NoLine;
      }
      line := NoLine;
      var warnedAt := None;
      if !critical {
        var failing := known && IsFailing(entries[kind].status);
        warnedAt := if known then entries[kind].warnedAt else None;
        if IsFailing(status) {
          if !(failing && warnedAt.Some? && now - warnedAt.value < WARN_INTERVAL) {
            line, warnedAt := UnhealthyLine, Some(now);
          }
        } else if status.Healthy? && failing {
          line := RecoveredLine;
        }
      }
      entries := entries[kind := Entry(status, critical, observedAt, warnedAt)];
    }

    /** The gauge's view: one reading per judged kind, in any order. */
    method Readings() returns (readings: seq<Reading>)
      ensures |readings| == |entries|
      ensures forall r :: r in readings <==>
                r.kind in entries && entries[r.kind].status == r.status && entries[r.kind].critical == r.critical
    {
      readings := [];
      var todo := entries.Keys;
      while todo != {}
        invariant todo <= entries.Keys && |readings| + |todo| == |entries|
        invariant forall r :: r in readings <==>
                    && r.kind in entries && r.kind !in todo
                    && entries[r.kind].status == r.status && entries[r.kind].critical == r.critical
        decreases todo
      {
        var kind :| kind in todo;
        readings := readings + [Reading(kind, entries[kind].status, entries[kind].critical)];
        todo := todo - {kind};
      }
    }
  }
}

/**
 The two locks of `record`. The line lock is held across the commit and the write that follows; the entries'
 lock covers the commit alone. A run is any interleaving of recorders and gauge readers.
 */
module VerdictLines {
  import opened Options
  import opened Verdicts

  /** The line a recorder's commit decided: the kind's commit number `n`. */
  datatype Owed = Owed(t: nat, kind: string, n: nat, line: Line)

  datatype Place = Idle | HoldsLine | HoldsBoth | Owes(owed: Owed) | Finished

  datatype Recorder = Recorder(kind: string, status: Status, critical: bool, observedAt: int, place: Place)

  datatype Holder = Free | ByRecorder(t: nat) | ByReader

  /** `commits` and `committed` are history: the commits of each kind in order, and the lines all of them decided;
      `log` is what has been written. */
  datatype State = State(entries: map<string, Entry>, lineMu: Option<nat>, mu: Holder, recorders: seq<Recorder>,
                         commits: map<string, seq<Commit>>, committed: seq<Owed>, log: seq<Owed>)

  function CommitsOf(s: State, kind: string): seq<Commit> {
    if kind in s.commits then s.commits[kind] else []
  }

  datatype Action =
    | Arrive(kind: string, status: Status, critical: bool, observedAt: int)
    | LockLine(t: nat)
    | LockEntries(t: nat)
    | CommitAndUnlock(t: nat, now: int)
    | WriteAndUnlock(t: nat)
    | ReaderLocks
    | ReaderUnlocks

  predicate Enabled(s: State, a: Action) {
    match a
    case Arrive(_, _, _, _) => true
    case LockLine(t) => t < |s.recorders| && s.recorders[t].place.Idle? && s.lineMu.None?
    case LockEntries(t) => t < |s.recorders| && s.recorders[t].place.HoldsLine? && s.mu.Free?
    case CommitAndUnlock(t, _) => t < |s.recorders| && s.recorders[t].place.HoldsBoth?
    case WriteAndUnlock(t) => t < |s.recorders| && s.recorders[t].place.Owes?
    case ReaderLocks => s.mu.Free?
    case ReaderUnlocks => s.mu.ByReader?
  }

  function Move(s: State, t: nat, p: Place): State
    requires t < |s.recorders|
  {
    s.(recorders := s.recorders[t := s.recorders[t].(place := p)])
  }

  function EntryOf(entries: map<string, Entry>, kind: string): Option<Entry> {
    if kind in entries then Some(entries[kind]) else None
  }

  function Next(s: State, a: Action): State
    requires Enabled(s, a)
  {
    match a
    case Arrive(kind, status, critical, observedAt) =>
      s.(recorders := s.recorders + [Recorder(kind, status, critical, observedAt, Idle)])
    case LockLine(t) => Move(s, t, HoldsLine).(lineMu := Some(t))
    case LockEntries(t) => Move(s, t, HoldsBoth).(mu := ByRecorder(t))
    case CommitAndUnlock(t, now) =>
      var r := s.recorders[t];
      var c := Commit(r.status, r.critical, r.observedAt, now);
      var previous := EntryOf(s.entries, r.kind);
      var entry := Committed(previous, c);
      var owed := Owed(t, r.kind, |CommitsOf(s, r.kind)|, LineOf(previous, c));
      Move(s, t, Owes(owed)).(mu := Free, committed := s.committed + [owed],
                              commits := s.commits[r.kind := CommitsOf(s, r.kind) + [c]],
                              entries := if entry.Some? then s.entries[r.kind := entry.value] else s.entries)
    case WriteAndUnlock(t) =>
      var owed := s.recorders[t].place.owed;
      Move(s, t, Finished).(lineMu := None, log := if owed.line.NoLine? then s.log else s.log + [owed])
    case ReaderLocks => s.(mu := ByReader)
    case ReaderUnlocks => s.(mu := Free)
  }

  /** The lines the commits so far owe, in commit order. */
  function Lines(committed: seq<Owed>): seq<Owed> {
    if committed == [] then []
    else
      var last := committed[|committed| - 1];
      Lines(committed[..|committed| - 1]) + (if last.line.NoLine? then [] else [last])
  }

  /** The line the holder of the line lock has decided but not written yet. */
  function Pending(s: State): seq<Owed> {
    if s.lineMu.Some? && s.lineMu.value < |s.recorders| && s.recorders[s.lineMu.value].place.Owes?
       && !s.recorders[s.lineMu.value].place.owed.line.NoLine?
    then [s.recorders[s.lineMu.value].place.owed]
    else []
  }

  predicate Inside(p: Place) {
    p.HoldsLine? || p.HoldsBoth? || p.Owes?
  }

  /** Each lock is held by the recorder whose place says so, and by no other. */
  ghost predicate LocksOk(s: State) {
    && (s.lineMu.Some? ==> s.lineMu.value < |s.recorders|)
    && (forall t | 0 <= t < |s.recorders| :: Inside(s.recorders[t].place) <==> s.lineMu == Some(t))
    && (forall t | 0 <= t < |s.recorders| :: s.recorders[t].place.HoldsBoth? <==> s.mu == ByRecorder(t))
    && (s.mu.ByRecorder? ==> s.mu.t < |s.recorders|)
  }

  /** Nothing decided is lost: it is in the log, or the holder of the line lock is about to write it. */
  ghost predicate LinesOk(s: State) {
    Lines(s.committed) == s.log + Pending(s)
  }

  ghost predicate Inv(s: State) {
    LocksOk(s) && LinesOk(s)
  }

  const INIT := State(map[], None, Free, [], map[], [], [])

  lemma StepKeepsInv(s: State, a: Action)
    requires Inv(s) && Enabled(s, a)
    ensures Inv(Next(s, a))
  {
    StepKeepsLocks(s, a);
    if a.CommitAndUnlock? {
      CommitKeepsLines(s, a.t, a.now);
    } else if a.WriteAndUnlock? {
      WriteKeepsLines(s, a.t);
    } else {
      OtherStepsKeepLines(s, a);
    }
  }

  lemma StepKeepsLocks(s: State, a: Action)
    requires LocksOk(s) && Enabled(s, a)
    ensures LocksOk(Next(s, a))
  {
  }

  lemma LinesAppend(committed: seq<Owed>, o: Owed)
    ensures Lines(committed + [o]) == Lines(committed) + (if o.line.NoLine? then [] else [o])
  {
    var all := committed + [o];
    assert all[..|all| - 1] == committed;
  }

  lemma CommitKeepsLines(s: State, r: nat, now: int)
    requires LocksOk(s) && LinesOk(s) && Enabled(s, CommitAndUnlock(r, now))
    ensures LinesOk(Next(s, CommitAndUnlock(r, now)))
  {
    var t := Next(s, CommitAndUnlock(r, now));
    assert s.lineMu == Some(r) && Pending(s) == [];
    var owed := t.recorders[r].place.owed;
    assert t.committed == s.committed + [owed];
    LinesAppend(s.committed, owed);
  }

  lemma WriteKeepsLines(s: State, r: nat)
    requires LocksOk(s) && LinesOk(s) && Enabled(s, WriteAndUnlock(r))
    ensures LinesOk(Next(s, WriteAndUnlock(r)))
  {
    assert s.lineMu == Some(r);
    assert Next(s, WriteAndUnlock(r)).log == s.log + Pending(s);
  }

  lemma OtherStepsKeepLines(s: State, a: Action)
    requires LocksOk(s) && LinesOk(s) && Enabled(s, a) && !a.CommitAndUnlock? && !a.WriteAndUnlock?
    ensures LinesOk(Next(s, a))
  {
    assert Pending(Next(s, a)) == Pending(s);
  }

  ghost predicate IsRun(s: State, run: seq<Action>)
    decreases |run|
  {
    run == [] || (Enabled(s, run[0]) && IsRun(Next(s, run[0]), run[1..]))
  }

  ghost function AfterRun(s: State, run: seq<Action>): State
    requires IsRun(s, run)
    decreases |run|
  {
    if run == [] then s else AfterRun(Next(s, run[0]), run[1..])
  }

  lemma {:induction false} RunKeepsInv(s: State, run: seq<Action>)
    requires Inv(s) && IsRun(s, run)
    ensures Inv(AfterRun(s, run))
    decreases |run|
  {
    if run != [] {
      StepKeepsInv(s, run[0]);
      RunKeepsInv(Next(s, run[0]), run[1..]);
    }
  }

  /** In every interleaving the log is the commits' lines in commit order, at most the last one still unwritten;
      and the recorder about to write never holds the entries' lock, so no reader queues behind a log write. */
  lemma LinesComeOutInCommitOrder(run: seq<Action>)
    requires IsRun(INIT, run)
    ensures var s := AfterRun(INIT, run);
            && s.log <= Lines(s.committed) && |Lines(s.committed)| <= |s.log| + 1
            && (s.lineMu.None? ==> s.log == Lines(s.committed))
            && (forall t | 0 <= t < |s.recorders| && s.recorders[t].place.Owes? :: s.mu != ByRecorder(t))
  {
    RunKeepsInv(INIT, run);
  }

  // ----- what the log of a run says about one kind

  /** The entries are what the kinds' commits, in commit order, lead to. */
  ghost predicate EntryFollows(s: State, kind: string) {
    EntryOf(s.entries, kind) == After(CommitsOf(s, kind), |CommitsOf(s, kind)|)
  }

  ghost predicate OwedFollows(s: State, o: Owed) {
    o.n < |CommitsOf(s, o.kind)| && o.line == LineAt(CommitsOf(s, o.kind), o.n)
  }

  /** Lines of one kind stand in the order of its commits. */
  ghost predicate InOrder(lines: seq<Owed>) {
    forall i, j | 0 <= i < j < |lines| && lines[i].kind == lines[j].kind :: lines[i].n < lines[j].n
  }

  ghost predicate Decided(lines: seq<Owed>, kind: string, n: nat) {
    exists i :: 0 <= i < |lines| && lines[i].kind == kind && lines[i].n == n
  }

  ghost predicate HistoryInv(s: State) {
    && (forall kind :: EntryFollows(s, kind))
    && (forall i | 0 <= i < |s.committed| :: OwedFollows(s, s.committed[i]))
    && InOrder(s.committed)
    && (forall kind, n | 0 <= n < |CommitsOf(s, kind)| :: Decided(s.committed, kind, n))
  }

  lemma {:induction false} AfterOfMore(cs: seq<Commit>, c: Commit, n: nat)
    requires n <= |cs|
    ensures After(cs + [c], n) == After(cs, n)
    ensures n < |cs| ==> LineAt(cs + [c], n) == LineAt(cs, n)
  {
    if n > 0 {
      AfterOfMore(cs, c, n - 1);
    }
  }

  lemma StepKeepsHistory(s: State, a: Action)
    requires HistoryInv(s) && Enabled(s, a)
    ensures HistoryInv(Next(s, a))
  {
    var t := Next(s, a);
    if a.CommitAndUnlock? {
      CommitKeepsHistory(s, a.t, a.now);
    } else {
      assert t.commits == s.commits && t.committed == s.committed && t.entries == s.entries;
      forall kind ensures EntryFollows(t, kind) {
        assert EntryFollows(s, kind);
      }
      forall i | 0 <= i < |t.committed| ensures OwedFollows(t, t.committed[i]) {
        assert OwedFollows(s, s.committed[i]);
      }
      forall kind, n | 0 <= n < |CommitsOf(t, kind)| ensures Decided(t.committed, kind, n) {
        assert Decided(s.committed, kind, n);
      }
    }
  }

  lemma CommitKeepsHistory(s: State, r: nat, now: int)
    requires HistoryInv(s) && Enabled(s, CommitAndUnlock(r, now))
    ensures HistoryInv(Next(s, CommitAndUnlock(r, now)))
  {
    var t, me := Next(s, CommitAndUnlock(r, now)), s.recorders[r];
    var cs, c := CommitsOf(s, me.kind), Commit(me.status, me.critical, me.observedAt, now);
    assert CommitsOf(t, me.kind) == cs + [c];
    forall kind ensures EntryFollows(t, kind) {
      assert EntryFollows(s, kind);
      AfterOfMore(cs, c, |cs|);
    }
    forall i | 0 <= i < |t.committed| ensures OwedFollows(t, t.committed[i]) {
      AfterOfMore(cs, c, |cs|);
      if i < |s.committed| {
        assert OwedFollows(s, s.committed[i]);
        if s.committed[i].kind == me.kind {
          AfterOfMore(cs, c, s.committed[i].n);
        }
      } else {
        assert EntryFollows(s, me.kind);
      }
    }
    assert InOrder(t.committed) by {
      assert forall i | 0 <= i < |s.committed| :: OwedFollows(s, s.committed[i]);
    }
    forall kind, n | 0 <= n < |CommitsOf(t, kind)| ensures Decided(t.committed, kind, n) {
      if n < |CommitsOf(s, kind)| {
        assert Decided(s.committed, kind, n);
        var i :| 0 <= i < |s.committed| && s.committed[i].kind == kind && s.committed[i].n == n;
        assert t.committed[i] == s.committed[i];
      } else {
        assert t.committed[|s.committed|].n == n;
      }
    }
  }

  /** The entries are what each kind's commits lead to, so the ordering results hold of the store in every run. */
  lemma {:induction false} RunKeepsHistory(s: State, run: seq<Action>)
    requires HistoryInv(s) && IsRun(s, run)
    ensures HistoryInv(AfterRun(s, run))
    decreases |run|
  {
    if run != [] {
      StepKeepsHistory(s, run[0]);
      RunKeepsHistory(Next(s, run[0]), run[1..]);
    }
  }

  lemma {:induction false} LinesKeepOrder(committed: seq<Owed>, o: Owed)
    ensures o in Lines(committed) <==> o in committed && !o.line.NoLine?
    ensures InOrder(committed) ==> InOrder(Lines(committed))
  {
    if committed != [] {
      var front, last := committed[..|committed| - 1], committed[|committed| - 1];
      assert committed == front + [last];
      LinesKeepOrder(front, o);
      if InOrder(committed) {
        forall i | 0 <= i < |Lines(front)| && Lines(front)[i].kind == last.kind ensures Lines(front)[i].n < last.n {
          LinesKeepOrder(front, Lines(front)[i]);
        }
      }
    }
  }

  /** The log of a run: its lines are what the kinds' commits owe, in their order. */
  lemma LogFollows(run: seq<Action>)
    requires IsRun(INIT, run)
    ensures var s := AfterRun(INIT, run);
            && HistoryInv(s) && InOrder(s.log) && s.log <= Lines(s.committed) && InOrder(Lines(s.committed))
            && (forall i | 0 <= i < |s.log| :: OwedFollows(s, s.log[i]) && !s.log[i].line.NoLine?)
  {
    var s := AfterRun(INIT, run);
    RunKeepsInv(INIT, run);
    RunKeepsHistory(INIT, run);
    var lines := Lines(s.committed);
    assert lines == s.log + Pending(s);
    forall o ensures o in lines <==> o in s.committed && !o.line.NoLine? {
      LinesKeepOrder(s.committed, o);
    }
    assert InOrder(lines) by {
      LinesKeepOrder(s.committed, Owed(0, "", 0, NoLine));
    }
    forall i, j | 0 <= i < j < |s.log| && s.log[i].kind == s.log[j].kind ensures s.log[i].n < s.log[j].n {
      assert lines[i] == s.log[i] && lines[j] == s.log[j];
    }
    forall i | 0 <= i < |s.log| ensures OwedFollows(s, s.log[i]) && !s.log[i].line.NoLine? {
      assert lines[i] == s.log[i] && lines[i] in lines;
    }
  }

  /** In the log of every run, the warnings of one unhealthy streak of a kind are at least the interval apart. */
  lemma LoggedWarningsAreSpaced(run: seq<Action>, a: nat, b: nat)
    requires IsRun(INIT, run) && a < b < |AfterRun(INIT, run).log|
    requires var s := AfterRun(INIT, run);
             && s.log[a].kind == s.log[b].kind && s.log[a].line.UnhealthyLine? && s.log[b].line.UnhealthyLine?
             && var cs := CommitsOf(s, s.log[a].kind);
             Reported(cs) && forall k | s.log[a].n < k <= s.log[b].n && k <= |cs| :: Fails(After(cs, k))
    ensures var s := AfterRun(INIT, run);
            var cs := CommitsOf(s, s.log[a].kind);
            && s.log[a].n < s.log[b].n < |cs|
            && cs[s.log[b].n].now - cs[s.log[a].n].now >= WARN_INTERVAL
  {
    var s := AfterRun(INIT, run);
    LogFollows(run);
    assert OwedFollows(s, s.log[a]) && OwedFollows(s, s.log[b]);
    WarningsAreSpaced(CommitsOf(s, s.log[a].kind), s.log[a].n, s.log[b].n);
  }

  /** In the log of every run, each recovery of a kind stands after a warning of it, with no other recovery between. */
  lemma LoggedRecoveryAnswersWarning(run: seq<Action>, b: nat) returns (a: nat)
    requires IsRun(INIT, run) && b < |AfterRun(INIT, run).log|
    requires var s := AfterRun(INIT, run); s.log[b].line.RecoveredLine? && Reported(CommitsOf(s, s.log[b].kind))
    ensures var log := AfterRun(INIT, run).log;
            && a < b && log[a].kind == log[b].kind && log[a].line.UnhealthyLine?
            && forall k | a < k < b && log[k].kind == log[b].kind :: !log[k].line.RecoveredLine?
  {
    var s := AfterRun(INIT, run);
    var log, kind := s.log, s.log[b].kind;
    var cs := CommitsOf(s, kind);
    LogFollows(run);
    assert OwedFollows(s, log[b]);
    var n := RecoveryAnswersWarning(cs, log[b].n);
    a := LogPosition(run, b, n);
    forall k | a < k < b && log[k].kind == kind ensures !log[k].line.RecoveredLine? {
      assert OwedFollows(s, log[k]) && log[a].n < log[k].n < log[b].n;
    }
  }

  /** A line owed by an earlier commit of a logged line's kind stands before it in the log. */
  lemma LogPosition(run: seq<Action>, b: nat, n: nat) returns (a: nat)
    requires IsRun(INIT, run) && b < |AfterRun(INIT, run).log|
    requires var s := AfterRun(INIT, run); n < s.log[b].n < |CommitsOf(s, s.log[b].kind)|
    requires var s := AfterRun(INIT, run); !LineAt(CommitsOf(s, s.log[b].kind), n).NoLine?
    ensures var log := AfterRun(INIT, run).log; a < b && log[a].kind == log[b].kind && log[a].n == n
    ensures var s := AfterRun(INIT, run); s.log[a].line == LineAt(CommitsOf(s, s.log[b].kind), n)
  {
    var s := AfterRun(INIT, run);
    var log, kind := s.log, s.log[b].kind;
    LogFollows(run);
    assert Decided(s.committed, kind, n);
    var i :| 0 <= i < |s.committed| && s.committed[i].kind == kind && s.committed[i].n == n;
    assert OwedFollows(s, s.committed[i]);
    LinesKeepOrder(s.committed, s.committed[i]);
    var lines := Lines(s.committed);
    a :| 0 <= a < |lines| && lines[a] == s.committed[i];
    assert lines[b] == log[b];
  }

  // ----- told by what was recorded

  lemma StepKeepsReports(s: State, a: Action, t: nat)
    requires Enabled(s, a) && t < |s.recorders|
    ensures t < |Next(s, a).recorders|
    ensures var r, u := s.recorders[t], Next(s, a).recorders[t];
            u.kind == r.kind && u.status == r.status && u.critical == r.critical && u.observedAt == r.observedAt
  {
  }

  /** A commit stores the recorder's report, at the clock of the commit, in its kind's history and no other's. */
  lemma CommitStoresReport(s: State, t: nat, now: int, kind: string)
    requires Enabled(s, CommitAndUnlock(t, now))
    ensures var r, u := s.recorders[t], Next(s, CommitAndUnlock(t, now));
            CommitsOf(u, kind) == CommitsOf(s, kind) +
              if kind == r.kind then [Commit(r.status, r.critical, r.observedAt, now)] else []
  {
  }

  lemma OtherStepsStoreNothing(s: State, a: Action, kind: string)
    requires Enabled(s, a) && !a.CommitAndUnlock?
    ensures CommitsOf(Next(s, a), kind) == CommitsOf(s, kind)
  {
  }

  /** What a recorder was called with is what it reports, whatever runs in between. */
  lemma {:induction false} ReportStays(s: State, run: seq<Action>, t: nat)
    requires IsRun(s, run) && t < |s.recorders|
    ensures t < |AfterRun(s, run).recorders|
    ensures var r, u := s.recorders[t], AfterRun(s, run).recorders[t];
            u.kind == r.kind && u.status == r.status && u.critical == r.critical && u.observedAt == r.observedAt
    decreases |run|
  {
    if run != [] {
      StepKeepsReports(s, run[0], t);
      ReportStays(Next(s, run[0]), run[1..], t);
    }
  }

  /** A call's verdict reaches its kind's history as it was given: recorder `t` arrives, anything runs, it commits. */
  lemma ReportIsCommitted(s: State, kind: string, status: Status, critical: bool, observedAt: int, run: seq<Action>,
                          now: int)
    requires IsRun(Next(s, Arrive(kind, status, critical, observedAt)), run)
    requires Enabled(AfterRun(Next(s, Arrive(kind, status, critical, observedAt)), run),
                     CommitAndUnlock(|s.recorders|, now))
    ensures var u := AfterRun(Next(s, Arrive(kind, status, critical, observedAt)), run);
            CommitsOf(Next(u, CommitAndUnlock(|s.recorders|, now)), kind) ==
              CommitsOf(u, kind) + [Commit(status, critical, observedAt, now)]
  {
    var arrived := Next(s, Arrive(kind, status, critical, observedAt));
    ReportStays(arrived, run, |s.recorders|);
    CommitStoresReport(AfterRun(arrived, run), |s.recorders|, now, kind);
  }
}
