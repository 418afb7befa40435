/**
 Startup and the serve-error channel. Slots start in order and a fatal one unwinds those already up; once serving,
 two senders report on one two-slot channel that the shutdown path drains, and no serve failure may be lost.
 */
module Lifecycle {
  import opened Options

  // ----- starting the slots

  /** What one slot's start phase reports. */
  datatype Start = Start(advisory: Option<nat>, fatal: Option<nat>)

  datatype Event = Started(slot: nat) | Sealed(slot: nat) | Stopped(slot: nat)

  /** The first slot whose start is fatal, or the number of slots. */
  function FirstFatal(slots: seq<Start>): (k: nat)
    ensures k <= |slots|
    ensures forall i | 0 <= i < k :: slots[i].fatal.None?
    ensures k < |slots| ==> slots[k].fatal.Some?
  {
    if slots == [] || slots[0].fatal.Some? then 0 else 1 + FirstFatal(slots[1..])
  }

  function StartAndSeal(n: nat): seq<Event> {
    if n == 0 then [] else StartAndSeal(n - 1) + [Started(n - 1), Sealed(n - 1)]
  }

  function StopFirst(n: nat): seq<Event> {
    if n == 0 then [] else StopFirst(n - 1) + [Stopped(n - 1)]
  }

  function Advisories(slots: seq<Start>): seq<nat> {
    if slots == [] then []
    else
      var last := slots[|slots| - 1];
      Advisories(slots[..|slots| - 1]) + (if last.advisory.Some? then [last.advisory.value] else [])
  }

  /** Slots are started and sealed once each, slot by slot. */
  lemma {:induction false} StartAndSealIs(n: nat, i: nat)
    ensures |StartAndSeal(n)| == 2 * n
    ensures i < n ==> StartAndSeal(n)[2 * i] == Started(i) && StartAndSeal(n)[2 * i + 1] == Sealed(i)
  {
    if n > 0 {
      StartAndSealIs(n - 1, if i < n - 1 then i else 0);
    }
  }

  /** Slots are stopped once each, in order. */
  lemma {:induction false} StopFirstIs(n: nat, i: nat)
    ensures |StopFirst(n)| == n
    ensures i < n ==> StopFirst(n)[i] == Stopped(i)
  {
    if n > 0 {
      StopFirstIs(n - 1, if i < n - 1 then i else 0);
    }
  }

  lemma {:induction false} StartAndSealHolds(n: nat, i: nat)
    ensures Started(i) in StartAndSeal(n) <==> i < n
    ensures Sealed(i) in StartAndSeal(n) <==> i < n
    ensures Stopped(i) !in StartAndSeal(n)
  {
    if n > 0 {
      StartAndSealHolds(n - 1, i);
    }
  }

  lemma {:induction false} StopFirstHolds(n: nat, i: nat)
    ensures Stopped(i) in StopFirst(n) <==> i < n
    ensures Started(i) !in StopFirst(n) && Sealed(i) !in StopFirst(n)
  {
    if n > 0 {
      StopFirstHolds(n - 1, i);
    }
  }

  /** What a start does to the slots: without a fatal one all are started and sealed; a fatal start at `k` is the last,
      and exactly the slots before it were sealed and are then stopped, in order. */
  function StartTrace(slots: seq<Start>): seq<Event> {
    var k := FirstFatal(slots);
    StartAndSeal(k) + (if k < |slots| then [Started(k)] + StopFirst(k) else [])
  }

  lemma StartTraceHolds(slots: seq<Start>, i: nat)
    ensures var k, trace := FirstFatal(slots), StartTrace(slots);
            && (Started(i) in trace <==> i < |slots| && i <= k)
            && (Sealed(i) in trace <==> i < k)
            && (Stopped(i) in trace <==> k < |slots| && i < k)
            && |trace| == if k < |slots| then 3 * k + 1 else 2 * k
  {
    var k := FirstFatal(slots);
    StartAndSealHolds(k, i);
    StopFirstHolds(k, i);
    StartAndSealIs(k, 0);
    StopFirstIs(k, 0);
  }

  /** Every slot's advisory is reported when no start is fatal, and nothing else. */
  lemma {:induction false} AdvisoriesAre(slots: seq<Start>, v: nat)
    ensures v in Advisories(slots) <==> exists i :: 0 <= i < |slots| && slots[i].advisory == Some(v)
  {
    if slots != [] {
      var front := slots[..|slots| - 1];
      AdvisoriesAre(front, v);
      assert forall i | 0 <= i < |front| :: slots[i] == front[i];
      if i :| 0 <= i < |slots| && slots[i].advisory == Some(v) {
        assert i < |front| ==> front[i].advisory == Some(v);
      }
    }
  }

  class App {
    var started: bool
    var events: seq<Event>

    /** Starts and seals every slot in order. A fatal start at slot k stops exactly the slots before it, in order,
        and leaves the judge unstarted; otherwise the judge is started, and only then. */
    method StartSlots(slots: seq<Start>) returns (fatal: Option<nat>, advisories: seq<nat>)
      modifies this
      ensures var k := FirstFatal(slots);
              && started == (old(started) || k == |slots|)
              && fatal == (if k < |slots| then slots[k].fatal else None)
              && advisories == (if k < |slots| then [] else Advisories(slots))
              && events == old(events) + StartTrace(slots)
    {
      advisories := [];
      var up := 0;
      for i := 0 to |slots|
        invariant up == i <= FirstFatal(slots)
        invariant started == old(started)
        invariant events == old(events) + StartAndSeal(i)
        invariant advisories == Advisories(slots[..i])
      {
        events := events + [Started(i)];
        if slots[i].fatal.Some? {
          StopEach(up);
          return slots[i].fatal, [];
        }
        events := events + [Sealed(i)];
        up := up + 1;
        assert slots[..i + 1][..i] == slots[..i];
        if slots[i].advisory.Some? {
          advisories := advisories + [slots[i].advisory.value];
        }
      }
      assert slots[..|slots|] == slots;
      started := true;
      return None, advisories;
    }

    method StopEach(n: nat)
      modifies this`events
      ensures events == old(events) + StopFirst(n)
    {
      for i := 0 to n
        invariant events == old(events) + StopFirst(i)
      {
        events := events + [Stopped(i)];
      }
    }
  }

  // ----- the channel

  /** A listener's result: nil after a graceful stop, the closed sentinel, or a failure. */
  datatype Result = Nil | ServerClosed | Failure(n: nat)

  predicate IsServeFailure(r: Result) {
    r.Failure?
  }

  function Failures(rs: seq<Result>): seq<Result> {
    if rs == [] then []
    else
      var last := rs[|rs| - 1];
      Failures(rs[..|rs| - 1]) + (if IsServeFailure(last) then [last] else [])
  }

  /** What Run is doing. `woken` is the result that ended its wait, if one did; `failures` is the drain so far. */
  datatype Place =
    | Serving
    | ShuttingDown(woken: Option<Result>)
    | Draining(woken: Option<Result>, failures: seq<Result>)
    | Finished(sawClose: bool, joined: seq<Result>)
    | TimedOut

  /** `serverResult` is what the server goroutine's Start returned and `probeFailure` the first serve failure the
      forwarder took from the probe listener; each is sent afterwards. `sent` and `received` are history, in channel
      order. */
  datatype State = State(buffer: seq<Result>, closed: bool, serverResult: Option<Result>, serverDone: bool,
                         probeFailure: Option<Result>, probeSent: bool, probeDone: bool,
                         run: Place, sent: seq<Result>, received: seq<Result>)

  datatype Action =
    | ServerReturns(r: Result)
    | ServerSends
    | ProbeReports(r: Result)
    | ProbeSends
    | ProbeErrorsClose
    | CloseChannel
    | Signal
    | Wake
    | ShutdownCompletes
    | ShutdownTimesOut
    | DrainReceives
    | DrainSeesClose
    | DrainTimesOut

  const CAPACITY := 2

  /** `probeDone` holds from the start when the server has no probe listener. */
  function Init(hasProbe: bool): State {
    State([], false, None, false, None, false, !hasProbe, Serving, [], [])
  }

  predicate Sends(a: Action) {
    a.ServerSends? || a.ProbeSends?
  }

  /** The forwarder is at its receive, with nothing left to send. */
  predicate ProbeListens(s: State) {
    !s.probeDone && (s.probeFailure.Some? ==> s.probeSent)
  }

  /** The step's own goroutine has reached it, the channel aside. */
  predicate Ready(s: State, a: Action) {
    match a
    case ServerReturns(_) => s.serverResult.None?
    case ServerSends => s.serverResult.Some? && !s.serverDone
    case ProbeReports(_) => ProbeListens(s)
    case ProbeSends => s.probeFailure.Some? && !s.probeSent
    case ProbeErrorsClose => ProbeListens(s)
    case CloseChannel => s.serverDone && s.probeDone && !s.closed
    case Signal => s.run.Serving?
    case Wake => s.run.Serving? && (s.buffer != [] || s.closed)
    case ShutdownCompletes => s.run.ShuttingDown?
    case ShutdownTimesOut => s.run.ShuttingDown?
    case DrainReceives => s.run.Draining? && s.buffer != []
    case DrainSeesClose => s.run.Draining? && s.buffer == [] && s.closed
    case DrainTimesOut => s.run.Draining?
  }

  /** A send on a full channel blocks; a send on a closed one would panic. */
  predicate Enabled(s: State, a: Action) {
    Ready(s, a) && (Sends(a) ==> |s.buffer| < CAPACITY && !s.closed)
  }

  function Put(s: State, r: Result): State {
    s.(buffer := s.buffer + [r], sent := s.sent + [r])
  }

  function Take(s: State, next: Place): State
    requires s.buffer != []
  {
    s.(buffer := s.buffer[1..], received := s.received + [s.buffer[0]], run := next)
  }

  function Woken(w: Option<Result>): seq<Result> {
    if w.Some? && IsServeFailure(w.value) then [w.value] else []
  }

  function Next(s: State, a: Action): State
    requires Enabled(s, a)
  {
    match a
    case ServerReturns(r) => s.(serverResult := Some(r))
    case ServerSends => Put(s, s.serverResult.value).(serverDone := true)
    case ProbeReports(r) =>
      if IsServeFailure(r) && s.probeFailure.None? then s.(probeFailure := Some(r)) else s
    case ProbeSends => Put(s, s.probeFailure.value).(probeSent := true)
    case ProbeErrorsClose => s.(probeDone := true)
    case CloseChannel => s.(closed := true)
    case Signal => s.(run := ShuttingDown(None))
    case Wake =>
      if s.buffer != [] then Take(s, ShuttingDown(Some(s.buffer[0]))) else s.(run := ShuttingDown(None))
    case ShutdownCompletes => s.(run := Draining(s.run.woken, []))
    case ShutdownTimesOut => s.(run := TimedOut)
    case DrainReceives =>
      var r := s.buffer[0];
      Take(s, Draining(s.run.woken, if IsServeFailure(r) then s.run.failures + [r] else s.run.failures))
    case DrainSeesClose => s.(run := Finished(true, Woken(s.run.woken) + s.run.failures))
    case DrainTimesOut => s.(run := Finished(false, Woken(s.run.woken) + s.run.failures))
  }

  /** The failures Run has taken off the channel so far. */
  function Collected(p: Place): seq<Result> {
    match p
    case Serving => []
    case ShuttingDown(w) => Woken(w)
    case Draining(w, fs) => Woken(w) + fs
    case Finished(_, joined) => joined
    case TimedOut => []
  }

  /** The serve failures the two listeners have produced, the server's own and the probe listener's first, in either
      order. */
  function ServerFirst(s: State): seq<Result> {
    Woken(s.serverResult) + Woken(s.probeFailure)
  }

  function ProbeFirst(s: State): seq<Result> {
    Woken(s.probeFailure) + Woken(s.serverResult)
  }

  /** A sender has sent only what its listener produced, and finishes only once it has. */
  ghost predicate SendersOk(s: State) {
    && (s.serverDone ==> s.serverResult.Some?)
    && (s.probeSent ==> s.probeFailure.Some?)
    && (s.probeDone && s.probeFailure.Some? ==> s.probeSent)
    && (s.closed ==> s.serverDone && s.probeDone)
  }

  /** What is on the channel is what the senders put there, each once, in some order. */
  ghost predicate SentOk(s: State)
    requires SendersOk(s)
  {
    if s.serverDone && s.probeSent then
      s.sent == [s.serverResult.value, s.probeFailure.value] || s.sent == [s.probeFailure.value, s.serverResult.value]
    else if s.serverDone then s.sent == [s.serverResult.value]
    else if s.probeSent then s.sent == [s.probeFailure.value]
    else s.sent == []
  }

  /** Conservation on the channel: what was sent is what was received and what is still buffered. */
  ghost predicate ChannelOk(s: State)
    requires SendersOk(s)
  {
    s.sent == s.received + s.buffer && SentOk(s)
  }

  /** Run holds exactly the failures it has taken off the channel. */
  ghost predicate RunOk(s: State) {
    && (s.run.Serving? ==> s.received == [])
    && (!s.run.TimedOut? ==> Collected(s.run) == Failures(s.received))
    && (s.run.Finished? && s.run.sawClose ==> s.buffer == [] && s.closed)
  }

  ghost predicate Inv(s: State) {
    SendersOk(s) && ChannelOk(s) && RunOk(s)
  }

  lemma FailuresAppend(rs: seq<Result>, r: Result)
    ensures Failures(rs + [r]) == Failures(rs) + (if IsServeFailure(r) then [r] else [])
  {
    assert (rs + [r])[..|rs|] == rs;
  }

  lemma FailuresOfOne(a: Result)
    ensures Failures([a]) == Woken(Some(a))
  {
    FailuresAppend([], a);
    assert [] + [a] == [a];
  }

  lemma FailuresOfTwo(a: Result, b: Result)
    ensures Failures([a, b]) == Woken(Some(a)) + Woken(Some(b))
  {
    FailuresOfOne(a);
    FailuresAppend([a], b);
    assert [a] + [b] == [a, b];
  }

  lemma PutConserves(s: State, r: Result)
    requires s.sent == s.received + s.buffer
    ensures var t := Put(s, r); t.sent == t.received + t.buffer
  {
    assert s.received + (s.buffer + [r]) == (s.received + s.buffer) + [r];
  }

  lemma TakeConserves(s: State, next: Place)
    requires s.sent == s.received + s.buffer && s.buffer != []
    ensures var t := Take(s, next); t.sent == t.received + t.buffer
  {
    assert s.received + s.buffer == (s.received + [s.buffer[0]]) + s.buffer[1..];
  }

  /** Only the two sends and Run's two receives touch what the channel carries. */
  predicate TouchesChannel(a: Action) {
    Sends(a) || a.Wake? || a.DrainReceives?
  }

  lemma OtherStepsLeaveChannel(s: State, a: Action)
    requires SendersOk(s) && Enabled(s, a) && !TouchesChannel(a)
    ensures var t := Next(s, a);
            && t.sent == s.sent && t.received == s.received && t.buffer == s.buffer
            && t.serverDone == s.serverDone && t.probeSent == s.probeSent
            && (s.serverDone ==> t.serverResult == s.serverResult) && (s.probeSent ==> t.probeFailure == s.probeFailure)
  {
  }

  lemma StepKeepsSenders(s: State, a: Action)
    requires SendersOk(s) && Enabled(s, a)
    ensures SendersOk(Next(s, a))
  {
  }

  lemma StepKeepsChannel(s: State, a: Action)
    requires SendersOk(s) && ChannelOk(s) && Enabled(s, a)
    ensures SendersOk(Next(s, a)) && ChannelOk(Next(s, a))
  {
    StepKeepsSenders(s, a);
    if a.Wake? || a.DrainReceives? {
      ReceiveKeepsChannel(s, a);
    } else if Sends(a) {
      SendKeepsChannel(s, a);
    } else {
      OtherStepsLeaveChannel(s, a);
    }
  }

  lemma SendKeepsChannel(s: State, a: Action)
    requires SendersOk(s) && ChannelOk(s) && Enabled(s, a) && Sends(a) && SendersOk(Next(s, a))
    ensures ChannelOk(Next(s, a))
  {
    var r := if a.ServerSends? then s.serverResult.value else s.probeFailure.value;
    PutConserves(s, r);
  }

  lemma ReceiveKeepsChannel(s: State, a: Action)
    requires SendersOk(s) && ChannelOk(s) && Enabled(s, a) && (a.Wake? || a.DrainReceives?) && SendersOk(Next(s, a))
    ensures ChannelOk(Next(s, a))
  {
    if s.buffer != [] {
      TakeConserves(s, Next(s, a).run);
      assert Next(s, a) == Take(s, Next(s, a).run);
    }
  }

  lemma StepKeepsRun(s: State, a: Action)
    requires RunOk(s) && SendersOk(s) && ChannelOk(s) && Enabled(s, a)
    ensures RunOk(Next(s, a))
  {
    if a.DrainReceives? {
      DrainKeepsRun(s);
    } else if a.Wake? {
      WakeKeepsRun(s);
    } else if Sends(a) {
      assert Next(s, a).run == s.run && Next(s, a).received == s.received;
    } else {
      OtherStepsLeaveChannel(s, a);
      OtherStepsKeepRun(s, a);
    }
  }

  lemma OtherStepsKeepRun(s: State, a: Action)
    requires RunOk(s) && Enabled(s, a) && !TouchesChannel(a)
    ensures RunOk(Next(s, a))
  {
    if a.ShutdownCompletes? {
      assert Woken(s.run.woken) + [] == Woken(s.run.woken);
    }
  }

  lemma WakeKeepsRun(s: State)
    requires RunOk(s) && Enabled(s, Wake)
    ensures RunOk(Next(s, Wake))
  {
    if s.buffer != [] {
      FailuresAppend([], s.buffer[0]);
      assert [] + [s.buffer[0]] == [s.buffer[0]];
    }
  }

  lemma DrainKeepsRun(s: State)
    requires RunOk(s) && Enabled(s, DrainReceives)
    ensures RunOk(Next(s, DrainReceives))
  {
    var r := s.buffer[0];
    FailuresAppend(s.received, r);
    var kept := if IsServeFailure(r) then [r] else [];
    assert Woken(s.run.woken) + (s.run.failures + kept) == (Woken(s.run.woken) + s.run.failures) + kept;
  }

  lemma StepKeepsInv(s: State, a: Action)
    requires Inv(s) && Enabled(s, a)
    ensures Inv(Next(s, a))
  {
    StepKeepsChannel(s, a);
    StepKeepsRun(s, a);
  }

  ghost predicate IsRun(s: State, run: seq<Action>)
    decreases |run|
  {
    run == [] || (Enabled(s, run[0]) && IsRun(Next(s, run[0]), run[1..]))
  }

  ghost function AfterRun(s: State, run: seq<Action>): State
    requires IsRun(s, run)
    decreases |run|
  {
    if run == [] then s else AfterRun(Next(s, run[0]), run[1..])
  }

  lemma {:induction false} RunKeepsInv(s: State, run: seq<Action>)
    requires Inv(s) && IsRun(s, run)
    ensures Inv(AfterRun(s, run))
    decreases |run|
  {
    if run != [] {
      StepKeepsInv(s, run[0]);
      RunKeepsInv(Next(s, run[0]), run[1..]);
    }
  }

  /** In every interleaving no sender ever blocks or finds the channel closed: whatever step a goroutine has
      reached, the channel lets it through. And the channel closes only after both senders are done. */
  lemma NoSenderBlocks(hasProbe: bool, run: seq<Action>, a: Action)
    requires IsRun(Init(hasProbe), run) && Ready(AfterRun(Init(hasProbe), run), a)
    ensures Enabled(AfterRun(Init(hasProbe), run), a)
    ensures AfterRun(Init(hasProbe), run).closed ==>
              AfterRun(Init(hasProbe), run).serverDone && AfterRun(Init(hasProbe), run).probeDone
  {
    RunKeepsInv(Init(hasProbe), run);
  }

  /** If the drain sees the close, Run reports the serve failures the two listeners produced, each exactly once and in
      the order they were sent, and no clean stop; if it times out instead, it reports a prefix of them. */
  lemma NoFailureIsLost(hasProbe: bool, run: seq<Action>)
    requires IsRun(Init(hasProbe), run) && AfterRun(Init(hasProbe), run).run.Finished?
    ensures var s := AfterRun(Init(hasProbe), run);
            && s.run.joined <= Failures(s.sent)
            && (s.run.joined <= ServerFirst(s) || s.run.joined <= ProbeFirst(s))
            && (s.run.sawClose ==>
                  && s.run.joined == Failures(s.sent) && s.serverDone && s.probeDone
                  && (s.run.joined == ServerFirst(s) || s.run.joined == ProbeFirst(s)))
  {
    RunKeepsInv(Init(hasProbe), run);
    var s := AfterRun(Init(hasProbe), run);
    SentFailures(s);
    FailuresPrefix(s.received, s.buffer);
    if s.run.sawClose {
      assert s.sent == s.received;
    }
  }

  lemma SentFailures(s: State)
    requires SendersOk(s) && SentOk(s)
    ensures Failures(s.sent) <= ServerFirst(s) || Failures(s.sent) <= ProbeFirst(s)
    ensures s.serverDone && (s.probeFailure.Some? ==> s.probeSent) ==>
              Failures(s.sent) == ServerFirst(s) || Failures(s.sent) == ProbeFirst(s)
  {
    if s.serverDone {
      FailuresOfOne(s.serverResult.value);
    }
    if s.probeSent {
      FailuresOfOne(s.probeFailure.value);
    }
    if s.serverDone && s.probeSent {
      FailuresOfTwo(s.serverResult.value, s.probeFailure.value);
      FailuresOfTwo(s.probeFailure.value, s.serverResult.value);
    }
  }

  // ----- told by what the listeners did

  /** What the run's server goroutine got from Start. */
  function StartReturned(run: seq<Action>): Option<Result> {
    if run == [] then None
    else
      var before, last := StartReturned(run[..|run| - 1]), run[|run| - 1];
      if before.Some? then before else if last.ServerReturns? then Some(last.r) else None
  }

  /** The first failure the run's probe listener reported. */
  function ProbeFailed(run: seq<Action>): Option<Result> {
    if run == [] then None
    else
      var before, last := ProbeFailed(run[..|run| - 1]), run[|run| - 1];
      if before.Some? then before else if last.ProbeReports? && last.r.Failure? then Some(last.r) else None
  }

  /** The failure a listener ended with, if it is one. */
  function FailureOf(r: Option<Result>): seq<Result> {
    if r.Some? && r.value.Failure? then [r.value] else []
  }

  lemma {:induction false} RunEnds(s: State, run: seq<Action>)
    requires IsRun(s, run) && run != []
    ensures var n := |run| - 1;
            && IsRun(s, run[..n]) && Enabled(AfterRun(s, run[..n]), run[n])
            && AfterRun(s, run) == Next(AfterRun(s, run[..n]), run[n])
    decreases |run|
  {
    var n := |run| - 1;
    if n == 0 {
      assert run[..0] == [] && run[1..] == [];
    } else {
      RunEnds(Next(s, run[0]), run[1..]);
      assert run[..n][1..] == run[1..][..n - 1];
    }
  }

  lemma StepTellsServer(s: State, a: Action)
    requires Enabled(s, a)
    ensures Next(s, a).serverResult ==
            if s.serverResult.Some? then s.serverResult else if a.ServerReturns? then Some(a.r) else None
  {
  }

  lemma StepTellsProbe(s: State, a: Action)
    requires Enabled(s, a)
    ensures Next(s, a).probeFailure ==
            if s.probeFailure.Some? then s.probeFailure
            else if a.ProbeReports? && a.r.Failure? then Some(a.r) else None
  {
  }

  /** The senders hold what their listeners did, and nothing else. */
  lemma {:induction false} SendersHold(hasProbe: bool, run: seq<Action>)
    requires IsRun(Init(hasProbe), run)
    ensures AfterRun(Init(hasProbe), run).serverResult == StartReturned(run)
    ensures AfterRun(Init(hasProbe), run).probeFailure == ProbeFailed(run)
    decreases |run|
  {
    if run != [] {
      var front, last := run[..|run| - 1], run[|run| - 1];
      RunEnds(Init(hasProbe), run);
      SendersHold(hasProbe, front);
      StepTellsServer(AfterRun(Init(hasProbe), front), last);
      StepTellsProbe(AfterRun(Init(hasProbe), front), last);
    }
  }

  /** If the drain sees the close, Run reports exactly the failure Start returned and the first failure the probe
      listener reported, each once and in either order; if it times out, a prefix of those. */
  lemma RunReportsFailures(hasProbe: bool, run: seq<Action>)
    requires IsRun(Init(hasProbe), run) && AfterRun(Init(hasProbe), run).run.Finished?
    ensures var end := AfterRun(Init(hasProbe), run).run;
            var server, probe := FailureOf(StartReturned(run)), FailureOf(ProbeFailed(run));
            && (end.joined <= server + probe || end.joined <= probe + server)
            && (end.sawClose ==> StartReturned(run).Some?)
            && (end.sawClose ==> end.joined == server + probe || end.joined == probe + server)
  {
    NoFailureIsLost(hasProbe, run);
    SendersHold(hasProbe, run);
    RunKeepsInv(Init(hasProbe), run);
  }

  lemma {:induction false} FailuresPrefix(a: seq<Result>, b: seq<Result>)
    ensures Failures(a) <= Failures(a + b)
  {
    if b == [] {
      assert a + b == a;
    } else {
      FailuresPrefix(a, b[..|b| - 1]);
      assert a + b == (a + b[..|b| - 1]) + [b[|b| - 1]];
      FailuresAppend(a + b[..|b| - 1], b[|b| - 1]);
    }
  }

  // ----- the loops on either end

  /** The forwarder over everything the probe listener ever reports: at most one send, its first failure. */
  method ForwardProbeError(probeErrs: seq<Result>) returns (sends: seq<Result>)
    ensures sends == Failures(probeErrs)[..if Failures(probeErrs) == [] then 0 else 1]
  {
    sends := [];
    var sent := false;
    for i := 0 to |probeErrs|
      invariant sent == (sends != [])
      invariant sends == Failures(probeErrs[..i])[..if Failures(probeErrs[..i]) == [] then 0 else 1]
    {
      assert probeErrs[..i + 1] == probeErrs[..i] + [probeErrs[i]];
      FailuresAppend(probeErrs[..i], probeErrs[i]);
      if IsServeFailure(probeErrs[i]) && !sent {
        sends := sends + [probeErrs[i]];
        sent := true;
      }
    }
    assert probeErrs[..|probeErrs|] == probeErrs;
  }

  /** The drain over what the channel still carries; `closes` tells the close from the timeout, which is itself
      reported beside the failures collected. */
  method ReceiveServeFailures(ch: seq<Result>, closes: bool, timeout: Result) returns (failures: seq<Result>)
    ensures failures == Failures(ch) + if closes then [] else [timeout]
  {
    failures := [];
    for i := 0 to |ch|
      invariant failures == Failures(ch[..i])
    {
      assert ch[..i + 1] == ch[..i] + [ch[i]];
      FailuresAppend(ch[..i], ch[i]);
      if IsServeFailure(ch[i]) {
        failures := failures + [ch[i]];
      }
    }
    assert ch[..|ch|] == ch;
    if !closes {
      failures := failures + [timeout];
    }
  }
}
