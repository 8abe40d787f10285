// The life of peer sessions and the shutdown barrier of the host.
module PeerSessions {

  datatype Phase = Absent | Begun | Tracked | Ending | Ended

  // `pending` is the wait group of Close; a session leaves `count` first and
  // `pending` after it.
  datatype State = State(
    maximum: nat,
    phases: map<nat, Phase>,
    count: int,
    pending: int,
    closing: bool,
    closed: bool,
    writes: seq<nat>)

  datatype Event =
    | Begin(session: nat)
    | Track(session: nat)
    | WriteSink(session: nat)
    | End(session: nat)
    | Done(session: nat)
    | StartClose
    | FinishClose

  function PhaseOf(s: State, session: nat): (p: Phase) {
    if session in s.phases then s.phases[session] else Absent
  }

  function Enter(s: State, session: nat, phase: Phase): (after: State) {
    s.(phases := s.phases[session := phase])
  }

  function Step(s: State, e: Event): (after: State) {
    match e
    case Begin(session) =>
      if PhaseOf(s, session) != Absent || s.closing || s.count >= 2 * s.maximum then s
      else Enter(s, session, Begun).(count := s.count + 1, pending := s.pending + 1)
    case Track(session) =>
      if PhaseOf(s, session) != Begun || s.closing then s else Enter(s, session, Tracked)
    case WriteSink(session) =>
      if PhaseOf(s, session) == Tracked then s.(writes := s.writes + [session]) else s
    case End(session) =>
      if PhaseOf(s, session) == Begun || PhaseOf(s, session) == Tracked
      then Enter(s, session, Ending).(count := s.count - 1) else s
    case Done(session) =>
      if PhaseOf(s, session) == Ending then Enter(s, session, Ended).(pending := s.pending - 1) else s
    case StartClose => s.(closing := true)
    case FinishClose => if s.closing && s.pending == 0 then s.(closed := true) else s
  }

  function Run(s: State, events: seq<Event>): (after: State) {
    if events == [] then s else Step(Run(s, events[..|events| - 1]), events[|events| - 1])
  }

  function Initial(maximum: nat): (s: State) {
    State(maximum, map[], 0, 0, false, false, [])
  }

  // The sessions that have not given up their place in the count.
  function Counted(s: State): (sessions: set<nat>) {
    set i | i in s.phases && (s.phases[i] == Begun || s.phases[i] == Tracked)
  }

  function Waited(s: State): (sessions: set<nat>) {
    set i | i in s.phases && (s.phases[i] == Begun || s.phases[i] == Tracked || s.phases[i] == Ending)
  }

  ghost predicate Inv(s: State) {
    && s.count == |Counted(s)| <= 2 * s.maximum
    && s.pending == |Waited(s)|
    && (s.closed ==> s.closing && Waited(s) == {})
  }

  lemma EnterCounts(s: State, session: nat, phase: Phase)
    ensures Counted(Enter(s, session, phase)) ==
            if phase == Begun || phase == Tracked then Counted(s) + {session} else Counted(s) - {session}
    ensures Waited(Enter(s, session, phase)) ==
            if phase == Begun || phase == Tracked || phase == Ending then Waited(s) + {session} else Waited(s) - {session}
  {
  }

  // Membership of one session in the two groups.
  lemma Grouped(s: State, session: nat)
    ensures session in Counted(s) <==> PhaseOf(s, session) == Begun || PhaseOf(s, session) == Tracked
    ensures session in Waited(s) <==>
            PhaseOf(s, session) == Begun || PhaseOf(s, session) == Tracked || PhaseOf(s, session) == Ending
  {
  }

  // The groups depend on the phases alone.
  lemma SamePhases(s: State, after: State)
    requires after.phases == s.phases
    ensures Counted(after) == Counted(s) && Waited(after) == Waited(s)
  {
  }

  lemma MoveKeeps(s: State, session: nat, phase: Phase, after: State)
    requires Inv(s) && !s.closed && PhaseOf(s, session) != phase
    requires after.phases == Enter(s, session, phase).phases && after.maximum == s.maximum && !after.closed
    requires
      || (PhaseOf(s, session) == Absent && phase == Begun && s.count < 2 * s.maximum
          && after.count == s.count + 1 && after.pending == s.pending + 1)
      || (PhaseOf(s, session) == Begun && phase == Tracked && after.count == s.count && after.pending == s.pending)
      || (PhaseOf(s, session) in {Begun, Tracked} && phase == Ending
          && after.count == s.count - 1 && after.pending == s.pending)
      || (PhaseOf(s, session) == Ending && phase == Ended && after.count == s.count && after.pending == s.pending - 1)
    ensures Inv(after)
  {
    Grouped(s, session);
    EnterCounts(s, session, phase);
    SamePhases(Enter(s, session, phase), after);
    AddOrDrop(Counted(s), session);
    AddOrDrop(Waited(s), session);
  }

  lemma AddOrDrop(group: set<nat>, session: nat)
    ensures |group + {session}| == |group| + (if session in group then 0 else 1)
    ensures |group - {session}| == |group| - (if session in group then 1 else 0)
  {
    if session in group { assert group + {session} == group; } else { assert group - {session} == group; }
  }

  lemma StepKeeps(s: State, e: Event)
    requires Inv(s)
    ensures Inv(Step(s, e))
  {
    var after := Step(s, e);
    if e.Begin? || e.Track? || e.End? || e.Done? {
      Grouped(s, e.session);
      if after != s { MoveKeeps(s, e.session, after.phases[e.session], after); }
    } else {
      SamePhases(s, after);
    }
  }

  lemma {:induction false} RunKeeps(maximum: nat, events: seq<Event>)
    ensures Inv(Run(Initial(maximum), events)) && Run(Initial(maximum), events).maximum == maximum
    decreases |events|
  {
    if events == [] {
      assert Counted(Initial(maximum)) == {} && Waited(Initial(maximum)) == {};
    } else {
      RunKeeps(maximum, events[..|events| - 1]);
      StepKeeps(Run(Initial(maximum), events[..|events| - 1]), events[|events| - 1]);
    }
  }

  // After Close returned nothing writes to the sink any more.
  lemma ClosedStepIsSilent(s: State, e: Event)
    requires Inv(s) && s.closed
    ensures Step(s, e).writes == s.writes && Step(s, e).closed && Inv(Step(s, e))
  {
    StepKeeps(s, e);
    if e.WriteSink? { Grouped(s, e.session); }
  }

  lemma {:induction false} ClosedIsSilentFrom(s: State, later: seq<Event>)
    requires Inv(s) && s.closed
    ensures Run(s, later).writes == s.writes && Run(s, later).closed && Inv(Run(s, later))
    decreases |later|
  {
    if later != [] {
      ClosedIsSilentFrom(s, later[..|later| - 1]);
      ClosedStepIsSilent(Run(s, later[..|later| - 1]), later[|later| - 1]);
    }
  }

  // The shutdown barrier: in every run, once Close has returned, no later
  // event of any session adds a write to the sink.
  lemma CloseIsABarrier(maximum: nat, before: seq<Event>, later: seq<Event>)
    requires Run(Initial(maximum), before).closed
    ensures Run(Run(Initial(maximum), before), later).writes == Run(Initial(maximum), before).writes
  {
    RunKeeps(maximum, before);
    ClosedIsSilentFrom(Run(Initial(maximum), before), later);
  }

  // The sessions in progress never exceed twice the connection limit.
  lemma SessionsAreBounded(maximum: nat, events: seq<Event>)
    ensures |Counted(Run(Initial(maximum), events))| <= 2 * maximum
  {
    RunKeeps(maximum, events);
  }

  // -------------------------------------------------------------- admission

  // A new session is admitted exactly below the bound and before Close; it
  // can then be tracked, and what it writes reaches the sink.
  lemma AdmittedExactly(s: State, session: nat)
    requires Inv(s) && PhaseOf(s, session) == Absent
    ensures var begun := Step(s, Begin(session));
            var tracked := Step(begun, Track(session));
            && (PhaseOf(begun, session) == Begun <==> !s.closing && |Counted(s)| < 2 * s.maximum)
            && (PhaseOf(begun, session) != Begun ==> begun == s)
            && (PhaseOf(begun, session) == Begun ==> Step(tracked, WriteSink(session)).writes == s.writes + [session])
  {
  }

  // Close returns exactly once every session in progress is done.
  lemma CloseReturnsExactly(s: State)
    requires Inv(s) && s.closing && !s.closed
    ensures Step(s, FinishClose).closed <==>
            forall session :: PhaseOf(s, session) == Absent || PhaseOf(s, session) == Ended
  {
    if Waited(s) == {} {
      forall session ensures PhaseOf(s, session) == Absent || PhaseOf(s, session) == Ended { Grouped(s, session); }
    } else {
      var session :| session in Waited(s);
      Grouped(s, session);
    }
  }

  // Once closing, ending the sessions in progress is all it takes for Close to
  // return.
  lemma {:induction false} CloseCanReturn(s: State) returns (events: seq<Event>)
    requires Inv(s) && s.closing
    ensures Run(s, events).closed && Run(s, events).writes == s.writes
    decreases |Waited(s)|
  {
    if Waited(s) == {} {
      events := [FinishClose];
      RunExtends(s, [], FinishClose);
    } else {
      var session :| session in Waited(s);
      Grouped(s, session);
      var ended := Step(s, End(session));
      var done := Step(ended, Done(session));
      StepKeeps(s, End(session));
      StepKeeps(ended, Done(session));
      EnterCounts(s, session, Ending);
      EnterCounts(ended, session, Ended);
      LeavesWaited(s, session);
      var rest := CloseCanReturn(done);
      RunPrepends(s, End(session), Done(session), rest);
      events := [End(session), Done(session)] + rest;
    }
  }

  lemma LeavesWaited(s: State, session: nat)
    requires Inv(s) && session in Waited(s)
    ensures var done := Step(Step(s, End(session)), Done(session));
            Waited(done) == Waited(s) - {session} && |Waited(done)| < |Waited(s)|
            && done.closing == s.closing && done.writes == s.writes
  {
    Grouped(s, session);
    var done := Step(Step(s, End(session)), Done(session));
    forall i ensures i in Waited(done) <==> i in Waited(s) - {session} { Grouped(s, i); Grouped(done, i); }
  }

  lemma RunExtends(s: State, events: seq<Event>, e: Event)
    ensures Run(s, events + [e]) == Step(Run(s, events), e)
  {
    assert (events + [e])[..|events|] == events;
  }

  lemma {:induction false} RunPrepends(s: State, a: Event, b: Event, rest: seq<Event>)
    ensures Run(s, [a, b] + rest) == Run(Step(Step(s, a), b), rest)
    decreases |rest|
  {
    if rest == [] {
      RunExtends(s, [], a);
      RunExtends(s, [a], b);
      assert [] + [a] == [a] && [a] + [b] == [a, b] && [a, b] + rest == [a, b];
    } else {
      var front := rest[..|rest| - 1];
      RunPrepends(s, a, b, front);
      assert ([a, b] + rest)[..|rest| + 1] == [a, b] + front;
    }
  }
}
