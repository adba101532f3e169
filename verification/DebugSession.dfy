/** Whole debugging sessions: the program stays on its own run, and the replies are what
    there was to see on it. */
module DebugSessions {
  import opened Octets
  import opened Outcomes
  import opened Debuggees
  import opened Sequences
  import opened SoftwareBreakpoints

  datatype Command = SetAt(addr: nat) | RemoveAt(addr: nat) | Cont(budget: nat) | Step(budget: nat)

  /** The saved bytes, the target, whether every command so far succeeded, and what the
      commands answered. */
  datatype Session = Session(saved: map<nat, Byte>, target: Target, ok: bool, replies: seq<StopReply>)

  function Listed<T>(o: Option<T>): seq<T> {
    if o.Some? then [o.value] else []
  }

  function Do(cpu: Processor, s: Session, c: Command): Session {
    match c
    case SetAt(addr) =>
      var (saved, t, ok) := Planting(s.saved, s.target, addr);
      Session(saved, t, s.ok && ok, s.replies)
    case RemoveAt(addr) =>
      var (saved, t, ok) := Removing(s.saved, s.target, addr);
      Session(saved, t, s.ok && ok, s.replies)
    case Cont(budget) =>
      var (t, reply) := Continue(cpu, s.saved, s.target, budget);
      Session(s.saved, t, s.ok && reply.Some?, s.replies + Listed(reply))
    case Step(budget) =>
      var (t, reply) := SingleStepping(cpu, s.target, budget);
      Session(s.saved, t, s.ok && reply.Some?, s.replies + Listed(reply))
  }

  function DoAll(cpu: Processor, s: Session, cs: seq<Command>): Session
    decreases |cs|
  {
    if cs == [] then s else DoAll(cpu, Do(cpu, s, cs[0]), cs[1..])
  }

  /** What a caller has to look after: no address is planted twice or outside `at`, and no
      step is taken on a planted instruction or while an exception waits for the program. */
  predicate Careful(s: Session, c: Command, at: set<nat>) {
    match c
    case SetAt(addr) => addr !in s.saved && addr in at
    case RemoveAt(_) => true
    case Cont(_) => true
    case Step(_) =>
      s.target.pending.Some? && !LeftToProgram(s.target.pending.value) && s.target.state.ctx.rip !in s.saved
  }

  /** Every command is issued with care and succeeds. */
  predicate Disciplined(cpu: Processor, s: Session, cs: seq<Command>, at: set<nat>)
    decreases |cs|
  {
    cs == [] ||
    (&& Careful(s, cs[0], at) && Do(cpu, s, cs[0]).ok
     && Disciplined(cpu, Do(cpu, s, cs[0]), cs[1..], at))
  }

  // ---------- what a session shows of the program's run ----------

  /** How many steps of the program one command took, and what it showed of them. */
  datatype Entry = Entry(steps: nat, sight: Option<Sight>)

  function PlantedAfter(at: set<nat>, c: Command): set<nat> {
    match c
    case SetAt(addr) => at + {addr}
    case RemoveAt(addr) => at - {addr}
    case Cont(_) => at
    case Step(_) => at
  }

  /** What one command shows of the run from `prog` with breakpoints at `at`: `cont` the
      first thing there is to see, `step` one step. */
  ghost predicate ShowsOne(cpu: Processor, prog: State, at: set<nat>, c: Command, entry: Entry) {
    match c
    case SetAt(_) => entry == Entry(0, None)
    case RemoveAt(_) => entry == Entry(0, None)
    case Cont(_) =>
      && entry.steps > 0 && FirstStop(cpu, prog, at, entry.steps - 1)
      && entry.sight == Some(SeenAt(cpu, FreeRun(cpu, prog, entry.steps - 1), at))
    case Step(_) =>
      var o := Execute(cpu, prog);
      entry == Entry(1, Some(Stepped(o.next.ctx.rip, o.event)))
  }

  /** The log of a session on the run from `prog`: said of that run and the commands alone. */
  ghost predicate Shows(cpu: Processor, prog: State, at: set<nat>, cs: seq<Command>, log: seq<Entry>)
    decreases |cs|
  {
    && |log| == |cs|
    && (cs == [] ||
        (&& ShowsOne(cpu, prog, at, cs[0], log[0])
         && Shows(cpu, FreeRun(cpu, prog, log[0].steps), PlantedAfter(at, cs[0]), cs[1..], log[1..])))
  }

  function Steps(log: seq<Entry>): nat {
    if log == [] then 0 else log[0].steps + Steps(log[1..])
  }

  function RepliesOf(log: seq<Entry>): seq<StopReply> {
    if log == [] then [] else
      (if log[0].sight.Some? then [AnswerTo(log[0].sight.value)] else []) + RepliesOf(log[1..])
  }

  /** The event behind a sight; a reply tells of it only where it is noticed. */
  function EventBehind(sight: Option<Sight>): seq<DebugEvent> {
    match sight
    case None => []
    case Some(Hit(_, covered)) => Listed(covered)
    case Some(Noticed(event)) => [event]
    case Some(Stepped(_, covered)) => Listed(covered)
  }

  function EventsBehind(log: seq<Entry>): seq<DebugEvent> {
    if log == [] then [] else EventBehind(log[0].sight) + EventsBehind(log[1..])
  }

  /** The events of the next `n` steps of the program. */
  function Events(cpu: Processor, prog: State, n: nat): seq<DebugEvent>
    decreases n
  {
    if n == 0 then [] else
      Listed(Execute(cpu, prog).event) + Events(cpu, Execute(cpu, prog).next, n - 1)
  }

  lemma {:induction false} EventsAppend(cpu: Processor, prog: State, n: nat, k: nat)
    ensures Events(cpu, prog, n + k) == Events(cpu, prog, n) + Events(cpu, FreeRun(cpu, prog, n), k)
    decreases n
  {
    if n > 0 {
      EventsAppend(cpu, Execute(cpu, prog).next, n - 1, k);
    }
  }

  lemma {:induction false} QuietRunHasNoEvents(cpu: Processor, prog: State, at: set<nat>, n: nat)
    requires forall k: nat :: k < n ==> Quiet(cpu, FreeRun(cpu, prog, k), at)
    ensures Events(cpu, prog, n) == []
    decreases n
  {
    if n > 0 {
      assert Quiet(cpu, FreeRun(cpu, prog, 0), at);
      var next := Execute(cpu, prog).next;
      forall k: nat | k < n - 1 ensures Quiet(cpu, FreeRun(cpu, next, k), at) {
        assert FreeRun(cpu, next, k) == FreeRun(cpu, prog, k + 1);
      }
      QuietRunHasNoEvents(cpu, next, at, n - 1);
    }
  }

  lemma EventsOfOne(cpu: Processor, prog: State, at: set<nat>, c: Command, entry: Entry)
    requires ShowsOne(cpu, prog, at, c, entry)
    ensures Events(cpu, prog, entry.steps) == EventBehind(entry.sight)
  {
    match c {
      case Cont(_) =>
        var n := entry.steps - 1;
        var p := FreeRun(cpu, prog, n);
        QuietRunHasNoEvents(cpu, prog, at, n);
        EventsAppend(cpu, prog, n, 1);
        assert Events(cpu, p, 1) == Listed(Execute(cpu, p).event) + Events(cpu, Execute(cpu, p).next, 0);
      case Step(_) =>
        assert Events(cpu, prog, 1) == Listed(Execute(cpu, prog).event) + Events(cpu, Execute(cpu, prog).next, 0);
      case _ =>
    }
  }

  /** No event of the run escapes the log: those no reply tells of are exactly the ones
      raised by an instruction stepped over under a breakpoint, or by `step`. */
  lemma {:induction false} LogHoldsEveryEvent(cpu: Processor, prog: State, at: set<nat>, cs: seq<Command>, log: seq<Entry>)
    requires Shows(cpu, prog, at, cs, log)
    ensures EventsBehind(log) == Events(cpu, prog, Steps(log))
    decreases |cs|
  {
    if cs != [] {
      var later := FreeRun(cpu, prog, log[0].steps);
      EventsOfOne(cpu, prog, at, cs[0], log[0]);
      LogHoldsEveryEvent(cpu, later, PlantedAfter(at, cs[0]), cs[1..], log[1..]);
      EventsAppend(cpu, prog, log[0].steps, Steps(log[1..]));
    }
  }

  // ---------- transparency ----------

  ghost predicate RaisesNoTraps(cpu: Processor, prog: State) {
    forall k: nat :: !RaisesTrap(cpu, FreeRun(cpu, prog, k))
  }

  /** The debuggee is stopped, and is the program behind the planted bytes. */
  ghost predicate Tracks(s: Session, prog: State) {
    Stopped(s.target) && Shadows(prog, s.saved, OnResume(s.target))
  }

  /** The command took the session along the run by what `entry` says of it. */
  ghost predicate Advances(cpu: Processor, s: Session, c: Command, prog: State, entry: Entry) {
    var s' := Do(cpu, s, c);
    && ShowsOne(cpu, prog, s.saved.Keys, c, entry)
    && Tracks(s', FreeRun(cpu, prog, entry.steps))
    && s'.saved.Keys == PlantedAfter(s.saved.Keys, c)
    && s'.replies == s.replies + RepliesOf([entry])
  }

  lemma RepliesOfOne(entry: Entry)
    ensures RepliesOf([entry]) == if entry.sight.Some? then [AnswerTo(entry.sight.value)] else []
  {
    assert RepliesOf([entry][1..]) == [];
  }

  lemma ContAdvances(cpu: Processor, s: Session, budget: nat, prog: State) returns (entry: Entry)
    requires Tracks(s, prog) && RunLeavesAlone(cpu, prog, s.saved.Keys) && RaisesNoTraps(cpu, prog)
    requires Do(cpu, s, Cont(budget)).ok
    ensures Advances(cpu, s, Cont(budget), prog, entry)
  {
    var n := ContinueIsTransparentIffNoTrap(cpu, s.saved, prog, s.target, budget);
    entry := Entry(n + 1, Some(SeenAt(cpu, FreeRun(cpu, prog, n), s.saved.Keys)));
    RepliesOfOne(entry);
  }

  lemma StepAdvances(cpu: Processor, s: Session, budget: nat, prog: State) returns (entry: Entry)
    requires Tracks(s, prog) && LeavesAlone(cpu, prog, s.saved.Keys) && !RaisesTrap(cpu, prog)
    requires !LeftToProgram(s.target.pending.value) && s.target.state.ctx.rip !in s.saved
    requires Do(cpu, s, Step(budget)).ok
    ensures Advances(cpu, s, Step(budget), prog, entry)
  {
    var o := Execute(cpu, prog);
    entry := Entry(1, Some(Stepped(o.next.ctx.rip, o.event)));
    RepliesOfOne(entry);
    StepIsTransparentIffUnplanted(cpu, s.saved, prog, s.target, budget);
    StepUnfolds(cpu, s.target, budget);
    assert s.saved.Keys - {prog.ctx.rip} == s.saved.Keys;
    StepCommutes(cpu, prog, s.saved);
    assert FreeRun(cpu, prog, 1) == o.next;
  }

  lemma PlantingAdvances(cpu: Processor, s: Session, c: Command, at: set<nat>, prog: State)
    requires Tracks(s, prog) && (c.SetAt? || c.RemoveAt?) && Careful(s, c, at) && Do(cpu, s, c).ok
    ensures Advances(cpu, s, c, prog, Entry(0, None))
  {
    RepliesOfOne(Entry(0, None));
    if c.SetAt? {
      PlantingIsSoundIffNew(s.saved, prog, s.target, c.addr);
    } else {
      RemovingIsSound(s.saved, prog, s.target, c.addr);
    }
  }

  lemma CommandAdvances(cpu: Processor, s: Session, c: Command, at: set<nat>, prog: State) returns (entry: Entry)
    requires Tracks(s, prog) && s.saved.Keys <= at
    requires RunLeavesAlone(cpu, prog, at) && RaisesNoTraps(cpu, prog)
    requires Careful(s, c, at) && Do(cpu, s, c).ok
    ensures Advances(cpu, s, c, prog, entry) && PlantedAfter(s.saved.Keys, c) <= at
  {
    FewerAreLeftAlone(cpu, prog, at, s.saved.Keys);
    assert FreeRun(cpu, prog, 0) == prog;
    match c {
      case Cont(budget) => entry := ContAdvances(cpu, s, budget, prog);
      case Step(budget) =>
        assert LeavesAlone(cpu, FreeRun(cpu, prog, 0), s.saved.Keys) && !RaisesTrap(cpu, FreeRun(cpu, prog, 0));
        entry := StepAdvances(cpu, s, budget, prog);
      case _ =>
        entry := Entry(0, None);
        PlantingAdvances(cpu, s, c, at, prog);
    }
  }

  /** The end of the session that goes on from `s`, as `log` tells it. */
  ghost predicate EndsAs(cpu: Processor, s: Session, cs: seq<Command>, prog: State, log: seq<Entry>) {
    && Tracks(DoAll(cpu, s, cs), FreeRun(cpu, prog, Steps(log)))
    && DoAll(cpu, s, cs).replies == s.replies + RepliesOf(log)
  }

  lemma EndAfterOneMore(cpu: Processor, s: Session, cs: seq<Command>, prog: State, entry: Entry, rest: seq<Entry>)
    requires cs != [] && Advances(cpu, s, cs[0], prog, entry)
    requires EndsAs(cpu, Do(cpu, s, cs[0]), cs[1..], FreeRun(cpu, prog, entry.steps), rest)
    ensures EndsAs(cpu, s, cs, prog, [entry] + rest)
  {
    var log := [entry] + rest;
    assert log[1..] == rest;
    RepliesOfOne(entry);
    FreeRunAppends(cpu, prog, entry.steps, Steps(rest));
    Associate(s.replies, RepliesOf([entry]), RepliesOf(rest));
  }

  lemma LaterRaisesNoTraps(cpu: Processor, prog: State, n: nat)
    requires RaisesNoTraps(cpu, prog)
    ensures RaisesNoTraps(cpu, FreeRun(cpu, prog, n))
  {
    forall k: nat ensures !RaisesTrap(cpu, FreeRun(cpu, FreeRun(cpu, prog, n), k)) {
      FreeRunAppends(cpu, prog, n, k);
    }
  }

  lemma {:induction false} SessionFollowsRun(cpu: Processor, s: Session, cs: seq<Command>, at: set<nat>, prog: State)
    returns (log: seq<Entry>)
    requires Tracks(s, prog) && s.saved.Keys <= at
    requires RunLeavesAlone(cpu, prog, at) && RaisesNoTraps(cpu, prog)
    requires Disciplined(cpu, s, cs, at)
    ensures Shows(cpu, prog, s.saved.Keys, cs, log) && EndsAs(cpu, s, cs, prog, log)
    decreases |cs|
  {
    log := [];
    if cs == [] {
      assert s.replies + [] == s.replies;
    } else {
      var entry := CommandAdvances(cpu, s, cs[0], at, prog);
      LaterRunLeavesAlone(cpu, prog, at, entry.steps);
      LaterRaisesNoTraps(cpu, prog, entry.steps);
      var rest := SessionFollowsRun(cpu, Do(cpu, s, cs[0]), cs[1..], at, FreeRun(cpu, prog, entry.steps));
      EndAfterOneMore(cpu, s, cs, prog, entry, rest);
      log := [entry] + rest;
      assert log[1..] == rest;
    }
  }

  /** Over a whole session the debuggee stays on the program's own run, behind the planted
      bytes; once all breakpoints are removed it is that program state exactly. The replies
      are, in order, what the run had to show. */
  lemma SessionIsTransparent(cpu: Processor, s: Session, cs: seq<Command>, at: set<nat>, prog: State)
    returns (log: seq<Entry>)
    requires Tracks(s, prog) && s.saved.Keys <= at
    requires RunLeavesAlone(cpu, prog, at) && RaisesNoTraps(cpu, prog)
    requires Disciplined(cpu, s, cs, at)
    ensures Shows(cpu, prog, s.saved.Keys, cs, log)
    ensures var end := DoAll(cpu, s, cs);
            var p := FreeRun(cpu, prog, Steps(log));
            && Tracks(end, p) && end.replies == s.replies + RepliesOf(log)
            && (end.saved == map[] ==> OnResume(end.target) == p)
  {
    log := SessionFollowsRun(cpu, s, cs, at, prog);
    var end := DoAll(cpu, s, cs);
    if end.saved == map[] { NothingPlantedIsOriginal(FreeRun(cpu, prog, Steps(log)), OnResume(end.target)); }
  }
}
