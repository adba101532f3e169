/** Software breakpoints as functions of the debuggee's state, and why they do not
    change what the program computes. */
module SoftwareBreakpoints {
  import opened Octets
  import opened Outcomes
  import opened HostCalls
  import opened Debuggees

  datatype StopKind = StopBreakpoint | StopSingleStep | StopSignal | StopExited | StopUnknown
  datatype StopReply = StopReply(kind: StopKind, signal: int, pc: Word64)

  function TranslateKind(kind: EventKind): StopKind {
    match kind
    case Breakpoint => StopBreakpoint
    case SingleStep => StopSingleStep
    case Exception => StopSignal
    case ExitProcess => StopExited
    case LoadModule => StopUnknown
    case Other => StopUnknown
  }

  /** The conversion of a 32-bit exception code to a signed integer. */
  function AsSigned(code: Word32): int {
    if code < 0x8000_0000 then code else code - 0x1_0000_0000
  }

  function ReplyFor(e: Event): StopReply {
    StopReply(TranslateKind(e.kind), AsSigned(e.code), e.address)
  }

  function WithByte(s: State, addr: nat, b: Byte): State {
    s.(mem := s.mem[addr := b])
  }

  function WithRip(s: State, rip: Word64): State {
    s.(ctx := s.ctx.(rip := rip))
  }

  // ---------- the backend's operations ----------

  /** Moves the instruction pointer: the registers are read, patched and written. */
  function Rewinding(t: Target, rip: Word64): (Target, bool) {
    var read := Called(t);
    if !Answer(t.script).Granted? then (read, false)
    else if !Answer(read.script).Granted? then (Called(read), false)
    else (Called(read).(state := WithRip(t.state, rip)), true)
  }

  /** Handling of a hit on a planted breakpoint: rewind, restore, step over, re-arm. Any
      step may fail and leave the rest undone; no answer stands for an error. */
  function StepOver(cpu: Processor, original: Byte, t: Target, e: Event, budget: nat)
    : (Target, Option<StopReply>)
  {
    var (t1, rewound) := Rewinding(t, e.address);
    if !rewound then (t1, None) else
      var (t2, restored) := Writing(t1, e.address, [original]);
      if !restored then (t2, None) else
        var (t3, resumed) := ResumingForStep(t2);
        if !resumed then (t3, None) else
          var (t4, stepped) := Waiting(cpu, t3, budget);
          if stepped.None? then (t4, None) else
            var (t5, armed) := Writing(t4, e.address, [INT3]);
            (t5, if armed then Some(ReplyFor(e)) else None)
  }

  /** What `cont` does to the target and what it answers. */
  function Continue(cpu: Processor, saved: map<nat, Byte>, t: Target, budget: nat): (Target, Option<StopReply>)
  {
    var (t1, resumed) := Resuming(t);
    if !resumed then (t1, None) else
      var (t2, event) := Waiting(cpu, t1, budget);
      if event.None? then (t2, None) else
        var e := Described(event.value);
        if e.kind.Breakpoint? && e.address in saved
        then StepOver(cpu, saved[e.address], t2, e, budget)
        else (t2, Some(ReplyFor(e)))
  }

  /** What `step` does: one instruction, with no regard for a breakpoint planted on it or
      for an exception pending; any event is answered as a single step. */
  function SingleStepping(cpu: Processor, t: Target, budget: nat): (Target, Option<StopReply>) {
    var (t1, resumed) := ResumingForStep(t);
    if !resumed then (t1, None) else
      var (t2, event) := Waiting(cpu, t1, budget);
      (t2, if event.Some? then Some(StopReply(StopSingleStep, 0, Described(event.value).address)) else None)
  }

  /** What planting at `addr` does: the byte is recorded before the write is tried. */
  function Planting(saved: map<nat, Byte>, t: Target, addr: nat): (map<nat, Byte>, Target, bool) {
    if !t.attached then (saved, t, false)
    else if !Answer(t.script).Granted? || addr !in t.state.mem then (saved, Called(t), false)
    else
      var (t', written) := Writing(Called(t), addr, [INT3]);
      (saved[addr := t.state.mem[addr]], t', written)
  }

  function Removing(saved: map<nat, Byte>, t: Target, addr: nat): (map<nat, Byte>, Target, bool) {
    if addr !in saved then (saved, t, false) else
      var (t', restored) := Writing(t, addr, [saved[addr]]);
      (if restored then saved - {addr} else saved, t', restored)
  }

  lemma WritesOneByte(t: Target, addr: nat, b: Byte)
    ensures var (t', ok) := Writing(t, addr, [b]);
            && (ok <==> t.attached && addr in t.state.mem && Answer(t.script).Granted?)
            && t'.pending == t.pending && t'.attached == t.attached && t'.trap == t.trap
            && (t'.script == Later(t.script) || !t.attached)
            && t'.state == (if t.attached && addr in t.state.mem && BytesWritten(Answer(t.script), 1) == 1
                            then WithByte(t.state, addr, b) else t.state)
  {
    var n := BytesWritten(Answer(t.script), 1);
    assert [b][..n] == if n == 1 then [b] else [];
    if t.attached && addr in t.state.mem {
      assert Within(t.state.mem.Keys, addr, 1);
      if n == 0 {
        assert Stored(t.state.mem, addr, []) == t.state.mem;
      }
    }
  }

  // ---------- what replies tell, and what failures leave ----------

  /** The reply for a described event: kind by kind, the code as a signed 32-bit number. */
  ghost predicate Tells(reply: StopReply, e: Event) {
    && reply.pc == e.address
    && -0x8000_0000 <= reply.signal < 0x8000_0000 && (reply.signal - e.code) % 0x1_0000_0000 == 0
    && reply.kind == match e.kind
                     case Breakpoint => StopBreakpoint
                     case SingleStep => StopSingleStep
                     case Exception => StopSignal
                     case ExitProcess => StopExited
                     case LoadModule => StopUnknown
                     case Other => StopUnknown
  }

  /** The reply for a debug event as the host raises it. */
  ghost predicate TellsOf(reply: StopReply, de: DebugEvent) {
    && -0x8000_0000 <= reply.signal < 0x8000_0000
    && match de
       case ExceptionRaised(code, address) =>
         && reply.pc == address && (reply.signal - code) % 0x1_0000_0000 == 0
         && (code == 0x8000_0003 ==> reply.kind == StopBreakpoint)
         && (code == 0x8000_0004 ==> reply.kind == StopSingleStep)
         && (code != 0x8000_0003 && code != 0x8000_0004 ==> reply.kind == StopSignal)
       case ProcessExited(exitCode) =>
         reply.kind == StopExited && reply.pc == 0 && (reply.signal - exitCode) % 0x1_0000_0000 == 0
       case DllLoaded(base) => reply == StopReply(StopUnknown, 0, base)
       case OtherDebugEvent => reply == StopReply(StopUnknown, 0, 0)
  }

  lemma ReplyTells(e: Event)
    ensures Tells(ReplyFor(e), e)
  {
  }

  lemma ReplyTellsOf(de: DebugEvent)
    ensures TellsOf(ReplyFor(Described(de)), de)
  {
  }

  /** Call `i` from now. */
  function NthAnswer(script: seq<HostResult>, i: nat): HostResult {
    if i < |script| then script[i] else Granted
  }

  lemma NthOfLater(script: seq<HostResult>, i: nat)
    ensures NthAnswer(Later(script), i) == NthAnswer(script, i + 1) && Answer(script) == NthAnswer(script, 0)
  {
  }

  /** `cont` without a pending event makes no call; refused, it keeps the event and all
      else; not attached, it cannot wait. */
  lemma ContinueFailsWithout(cpu: Processor, saved: map<nat, Byte>, t: Target, budget: nat)
    ensures t.pending.None? ==> Continue(cpu, saved, t, budget) == (t, None)
    ensures t.pending.Some? && !NthAnswer(t.script, 0).Granted? ==>
              Continue(cpu, saved, t, budget) == (t.(script := Later(t.script)), None)
    ensures t.pending.Some? && NthAnswer(t.script, 0).Granted? && (!t.attached || !NthAnswer(t.script, 1).Granted?) ==>
              var (t', reply) := Continue(cpu, saved, t, budget);
              reply == None && t'.pending == None && t'.state.ctx == t.state.ctx && t'.state.mem == t.state.mem
  {
  }

  lemma StepFailsWithout(cpu: Processor, t: Target, budget: nat)
    ensures t.pending.None? ==> SingleStepping(cpu, t, budget) == (t, None)
    ensures t.pending.Some? && NthAnswer(t.script, 0).Refused? ==>
              SingleStepping(cpu, t, budget) == (t.(script := Later(t.script)), None)
    ensures t.pending.Some? && NthAnswer(t.script, 0).Broken? ==>
              SingleStepping(cpu, t, budget) == (t.(script := Later(t.script), trap := true), None)
    ensures t.pending.Some? && NthAnswer(t.script, 0).Granted? && (!t.attached || !NthAnswer(t.script, 1).Granted?) ==>
              var (t', reply) := SingleStepping(cpu, t, budget);
              reply == None && t'.pending == None && t'.state.ctx == t.state.ctx && t'.state.mem == t.state.mem
  {
  }

  /** Planting succeeds exactly on attached targets with mapped memory and both calls
      granted; if the read fails nothing is recorded or written. */
  lemma PlantingSucceedsIff(saved: map<nat, Byte>, t: Target, addr: nat)
    ensures var (saved', t', ok) := Planting(saved, t, addr);
            && (ok <==> t.attached && addr in t.state.mem && NthAnswer(t.script, 0).Granted? && NthAnswer(t.script, 1).Granted?)
            && (!t.attached || addr !in t.state.mem || !NthAnswer(t.script, 0).Granted? ==>
                  saved' == saved && t' == t.(script := t'.script))
  {
    WritesOneByte(Called(t), addr, INT3);
  }

  /** Removing succeeds exactly for a record on an attached target with mapped memory and
      the call granted; otherwise the record is kept. */
  lemma RemovingSucceedsIff(saved: map<nat, Byte>, t: Target, addr: nat)
    ensures var (saved', t', ok) := Removing(saved, t, addr);
            && (ok <==> addr in saved && t.attached && addr in t.state.mem && NthAnswer(t.script, 0).Granted?)
            && (!ok ==> saved' == saved)
            && (addr !in saved ==> t' == t)
  {
    if addr in saved { WritesOneByte(t, addr, saved[addr]); }
  }

  // ---------- the program without a debugger ----------

  /** The program after `n` steps nobody interferes with. */
  function FreeRun(cpu: Processor, s: State, n: nat): State
    decreases n
  {
    if n == 0 then s else FreeRun(cpu, Execute(cpu, s).next, n - 1)
  }

  lemma {:induction false} FreeRunAppends(cpu: Processor, s: State, n: nat, k: nat)
    ensures FreeRun(cpu, FreeRun(cpu, s, n), k) == FreeRun(cpu, s, n + k)
    decreases n
  {
    if n > 0 {
      FreeRunAppends(cpu, Execute(cpu, s).next, n - 1, k);
    }
  }

  /** The program state with 0xCC at every address of `at`. */
  function Plant(s: State, at: set<nat>): State {
    s.(mem := map a | a in s.mem :: if a in at then 0xCC else s.mem[a])
  }

  ghost predicate SavedFrom(prog: State, saved: map<nat, Byte>) {
    forall a :: a in saved ==> a in prog.mem && saved[a] == prog.mem[a]
  }

  /** Every planted address holds 0xCC with the program's own byte saved, and nothing
      else of the program's state is touched. */
  ghost predicate Shadows(prog: State, saved: map<nat, Byte>, s: State) {
    s == Plant(prog, saved.Keys) && SavedFrom(prog, saved)
  }

  ghost predicate SameOutside(m: Memory, m': Memory, at: set<nat>) {
    m.Keys == m'.Keys && forall a :: a in m && a !in at ==> m[a] == m'[a]
  }

  /** Two outcomes that differ at most in the bytes of `at`, which `o'` leaves as in `m'`. */
  ghost predicate AgreeOutside(o: Outcome, o': Outcome, m': Memory, at: set<nat>) {
    && o'.event == o.event && o'.next.ctx == o.next.ctx
    && SameOutside(o.next.mem, o'.next.mem, at)
    && forall a :: a in at ==> (a in m' <==> a in o'.next.mem) && (a in m' ==> o'.next.mem[a] == m'[a])
  }

  /** Where the next step fetches an instruction; the delivery of an exception fetches none. */
  function Fetches(s: State): set<nat> {
    if s.raised.None? then {s.ctx.rip} else {}
  }

  /** The step at `s` neither reads nor writes the bytes of `at`, other than fetching its
      own first byte. */
  ghost predicate LeavesAlone(cpu: Processor, s: State, at: set<nat>) {
    var pc := s.ctx.rip;
    var rest := at - Fetches(s);
    (s.raised.None? && pc in s.mem && s.mem[pc] == 0xCC) ||
    (&& (forall m :: SameOutside(s.mem, m, rest) ==> AgreeOutside(cpu(s), cpu(s.(mem := m)), m, rest))
     && (s.raised.None? && pc in at && pc in s.mem ==>
           pc in cpu(s).next.mem && cpu(s).next.mem[pc] == s.mem[pc]))
  }

  lemma LeavesFewerAlone(cpu: Processor, s: State, at: set<nat>, fewer: set<nat>)
    requires LeavesAlone(cpu, s, at) && fewer <= at
    ensures LeavesAlone(cpu, s, fewer)
  {
    var rest, less := at - Fetches(s), fewer - Fetches(s);
    if !(s.raised.None? && s.ctx.rip in s.mem && s.mem[s.ctx.rip] == 0xCC) {
      assert s.(mem := s.mem) == s;
      assert AgreeOutside(cpu(s), cpu(s), s.mem, rest) by {
        assert SameOutside(s.mem, s.mem, rest);
      }
      forall m | SameOutside(s.mem, m, less)
        ensures AgreeOutside(cpu(s), cpu(s.(mem := m)), m, less)
      {
        assert SameOutside(s.mem, m, rest);
        assert AgreeOutside(cpu(s), cpu(s.(mem := m)), m, rest);
      }
    }
  }

  /** The program's own byte at a planted address survives one step. */
  lemma OwnBytesSurvive(cpu: Processor, prog: State, saved: map<nat, Byte>)
    requires LeavesAlone(cpu, prog, saved.Keys) && SavedFrom(prog, saved)
    ensures SavedFrom(Execute(cpu, prog).next, saved)
  {
    var rest := saved.Keys - Fetches(prog);
    if !(prog.raised.None? && prog.ctx.rip in prog.mem && prog.mem[prog.ctx.rip] == 0xCC) {
      assert prog.(mem := prog.mem) == prog;
      assert AgreeOutside(cpu(prog), cpu(prog), prog.mem, rest) by {
        assert SameOutside(prog.mem, prog.mem, rest);
      }
    }
  }

  /** One step commutes with planting everywhere but under it. */
  lemma StepCommutes(cpu: Processor, prog: State, saved: map<nat, Byte>)
    requires LeavesAlone(cpu, prog, saved.Keys) && SavedFrom(prog, saved)
    ensures var rest := saved.Keys - Fetches(prog);
            var o := Execute(cpu, prog);
            Execute(cpu, Plant(prog, rest)) == Outcome(Plant(o.next, rest), o.event)
  {
    var rest := saved.Keys - Fetches(prog);
    var t := Plant(prog, rest);
    if !(prog.raised.None? && prog.ctx.rip in prog.mem && prog.mem[prog.ctx.rip] == 0xCC) {
      assert SameOutside(prog.mem, t.mem, rest);
      assert t == prog.(mem := t.mem);
      assert AgreeOutside(cpu(prog), cpu(t), t.mem, rest);
      OwnBytesSurvive(cpu, prog, saved);
      assert cpu(t).next.mem == Plant(cpu(prog).next, rest).mem;
    } else {
      assert Execute(cpu, t).next.mem == Plant(Execute(cpu, prog).next, rest).mem;
    }
  }

  /** The whole run from `prog` leaves the planted bytes alone. */
  ghost predicate RunLeavesAlone(cpu: Processor, prog: State, at: set<nat>) {
    forall k: nat :: LeavesAlone(cpu, FreeRun(cpu, prog, k), at)
  }

  lemma LaterRunLeavesAlone(cpu: Processor, prog: State, at: set<nat>, n: nat)
    requires RunLeavesAlone(cpu, prog, at)
    ensures RunLeavesAlone(cpu, FreeRun(cpu, prog, n), at)
  {
    forall k: nat
      ensures LeavesAlone(cpu, FreeRun(cpu, FreeRun(cpu, prog, n), k), at)
    {
      FreeRunAppends(cpu, prog, n, k);
    }
  }

  lemma FewerAreLeftAlone(cpu: Processor, prog: State, at: set<nat>, fewer: set<nat>)
    requires RunLeavesAlone(cpu, prog, at) && fewer <= at
    ensures RunLeavesAlone(cpu, prog, fewer)
  {
    forall k: nat ensures LeavesAlone(cpu, FreeRun(cpu, prog, k), fewer) {
      LeavesFewerAlone(cpu, FreeRun(cpu, prog, k), at, fewer);
    }
  }

  // ---------- what there is to see on a run ----------

  /** The next step fetches a planted byte. */
  ghost predicate Hits(s: State, at: set<nat>) {
    Fetches(s) * at != {}
  }

  /** Nothing for a debugger to see: no breakpoint here and no event. */
  ghost predicate Quiet(cpu: Processor, s: State, at: set<nat>) {
    !Hits(s, at) && Execute(cpu, s).event.None?
  }

  /** Step `n` of the run is the first with something to see. */
  ghost predicate FirstStop(cpu: Processor, prog: State, at: set<nat>, n: nat) {
    && !Quiet(cpu, FreeRun(cpu, prog, n), at)
    && forall k: nat :: k < n ==> Quiet(cpu, FreeRun(cpu, prog, k), at)
  }

  /** The step raises a breakpoint or single-step exception of the program's own making. */
  ghost predicate RaisesTrap(cpu: Processor, s: State) {
    match Execute(cpu, s).event
    case Some(ExceptionRaised(code, _)) => code == 0x8000_0003 || code == 0x8000_0004
    case _ => false
  }

  // ---------- the debuggee between two commands ----------

  /** The debuggee is stopped at an event. */
  ghost predicate Stopped(t: Target) {
    t.attached && t.pending.Some? && !t.trap && t.state.raised == RaisedBy(t.pending)
  }

  /** The state `cont` goes on from. */
  function OnResume(t: Target): State
    requires t.pending.Some?
  {
    Continued(t.state, t.pending.value, !LeftToProgram(t.pending.value))
  }

  /** A trap of the program's own is taken away when the debuggee is resumed; any other
      exception is not. */
  lemma ResumeKeepsAllButTraps(prog: State, saved: map<nat, Byte>, t: Target, event: DebugEvent)
    requires Stopped(t) && SavedFrom(prog, saved)
    requires t.state.(raised := None) == Plant(prog.(raised := None), saved.Keys)
    requires t.pending == Some(event)
    ensures prog.raised == RaisedBy(Some(event)) ==> (Shadows(prog, saved, OnResume(t)) <==> !IsTrap(event))
    ensures prog.raised == None && IsTrap(event) ==> Shadows(prog, saved, OnResume(t))
  {
    assert Plant(prog.(raised := None), saved.Keys).mem == Plant(prog, saved.Keys).mem;
  }

  // ---------- transparency of `cont` ----------

  /** Rewinding and restoring gives the program with only the other breakpoints planted,
      from which one step commutes with planting. */
  lemma RestoredSteps(cpu: Processor, saved: map<nat, Byte>, prog: State, s: State, budget: nat)
    requires SavedFrom(prog, saved) && LeavesAlone(cpu, prog, saved.Keys) && budget > 0
    requires prog.raised.None? && prog.ctx.rip in saved
    requires WithRip(s, prog.ctx.rip).(raised := None) == Plant(prog, saved.Keys)
    ensures var pc := prog.ctx.rip;
            var step := Execute(cpu, prog);
            && Await(cpu, WithByte(WithRip(s, pc), pc, saved[pc]).(raised := None), true, budget) ==
               Trapped(Outcome(Plant(step.next, saved.Keys - {pc}), step.event))
            && SavedFrom(step.next, saved)
  {
    var pc := prog.ctx.rip;
    var restored := WithByte(Plant(prog, saved.Keys), pc, saved[pc]);
    assert restored.mem == Plant(prog, saved.Keys - {pc}).mem;
    assert Fetches(prog) == {pc};
    StepCommutes(cpu, prog, saved);
    OwnBytesSurvive(cpu, prog, saved);
  }

  /** What is left of a handled hit if every host call is granted. */
  lemma StepOverUnfolds(cpu: Processor, original: Byte, t: Target, e: Event, budget: nat)
    requires Stopped(t) && t.pending.value.ExceptionRaised? && e.address in t.state.mem && budget > 0
    ensures var (t', reply) := StepOver(cpu, original, t, e, budget);
            var a := e.address;
            var o := Await(cpu, WithByte(WithRip(t.state, a), a, original).(raised := None), true, budget);
            && (reply.Some? ==>
                  && reply == Some(ReplyFor(e)) && t'.state == WithByte(o.next, a, INT3)
                  && t'.attached && t'.pending == o.event && !t'.trap)
            && (Smooth(t.script) && a in o.next.mem ==> reply.Some? && Smooth(t'.script))
  {
    var a := e.address;
    var (t1, rewound) := Rewinding(t, a);
    WritesOneByte(t1, a, original);
    if rewound {
      var (t2, restored) := Writing(t1, a, [original]);
      if restored {
        var (t3, resumed) := ResumingForStep(t2);
        if resumed {
          assert t3.state == WithByte(WithRip(t.state, a), a, original).(raised := None);
          WritesOneByte(Waiting(cpu, t3, budget).0, a, INT3);
        }
      }
    }
  }

  /** What handling a hit comes to once the instruction pointer is rewound. */
  lemma StepOverAfterRewind(cpu: Processor, original: Byte, t: Target, e: Event, budget: nat)
    requires t.attached && t.pending.Some? && t.pending.value.ExceptionRaised? && !t.trap
    requires e.address in t.state.mem && budget > 0
    ensures var a := e.address;
            var (t2, restored) := Writing(t, a, [original]);
            var (t3, resumed) := ResumingForStep(t2);
            var (t4, stepped) := Waiting(cpu, t3, budget);
            var (t5, armed) := Writing(t4, a, [INT3]);
            var (t', reply) := if !restored then (t2, None) else if !resumed then (t3, None)
                               else if stepped.None? then (t4, None) else (t5, if armed then Some(ReplyFor(e)) else None);
            var own := WithByte(t.state, a, original);
            var o := Await(cpu, own.(raised := None), true, budget);
            var granted := (i: nat) => NthAnswer(t.script, i).Granted?;
            if !granted(0) then reply == None && (t'.state == t.state || t'.state == own) && t'.pending == t.pending
            else if !granted(1) then reply == None && t'.state == own && t'.pending == t.pending
            else if !granted(2) then reply == None && t'.state == own.(raised := None) && t'.pending == None
            else if !granted(3) || a !in o.next.mem then
              reply == None && (t'.state == o.next || t'.state == WithByte(o.next, a, 0xCC)) && t'.pending == o.event
            else reply.Some? && t'.state == WithByte(o.next, a, 0xCC) && t'.pending == o.event
  {
    var a := e.address;
    var (t2, restored) := Writing(t, a, [original]);
    WritesOneByte(t, a, original);
    NthOfLater(t.script, 0);
    NthOfLater(t.script, 1);
    NthOfLater(t.script, 2);
    NthOfLater(Later(t.script), 0);
    NthOfLater(Later(t.script), 1);
    NthOfLater(Later(Later(t.script)), 0);
    if restored {
      var (t3, resumed) := ResumingForStep(t2);
      if resumed {
        WritesOneByte(Waiting(cpu, t3, budget).0, a, INT3);
      }
    }
  }

  /** A hit is handled exactly if the six host calls are granted and the instruction leaves
      its own address mapped. A failure stops it there, whatever is left undone. */
  lemma StepOverSucceedsIff(cpu: Processor, original: Byte, t: Target, e: Event, budget: nat)
    requires Stopped(t) && t.pending.value.ExceptionRaised? && e.address in t.state.mem && budget > 0
    ensures var (t', reply) := StepOver(cpu, original, t, e, budget);
            var a := e.address;
            var rewound := WithRip(t.state, a);
            var restored := WithByte(rewound, a, original);
            var o := Await(cpu, restored.(raised := None), true, budget);
            var granted := (i: nat) => NthAnswer(t.script, i).Granted?;
            if !granted(0) || !granted(1) then reply == None && t'.state == t.state && t'.pending == t.pending
            else if !granted(2) then
              reply == None && (t'.state == rewound || t'.state == restored) && t'.pending == t.pending
            else if !granted(3) then reply == None && t'.state == restored && t'.pending == t.pending
            else if !granted(4) then reply == None && t'.state == restored.(raised := None) && t'.pending == None
            else if !granted(5) || a !in o.next.mem then
              reply == None && (t'.state == o.next || t'.state == WithByte(o.next, a, 0xCC)) && t'.pending == o.event
            else reply.Some? && t'.state == WithByte(o.next, a, 0xCC) && t'.pending == o.event
  {
    var a := e.address;
    var s0 := t.script;
    NthOfLater(s0, 0);
    NthOfLater(Later(s0), 0);
    var (t1, rewound) := Rewinding(t, a);
    if rewound {
      StepOverAfterRewind(cpu, original, t1, e, budget);
      forall i: nat ensures NthAnswer(t1.script, i) == NthAnswer(s0, i + 2) {
        NthOfLater(s0, i + 1);
        NthOfLater(Later(s0), i);
      }
    }
  }

  /** A handled hit is the program's own step behind the planted bytes, and the event
      pending afterwards is the one that step raised, if it raised one. */
  lemma HitIsHandled(cpu: Processor, saved: map<nat, Byte>, prog: State, t: Target, budget: nat)
    requires SavedFrom(prog, saved) && LeavesAlone(cpu, prog, saved.Keys) && budget > 0
    requires prog.raised.None? && prog.ctx.rip in saved
    requires Stopped(t) && t.pending == Some(ExceptionRaised(0x8000_0003, prog.ctx.rip))
    requires WithRip(t.state, prog.ctx.rip).(raised := None) == Plant(prog, saved.Keys)
    ensures var pc := prog.ctx.rip;
            var e := Event(Breakpoint, pc, 0x8000_0003);
            var (t', reply) := StepOver(cpu, saved[pc], t, e, budget);
            var step := Execute(cpu, prog);
            && (Smooth(t.script) ==> reply.Some? && Smooth(t'.script))
            && (reply.Some? ==>
                  && reply == Some(ReplyFor(e)) && Stopped(t') && SavedFrom(step.next, saved)
                  && t'.pending == Trapped(step).event
                  && t'.state.(raised := None) == Plant(step.next.(raised := None), saved.Keys))
  {
    var pc := prog.ctx.rip;
    var step := Execute(cpu, prog);
    RestoredSteps(cpu, saved, prog, t.state, budget);
    assert WithRip(t.state, pc).mem == t.state.mem;
    StepOverUnfolds(cpu, saved[pc], t, Event(Breakpoint, pc, 0x8000_0003), budget);
    assert WithByte(Plant(step.next, saved.Keys - {pc}), pc, INT3).mem == Plant(step.next, saved.Keys).mem;
    assert Plant(step.next.(raised := None), saved.Keys).mem == Plant(step.next, saved.Keys).mem;
  }

  /** A wait has ended at `p`: with a breakpoint hit, or with the program's own step. */
  ghost predicate EndsAt(cpu: Processor, saved: map<nat, Byte>, p: State, o: Outcome) {
    var step := Execute(cpu, p);
    && SavedFrom(p, saved)
    && if Hits(p, saved.Keys)
       then && WithRip(o.next, p.ctx.rip).(raised := None) == Plant(p, saved.Keys)
            && o.event == Some(ExceptionRaised(0x8000_0003, p.ctx.rip))
       else o == Outcome(Plant(step.next, saved.Keys), step.event)
  }

  /** Waiting for one step. */
  lemma AwaitOne(cpu: Processor, saved: map<nat, Byte>, prog: State, budget: nat)
    requires SavedFrom(prog, saved) && LeavesAlone(cpu, prog, saved.Keys) && budget > 0
    ensures var o := Await(cpu, Plant(prog, saved.Keys), false, budget);
            var step := Execute(cpu, prog);
            && SavedFrom(step.next, saved)
            && if Quiet(cpu, prog, saved.Keys)
               then o == Await(cpu, Plant(step.next, saved.Keys), false, budget - 1)
               else EndsAt(cpu, saved, prog, o) && o.event.Some?
  {
    OwnBytesSurvive(cpu, prog, saved);
    if Hits(prog, saved.Keys) {
      assert prog.ctx.rip in saved.Keys;
    } else {
      assert saved.Keys - Fetches(prog) == saved.Keys;
      StepCommutes(cpu, prog, saved);
    }
  }

  lemma FirstStopAfterQuiet(cpu: Processor, prog: State, at: set<nat>, m: nat)
    requires Quiet(cpu, prog, at) && FirstStop(cpu, Execute(cpu, prog).next, at, m)
    ensures FirstStop(cpu, prog, at, m + 1)
  {
    forall k: nat | k <= m
      ensures Quiet(cpu, FreeRun(cpu, prog, k), at)
    {
      if k > 0 {
        assert Quiet(cpu, FreeRun(cpu, Execute(cpu, prog).next, k - 1), at);
      }
    }
  }

  /** Running under the debugger follows the program to the first breakpoint or event. */
  lemma {:induction false} AwaitFollowsProgram(cpu: Processor, saved: map<nat, Byte>, prog: State, budget: nat)
    returns (n: nat)
    requires SavedFrom(prog, saved) && RunLeavesAlone(cpu, prog, saved.Keys)
    requires Await(cpu, Plant(prog, saved.Keys), false, budget).event.Some?
    ensures budget > 0 && FirstStop(cpu, prog, saved.Keys, n)
    ensures EndsAt(cpu, saved, FreeRun(cpu, prog, n), Await(cpu, Plant(prog, saved.Keys), false, budget))
    decreases budget
  {
    assert LeavesAlone(cpu, FreeRun(cpu, prog, 0), saved.Keys);
    n := 0;
    AwaitOne(cpu, saved, prog, budget);
    if Quiet(cpu, prog, saved.Keys) {
      var next := Execute(cpu, prog).next;
      assert FreeRun(cpu, prog, 1) == next;
      LaterRunLeavesAlone(cpu, prog, saved.Keys, 1);
      var m := AwaitFollowsProgram(cpu, saved, next, budget - 1);
      FirstStopAfterQuiet(cpu, prog, saved.Keys, m);
      n := m + 1;
    }
  }

  /** What a debugger is shown of the program's run. `covered` is an event no reply
      tells of. */
  datatype Sight =
    | Hit(pc: Word64, covered: Option<DebugEvent>)
    | Noticed(event: DebugEvent)
    | Stepped(pc: Word64, covered: Option<DebugEvent>)

  function AnswerTo(sight: Sight): StopReply {
    match sight
    case Hit(pc, _) => StopReply(StopBreakpoint, -0x7FFF_FFFD, pc)
    case Noticed(event) => ReplyFor(Described(event))
    case Stepped(pc, covered) =>
      StopReply(StopSingleStep, 0, if covered.Some? then Described(covered.value).address else pc)
  }

  /** The answers, spelled out. */
  lemma SightsAreTold(sight: Sight)
    ensures match sight
            case Hit(pc, _) => AnswerTo(sight) == StopReply(StopBreakpoint, 0x8000_0003 - 0x1_0000_0000, pc)
            case Noticed(event) => TellsOf(AnswerTo(sight), event)
            case Stepped(pc, None) => AnswerTo(sight) == StopReply(StopSingleStep, 0, pc)
            case Stepped(_, Some(ExceptionRaised(_, address))) => AnswerTo(sight) == StopReply(StopSingleStep, 0, address)
            case Stepped(_, Some(DllLoaded(base))) => AnswerTo(sight) == StopReply(StopSingleStep, 0, base)
            case Stepped(_, Some(_)) => AnswerTo(sight) == StopReply(StopSingleStep, 0, 0)
  {
  }

  /** What `cont` shows of a program that stops here. */
  ghost function SeenAt(cpu: Processor, p: State, at: set<nat>): Sight
    requires !Quiet(cpu, p, at)
  {
    if Hits(p, at) then Hit(p.ctx.rip, Execute(cpu, p).event) else Noticed(Execute(cpu, p).event.value)
  }

  lemma SeenIsTold(cpu: Processor, p: State, at: set<nat>)
    requires !Quiet(cpu, p, at)
    ensures var reply := AnswerTo(SeenAt(cpu, p, at));
            if p.raised == None && p.ctx.rip in at
            then reply == StopReply(StopBreakpoint, 0x8000_0003 - 0x1_0000_0000, p.ctx.rip)
            else Execute(cpu, p).event.Some? && TellsOf(reply, Execute(cpu, p).event.value)
  {
    assert Hits(p, at) <==> p.raised == None && p.ctx.rip in at by {
      assert p.ctx.rip in at ==> p.ctx.rip in {p.ctx.rip} * at;
    }
    SightsAreTold(SeenAt(cpu, p, at));
  }

  /** A stop for an event of the program that only looks like a hit: a breakpoint
      exception it raises itself, naming a planted address. */
  ghost predicate LooksLikeHit(cpu: Processor, s: State, at: set<nat>) {
    && !Hits(s, at) && RaisesTrap(cpu, s)
    && Described(Execute(cpu, s).event.value).kind.Breakpoint? && Execute(cpu, s).event.value.address in at
  }

  /** The target when a resumed program has stopped at step `n` of its run. */
  lemma StoppedAtFirst(cpu: Processor, saved: map<nat, Byte>, prog: State, t: Target, budget: nat)
    returns (n: nat)
    requires Stopped(t) && Shadows(prog, saved, OnResume(t)) && RunLeavesAlone(cpu, prog, saved.Keys)
    requires Resuming(t).1 && Waiting(cpu, Resuming(t).0, budget).1.Some?
    ensures budget > 0 && FirstStop(cpu, prog, saved.Keys, n)
    ensures var p := FreeRun(cpu, prog, n);
            var (t', event) := Waiting(cpu, Resuming(t).0, budget);
            && Stopped(t') && t'.pending == event
            && LeavesAlone(cpu, p, saved.Keys) && SavedFrom(Execute(cpu, p).next, saved)
            && FreeRun(cpu, prog, n + 1) == Execute(cpu, p).next
            && t'.script == Later(Later(t.script))
            && EndsAt(cpu, saved, p, Outcome(t'.state, event))
  {
    n := AwaitFollowsProgram(cpu, saved, prog, budget);
    var p := FreeRun(cpu, prog, n);
    assert LeavesAlone(cpu, p, saved.Keys);
    OwnBytesSurvive(cpu, p, saved);
    FreeRunAppends(cpu, prog, n, 1);
    assert FreeRun(cpu, p, 1) == Execute(cpu, p).next;
  }

  /** A breakpoint exception of the program's own that names a planted address is handled
      like a hit; whatever is pending afterwards, it is not that exception. */
  lemma FalseHitIsHandled(cpu: Processor, saved: map<nat, Byte>, t: Target, budget: nat)
    requires Stopped(t) && IsTrap(t.pending.value) && budget > 0
    requires t.pending.value.address in saved && t.pending.value.address in t.state.mem
    ensures var e := Described(t.pending.value);
            var (t', reply) := StepOver(cpu, saved[e.address], t, e, budget);
            reply.Some? ==> reply == Some(ReplyFor(e)) && Stopped(t') && OnResume(t').raised != t.pending
  {
    var e := Described(t.pending.value);
    StepOverUnfolds(cpu, saved[e.address], t, e, budget);
  }

  /** Debugging does not change what the program computes. A successful `cont` takes the
      program, seen through the planted bytes, at least one step further along its own
      run, past the first breakpoint or event on the way, and reports that. It does so
      exactly if the program raises no breakpoint or single-step exception of its own
      there: resuming takes such an exception for the debugger's and never delivers it. */
  lemma ContinueIsTransparentIffNoTrap(cpu: Processor, saved: map<nat, Byte>, prog: State, t: Target, budget: nat)
    returns (n: nat)
    requires Stopped(t) && Shadows(prog, saved, OnResume(t)) && RunLeavesAlone(cpu, prog, saved.Keys)
    requires Continue(cpu, saved, t, budget).1.Some?
    ensures FirstStop(cpu, prog, saved.Keys, n)
    ensures var (t', reply) := Continue(cpu, saved, t, budget);
            var p := FreeRun(cpu, prog, n);
            && Stopped(t') && reply == Some(AnswerTo(SeenAt(cpu, p, saved.Keys)))
            && (Shadows(FreeRun(cpu, prog, n + 1), saved, OnResume(t')) <==> !RaisesTrap(cpu, p))
  {
    n := StoppedAtFirst(cpu, saved, prog, t, budget);
    var p := FreeRun(cpu, prog, n);
    var next := Execute(cpu, p).next;
    var (t2, event) := Waiting(cpu, Resuming(t).0, budget);
    var t' := Continue(cpu, saved, t, budget).0;
    if Hits(p, saved.Keys) {
      HitIsHandled(cpu, saved, p, t2, budget);
      ResumeKeepsAllButTraps(next, saved, t', t'.pending.value);
    } else if LooksLikeHit(cpu, p, saved.Keys) {
      FalseHitIsHandled(cpu, saved, t2, budget);
    } else {
      assert t2.state.(raised := None).mem == Plant(next.(raised := None), saved.Keys).mem;
      ResumeKeepsAllButTraps(next, saved, t2, event.value);
    }
  }

  /** What a successful `cont` answers, for every event a program can stop at: a hit by its
      address, anything else by what the host raised. */
  lemma ContinueTellsOfStop(cpu: Processor, saved: map<nat, Byte>, prog: State, t: Target, budget: nat)
    returns (n: nat)
    requires Stopped(t) && Shadows(prog, saved, OnResume(t)) && RunLeavesAlone(cpu, prog, saved.Keys)
    requires Continue(cpu, saved, t, budget).1.Some?
    ensures FirstStop(cpu, prog, saved.Keys, n)
    ensures var reply := Continue(cpu, saved, t, budget).1.value;
            var p := FreeRun(cpu, prog, n);
            if p.raised == None && p.ctx.rip in saved.Keys
            then reply == StopReply(StopBreakpoint, 0x8000_0003 - 0x1_0000_0000, p.ctx.rip)
            else Execute(cpu, p).event.Some? && TellsOf(reply, Execute(cpu, p).event.value)
  {
    n := ContinueIsTransparentIffNoTrap(cpu, saved, prog, t, budget);
    SeenIsTold(cpu, FreeRun(cpu, prog, n), saved.Keys);
  }

  /** Somewhere in its next `budget` steps the program meets a breakpoint or an event. */
  ghost predicate StopsWithin(cpu: Processor, prog: State, at: set<nat>, budget: nat) {
    exists k: nat :: k < budget && !Quiet(cpu, FreeRun(cpu, prog, k), at)
  }

  lemma {:induction false} AwaitSucceedsIffStops(cpu: Processor, saved: map<nat, Byte>, prog: State, budget: nat)
    requires SavedFrom(prog, saved) && RunLeavesAlone(cpu, prog, saved.Keys)
    ensures Await(cpu, Plant(prog, saved.Keys), false, budget).event.Some? <==>
            StopsWithin(cpu, prog, saved.Keys, budget)
    decreases budget
  {
    if budget > 0 {
      assert LeavesAlone(cpu, FreeRun(cpu, prog, 0), saved.Keys);
      AwaitOne(cpu, saved, prog, budget);
      if Quiet(cpu, prog, saved.Keys) {
        var next := Execute(cpu, prog).next;
        assert FreeRun(cpu, prog, 1) == next;
        LaterRunLeavesAlone(cpu, prog, saved.Keys, 1);
        AwaitSucceedsIffStops(cpu, saved, next, budget - 1);
        if StopsWithin(cpu, next, saved.Keys, budget - 1) {
          var k: nat :| k < budget - 1 && !Quiet(cpu, FreeRun(cpu, next, k), saved.Keys);
          assert FreeRun(cpu, prog, k + 1) == FreeRun(cpu, next, k);
        }
        if StopsWithin(cpu, prog, saved.Keys, budget) {
          var k: nat :| k < budget && !Quiet(cpu, FreeRun(cpu, prog, k), saved.Keys);
          assert k > 0 && FreeRun(cpu, prog, k) == FreeRun(cpu, next, k - 1);
        }
      } else {
        assert FreeRun(cpu, prog, 0) == prog;
      }
    }
  }

  lemma StopIsHandled(cpu: Processor, saved: map<nat, Byte>, p: State, t: Target, budget: nat)
    requires LeavesAlone(cpu, p, saved.Keys) && Stopped(t) && Smooth(t.script) && budget > 0
    requires EndsAt(cpu, saved, p, Outcome(t.state, t.pending)) && !LooksLikeHit(cpu, p, saved.Keys)
    ensures var e := Described(t.pending.value);
            e.kind.Breakpoint? && e.address in saved ==> StepOver(cpu, saved[e.address], t, e, budget).1.Some?
  {
    if Hits(p, saved.Keys) {
      HitIsHandled(cpu, saved, p, t, budget);
    }
  }

  /** With every host call granted, `cont` succeeds exactly when the program has something
      to stop for within the wait. */
  lemma ContinueSucceedsIffStops(cpu: Processor, saved: map<nat, Byte>, prog: State, t: Target, budget: nat)
    requires Stopped(t) && Shadows(prog, saved, OnResume(t)) && RunLeavesAlone(cpu, prog, saved.Keys)
    requires forall k: nat :: !LooksLikeHit(cpu, FreeRun(cpu, prog, k), saved.Keys)
    requires Smooth(t.script)
    ensures Continue(cpu, saved, t, budget).1.Some? <==> StopsWithin(cpu, prog, saved.Keys, budget)
  {
    AwaitSucceedsIffStops(cpu, saved, prog, budget);
    var (t2, event) := Waiting(cpu, Resuming(t).0, budget);
    if event.Some? {
      var n := StoppedAtFirst(cpu, saved, prog, t, budget);
      StopIsHandled(cpu, saved, FreeRun(cpu, prog, n), t2, budget);
    }
  }

  // ---------- transparency of `step` ----------

  /** After `step` the debuggee, seen through the planted bytes, is one step further along
      the program's run. */
  ghost predicate StepFollows(cpu: Processor, saved: map<nat, Byte>, prog: State, t: Target, budget: nat) {
    var (t', reply) := SingleStepping(cpu, t, budget);
    reply.Some? && Stopped(t') && Shadows(Execute(cpu, prog).next, saved, OnResume(t'))
  }

  /** The target after a granted `step`. */
  lemma StepUnfolds(cpu: Processor, t: Target, budget: nat)
    requires Stopped(t) && SingleStepping(cpu, t, budget).1.Some?
    ensures var (t', reply) := SingleStepping(cpu, t, budget);
            var o := Trapped(Execute(cpu, Continued(t.state, t.pending.value, true)));
            && budget > 0 && t'.state == o.next && t'.pending == o.event && Stopped(t')
            && reply == Some(StopReply(StopSingleStep, 0, Described(o.event.value).address))
  {
  }

  lemma SmoothStepSucceeds(cpu: Processor, t: Target, budget: nat)
    requires Stopped(t) && Smooth(t.script) && budget > 0
    ensures SingleStepping(cpu, t, budget).1.Some?
  {
  }

  /** With no exception waiting for the program, `step` moves the program on by one step
      exactly when that raises no trap of its own and the instruction is not planted, or
      is a one-byte no-operation, which a hit looks like. */
  lemma StepIsTransparentIffUnplanted(cpu: Processor, saved: map<nat, Byte>, prog: State, t: Target, budget: nat)
    requires Stopped(t) && Shadows(prog, saved, OnResume(t)) && LeavesAlone(cpu, prog, saved.Keys)
    requires !LeftToProgram(t.pending.value)
    requires SingleStepping(cpu, t, budget).1.Some?
    ensures var next := Execute(cpu, prog).next;
            var pc := prog.ctx.rip;
            StepFollows(cpu, saved, prog, t, budget) <==>
              !RaisesTrap(cpu, prog) && (pc !in saved || next == WithRip(prog, ByteAfter(pc)))
  {
    var next := Execute(cpu, prog).next;
    var pc := prog.ctx.rip;
    var (t', _) := SingleStepping(cpu, t, budget);
    StepUnfolds(cpu, t, budget);
    OwnBytesSurvive(cpu, prog, saved);
    assert prog.raised.None?;
    if pc !in saved {
      assert saved.Keys - {pc} == saved.Keys;
      StepCommutes(cpu, prog, saved);
      assert t'.state.(raised := None).mem == Plant(next.(raised := None), saved.Keys).mem;
      ResumeKeepsAllButTraps(next, saved, t', t'.pending.value);
    } else if StepFollows(cpu, saved, prog, t, budget) {
      assert next.ctx == WithRip(prog, ByteAfter(pc)).ctx;
      assert Plant(next, saved.Keys).mem == Plant(prog, saved.Keys).mem;
      assert next.mem.Keys == Plant(next, saved.Keys).mem.Keys == prog.mem.Keys;
      forall a | a in prog.mem
        ensures next.mem[a] == prog.mem[a]
      {
        assert a !in saved ==> Plant(next, saved.Keys).mem[a] == next.mem[a];
      }
    }
  }

  /** A processor that tells apart what `step` mixes up: the delivery of an exception stays
      where it is, an instruction goes on by two bytes, a trap by one. */
  function TwoByteSteps(s: State): Outcome {
    Outcome(if s.raised.Some? then s else WithRip(s, ByteAfter(ByteAfter(s.ctx.rip))), None)
  }

  /** With an exception pending, `step` continues as if it had been handled: the faulting
      instruction runs again instead of the program's handler. */
  lemma StepTakesExceptionAway(saved: map<nat, Byte>, prog: State, t: Target, budget: nat)
    requires Stopped(t) && Shadows(prog, saved, OnResume(t)) && LeftToProgram(t.pending.value)
    ensures LeavesAlone(TwoByteSteps, prog, saved.Keys) && !RaisesTrap(TwoByteSteps, prog)
    ensures !StepFollows(TwoByteSteps, saved, prog, t, budget)
  {
    if SingleStepping(TwoByteSteps, t, budget).1.Some? {
      StepUnfolds(TwoByteSteps, t, budget);
    }
  }

  /** `step` is safe, whatever the processor does, exactly when no exception is waiting for
      the program and no breakpoint is planted over another byte here. */
  lemma StepIsSafeIff(saved: map<nat, Byte>, prog: State, t: Target, budget: nat)
    requires Stopped(t) && Shadows(prog, saved, OnResume(t)) && Smooth(t.script) && budget > 0
    ensures (forall cpu: Processor :: LeavesAlone(cpu, prog, saved.Keys) && !RaisesTrap(cpu, prog) ==>
               StepFollows(cpu, saved, prog, t, budget)) <==>
            !LeftToProgram(t.pending.value) && (prog.ctx.rip in saved ==> saved[prog.ctx.rip] == 0xCC)
  {
    var pc := prog.ctx.rip;
    if LeftToProgram(t.pending.value) {
      StepTakesExceptionAway(saved, prog, t, budget);
    } else {
      forall cpu: Processor | LeavesAlone(cpu, prog, saved.Keys) && !RaisesTrap(cpu, prog)
        ensures StepFollows(cpu, saved, prog, t, budget) <==>
                pc !in saved || Execute(cpu, prog).next == WithRip(prog, ByteAfter(pc))
      {
        SmoothStepSucceeds(cpu, t, budget);
        StepIsTransparentIffUnplanted(cpu, saved, prog, t, budget);
      }
      if pc in saved && saved[pc] != INT3 {
        assert LeavesAlone(TwoByteSteps, prog, saved.Keys) && !RaisesTrap(TwoByteSteps, prog);
      }
    }
  }

  // ---------- planting and removing ----------

  /** Planting keeps the books straight exactly when the address was not planted already,
      or the program's byte there was 0xCC anyway: a second plant saves the first one's
      0xCC as if it were the program's. */
  lemma PlantingIsSoundIffNew(saved: map<nat, Byte>, prog: State, t: Target, addr: nat)
    requires t.pending.Some? && Shadows(prog, saved, OnResume(t)) && Planting(saved, t, addr).2
    ensures var (saved', t', _) := Planting(saved, t, addr);
            && t' == t.(state := t'.state, script := t'.script)
            && (Shadows(prog, saved', OnResume(t')) <==> addr !in saved || prog.mem[addr] == 0xCC)
    ensures Planting(saved, t, addr).0.Keys == saved.Keys + {addr}
  {
    WritesOneByte(Called(t), addr, INT3);
    var (saved', t', ok) := Planting(saved, t, addr);
    assert t'.state.mem == Plant(prog, saved'.Keys).mem;
  }

  /** A plant that fails after reading the byte has recorded it all the same: the books
      are then right only if the 0xCC got written to a new address before the failure, or
      the program has 0xCC there. */
  lemma FailedPlantLeavesRecord(saved: map<nat, Byte>, prog: State, t: Target, addr: nat)
    requires t.pending.Some? && Shadows(prog, saved, OnResume(t)) && t.attached && addr in t.state.mem
    requires Answer(t.script).Granted? && !Planting(saved, t, addr).2
    ensures var (saved', t', _) := Planting(saved, t, addr);
            && addr in saved'
            && (Shadows(prog, saved', OnResume(t')) <==>
                  prog.mem[addr] == 0xCC ||
                  (addr !in saved && BytesWritten(Answer(Later(t.script)), 1) == 1))
  {
    WritesOneByte(Called(t), addr, INT3);
    var (saved', t', ok) := Planting(saved, t, addr);
    if prog.mem[addr] == 0xCC || (addr !in saved && BytesWritten(Answer(Later(t.script)), 1) == 1) {
      assert t'.state.mem == Plant(prog, saved'.Keys).mem;
    } else {
      assert addr in saved ==> saved'[addr] == INT3;
      assert addr !in saved ==> t.state.mem[addr] != INT3;
    }
  }

  lemma RemovingIsSound(saved: map<nat, Byte>, prog: State, t: Target, addr: nat)
    requires t.pending.Some? && Shadows(prog, saved, OnResume(t)) && Removing(saved, t, addr).2
    ensures var (saved', t', _) := Removing(saved, t, addr);
            && t' == t.(state := t'.state, script := t'.script)
            && Shadows(prog, saved', OnResume(t')) && saved'.Keys == saved.Keys - {addr}
  {
    WritesOneByte(t, addr, saved[addr]);
    var (saved', t', ok) := Removing(saved, t, addr);
    assert t'.state.mem == Plant(prog, saved'.Keys).mem;
  }

  /** With no breakpoint left the debuggee is the program again. */
  lemma NothingPlantedIsOriginal(prog: State, s: State)
    requires Shadows(prog, map[], s)
    ensures s == prog
  {
    assert Plant(prog, {}).mem == prog.mem;
  }
}
