/** An abstract single-threaded debuggee under the host's debug interface: one register
    context, one byte memory, at most one exception the program has not been handed yet,
    and at most one pending debug event. */
module Debuggees {
  import opened Octets
  import opened Outcomes
  import opened HostCalls
  import opened RegisterBlock

  const INT3: Byte := 0xCC
  const EXCEPTION_BREAKPOINT: Word32 := 0x8000_0003
  const EXCEPTION_SINGLE_STEP: Word32 := 0x8000_0004

  /** A debug event as the host reports it. */
  datatype DebugEvent =
    | ExceptionRaised(code: Word32, address: Word64)
    | ProcessExited(exitCode: Word32)
    | DllLoaded(base: Word64)
    | OtherDebugEvent

  datatype EventKind = Breakpoint | SingleStep | Exception | ExitProcess | LoadModule | Other
  datatype Event = Event(kind: EventKind, address: Word64, code: Word32)

  /** What a wait says of a debug event. */
  function Described(de: DebugEvent): Event {
    match de
    case ExceptionRaised(code, address) =>
      Event(if code == EXCEPTION_BREAKPOINT then Breakpoint
            else if code == EXCEPTION_SINGLE_STEP then SingleStep else Exception, address, code)
    case ProcessExited(exitCode) => Event(ExitProcess, 0, exitCode)
    case DllLoaded(base) => Event(LoadModule, base, 0)
    case OtherDebugEvent => Event(Other, 0, 0)
  }

  /** A breakpoint or single-step exception: what a debugger raises, and a program may. */
  predicate IsTrap(de: DebugEvent) {
    de.ExceptionRaised? && (de.code == EXCEPTION_BREAKPOINT || de.code == EXCEPTION_SINGLE_STEP)
  }

  /** An exception `resume` leaves to the program: continued as not handled. */
  predicate LeftToProgram(de: DebugEvent) {
    de.ExceptionRaised? && !IsTrap(de)
  }

  type Memory = map<nat, Byte>

  /** What the processor works on; `raised` is an exception on its way to the program. */
  datatype State = State(ctx: Context, mem: Memory, raised: Option<DebugEvent>)

  /** The state after one step, and the debug event it raised, if any. */
  datatype Outcome = Outcome(next: State, event: Option<DebugEvent>)

  /** The processor and the program's operating system: one instruction other than a
      one-byte breakpoint trap, or the delivery of a raised exception. */
  type Processor = State -> Outcome

  /** The address one byte further on. */
  function ByteAfter(pc: Word64): Word64 {
    (pc + 1) % 0x1_0000_0000_0000_0000
  }

  function RaisedBy(event: Option<DebugEvent>): Option<DebugEvent> {
    if event.Some? && event.value.ExceptionRaised? then event else None
  }

  /** One step of the program: a 0xCC at the instruction pointer traps with the pointer
      already behind it; anything else is up to the processor. An exception is on its way
      to the program until a later step delivers it or a debugger takes it away. */
  function Execute(cpu: Processor, s: State): (o: Outcome)
    ensures o.next.raised == RaisedBy(o.event)
  {
    var pc := s.ctx.rip;
    if s.raised.None? && pc in s.mem && s.mem[pc] == 0xCC then
      var trap := Some(ExceptionRaised(0x8000_0003, pc));
      Outcome(s.(ctx := s.ctx.(rip := ByteAfter(pc)), raised := trap), trap)
    else
      var o := cpu(s);
      Outcome(o.next.(raised := RaisedBy(o.event)), o.event)
  }

  /** The same step with the trap flag set: if it raises nothing itself, it ends in a
      single-step exception. */
  function Trapped(o: Outcome): Outcome {
    if o.event.Some? then o else
      var trap := Some(ExceptionRaised(0x8000_0004, o.next.ctx.rip));
      Outcome(o.next.(raised := trap), trap)
  }

  /** Runs until an event, for at most `budget` steps. */
  function Await(cpu: Processor, s: State, trap: bool, budget: nat): (o: Outcome)
    ensures o.event.Some? ==> o.next.raised == RaisedBy(o.event)
    decreases budget
  {
    if budget == 0 then Outcome(s, None) else
      var o := Execute(cpu, s);
      if trap then Trapped(o)
      else if o.event.Some? then o
      else Await(cpu, o.next, false, budget - 1)
  }

  /** All of `addr` to `addr + len` lies in `at`. */
  predicate Within(at: set<nat>, addr: nat, len: nat): (r: bool)
    ensures len == 1 ==> (r <==> addr in at)
  {
    len == 0 || (addr + len - 1 in at && Within(at, addr, len - 1))
  }

  function Fetched(mem: Memory, addr: nat, len: nat): (b: seq<Byte>)
    requires Within(mem.Keys, addr, len)
    ensures |b| == len
    ensures len == 1 ==> addr in mem && b[0] == mem[addr]
  {
    if len == 0 then [] else Fetched(mem, addr, len - 1) + [mem[addr + len - 1]]
  }

  function Stored(mem: Memory, addr: nat, data: seq<Byte>): (m: Memory)
    ensures |data| == 1 ==> m == mem[addr := data[0]]
  {
    if data == [] then mem
    else Stored(mem, addr, data[..|data| - 1])[addr + |data| - 1 := data[|data| - 1]]
  }

  lemma {:induction false} WithinMeans(at: set<nat>, addr: nat, len: nat)
    ensures Within(at, addr, len) <==> forall a :: addr <= a < addr + len ==> a in at
  {
    if len > 0 {
      WithinMeans(at, addr, len - 1);
    }
  }

  /** A read returns the bytes in order. */
  lemma {:induction false} FetchedAt(mem: Memory, addr: nat, len: nat, i: nat)
    requires Within(mem.Keys, addr, len) && i < len
    ensures addr + i in mem && Fetched(mem, addr, len)[i] == mem[addr + i]
  {
    if i < len - 1 {
      FetchedAt(mem, addr, len - 1, i);
    }
  }

  /** A write stores the bytes in order and touches nothing else. */
  lemma {:induction false} StoredAt(mem: Memory, addr: nat, data: seq<Byte>, a: nat)
    ensures var m := Stored(mem, addr, data);
            if addr <= a < addr + |data| then a in m && m[a] == data[a - addr]
            else (a in m <==> a in mem) && (a in mem ==> m[a] == mem[a])
    decreases |data|
  {
    if data != [] {
      StoredAt(mem, addr, data[..|data| - 1], a);
    }
  }

  /** What is written is read back, whatever its length. */
  lemma WrittenIsReadBack(mem: Memory, addr: nat, data: seq<Byte>)
    ensures var m := Stored(mem, addr, data);
            Within(m.Keys, addr, |data|) && Fetched(m, addr, |data|) == data
  {
    var m := Stored(mem, addr, data);
    forall a: nat ensures addr <= a < addr + |data| ==> a in m {
      StoredAt(mem, addr, data, a);
    }
    WithinMeans(m.Keys, addr, |data|);
    forall i | 0 <= i < |data| ensures Fetched(m, addr, |data|)[i] == data[i] {
      FetchedAt(m, addr, |data|, i);
      StoredAt(mem, addr, data, addr + i);
    }
  }

  // ---------- the debug interface as functions ----------

  /** The debuggee, and what the host will answer to the calls to come. */
  datatype Target = Target(state: State, attached: bool, pending: Option<DebugEvent>, trap: bool,
                           script: seq<HostResult>)

  /** The target after one host call that changes nothing. */
  function Called(t: Target): Target {
    t.(script := Later(t.script))
  }

  /** Continuing from a debug event: an exception continued as handled is gone, one
      continued as not handled goes on to the program. */
  function Continued(s: State, de: DebugEvent, handled: bool): State {
    if de.ExceptionRaised? && handled then s.(raised := None) else s
  }

  function Resuming(t: Target): (Target, bool) {
    if t.pending.None? then (t, false)
    else if !Answer(t.script).Granted? then (Called(t), false)
    else
      var de := t.pending.value;
      (Called(t).(state := Continued(t.state, de, !LeftToProgram(de)), pending := None), true)
  }

  /** Sets the trap flag, then continues; any exception counts as handled. */
  function ResumingForStep(t: Target): (Target, bool) {
    if t.pending.None? then (t, false) else
      match Answer(t.script)
      case Granted =>
        (Called(t).(state := Continued(t.state, t.pending.value, true), pending := None, trap := true), true)
      case Refused => (Called(t), false)
      case Broken(_) => (Called(t).(trap := true), false)
  }

  /** Lets the target run to its next event. */
  function Waiting(cpu: Processor, t: Target, budget: nat): (Target, Option<DebugEvent>) {
    if !t.attached then (t, None)
    else if t.pending.Some? || !Answer(t.script).Granted? then (Called(t), None)
    else
      var o := Await(cpu, t.state, t.trap, budget);
      (Called(t).(state := o.next, pending := o.event, trap := t.trap && o.event.None?), o.event)
  }

  /** How many of `len` bytes a write to mapped memory stores. */
  function BytesWritten(answer: HostResult, len: nat): (n: nat)
    ensures n <= len
  {
    match answer
    case Granted => len
    case Refused => 0
    case Broken(done) => if done < len then done else len
  }

  /** A write to memory that is mapped throughout; it may fail with bytes written, if it
      stops half-way or the instruction cache is not flushed. */
  function Writing(t: Target, addr: nat, data: seq<Byte>): (Target, bool) {
    if !t.attached then (t, false)
    else if !Within(t.state.mem.Keys, addr, |data|) then (Called(t), false)
    else
      var mem := Stored(t.state.mem, addr, data[..BytesWritten(Answer(t.script), |data|)]);
      (Called(t).(state := t.state.(mem := mem)), Answer(t.script).Granted?)
  }

  /** A write succeeds exactly when attached, mapped throughout and granted. Then every byte
      is in place; after a failure the first few are, or none; nothing else ever changes. */
  lemma WritingSucceedsIff(t: Target, addr: nat, data: seq<Byte>) returns (n: nat)
    ensures var (t', ok) := Writing(t, addr, data);
            && (ok <==> t.attached && Answer(t.script).Granted? &&
                        forall a :: addr <= a < addr + |data| ==> a in t.state.mem)
            && n <= |data| && (ok ==> n == |data|) && (Answer(t.script).Refused? ==> n == 0 || ok)
            && t' == t.(script := t'.script, state := t.state.(mem := t'.state.mem))
            && forall a: nat :: if addr <= a < addr + n then a in t'.state.mem && t'.state.mem[a] == data[a - addr]
                                else (a in t'.state.mem <==> a in t.state.mem) &&
                                     (a in t.state.mem ==> t'.state.mem[a] == t.state.mem[a])
  {
    WithinMeans(t.state.mem.Keys, addr, |data|);
    n := 0;
    if t.attached && Within(t.state.mem.Keys, addr, |data|) {
      n := BytesWritten(Answer(t.script), |data|);
      forall a: nat {
        StoredAt(t.state.mem, addr, data[..n], a);
      }
    }
  }

  /** A wait that cannot be made, is refused, or finds the target stopped gives no event and
      leaves the target as it is. */
  lemma WaitingFailsIf(cpu: Processor, t: Target, budget: nat)
    ensures !t.attached ==> Waiting(cpu, t, budget) == (t, None)
    ensures t.attached && (t.pending.Some? || !Answer(t.script).Granted?) ==>
              Waiting(cpu, t, budget) == (t.(script := Later(t.script)), None)
    ensures budget == 0 ==> Waiting(cpu, t, budget).1 == None
  {
  }

  class Debuggee {
    const cpu: Processor
    var state: State
    var attached: bool
    /** The debug event between a wait and the next resume. */
    var pending: Option<DebugEvent>
    var trap: bool
    /** What the host answers to the calls to come. */
    var script: seq<HostResult>

    constructor (cpu: Processor, t: Target)
      ensures this.cpu == cpu && View() == t
    {
      this.cpu := cpu;
      state, attached, pending, trap, script := t.state, t.attached, t.pending, t.trap, t.script;
    }

    ghost function View(): Target
      reads this
    {
      Target(state, attached, pending, trap, script)
    }

    method Call() returns (answer: HostResult)
      modifies this`script
      ensures answer == Answer(old(script)) && script == Later(old(script))
    {
      answer, script := Answer(script), Later(script);
    }

    method Resume() returns (r: Result<()>)
      modifies this
      ensures (View(), r.Ok?) == Resuming(old(View()))
    {
      if pending.None? {
        return Err("resume: no pending debug event");
      }
      var handled := !LeftToProgram(pending.value);
      var answer := Call();
      if !answer.Granted? {
        return Err("ContinueDebugEvent failed");
      }
      state := Continued(state, pending.value, handled);
      pending := None;
      return Ok(());
    }

    method ResumeSingleStep() returns (r: Result<()>)
      modifies this
      ensures (View(), r.Ok?) == ResumingForStep(old(View()))
    {
      if pending.None? {
        return Err("resume_single_step: no pending debug event");
      }
      var answer := Call();
      if answer.Refused? {
        return Err("SetThreadContext failed");
      }
      trap := true;
      if !answer.Granted? {
        return Err("ContinueDebugEvent failed");
      }
      state := Continued(state, pending.value, true);
      pending := None;
      return Ok(());
    }

    /** Lets the target run until it stops with an event, or has run for `budget` steps. */
    method WaitEvent(budget: nat) returns (r: Result<Event>)
      modifies this
      ensures var (t, event) := Waiting(cpu, old(View()), budget);
              && View() == t && (r.Ok? <==> event.Some?)
              && (r.Ok? ==> r.value == Described(event.value))
    {
      if !attached {
        return Err("wait_event: not attached");
      }
      var answer := Call();
      if pending.Some? || !answer.Granted? {
        return Err("WaitForDebugEvent failed");
      }
      var left := budget;
      ghost var o := Await(cpu, state, trap, budget);
      while left > 0
        invariant Await(cpu, state, trap, left) == o
        invariant pending.None? && attached && trap == old(trap) && script == Later(old(script))
      {
        var step := Execute(cpu, state);
        if trap {
          step := Trapped(step);
        }
        state := step.next;
        if step.event.Some? {
          pending, trap := step.event, false;
          return Ok(Described(step.event.value));
        }
        left := left - 1;
      }
      return Err("WaitForDebugEvent failed");
    }

    method ReadRegisters() returns (r: Result<seq<Byte>>)
      modifies this`script
      ensures View() == Called(old(View())) && (r.Ok? <==> Answer(old(script)).Granted?)
      ensures r.Ok? ==> Carries(r.value, state.ctx)
    {
      var answer := Call();
      if !answer.Granted? {
        return Err("GetThreadContext failed");
      }
      var block := ContextToBlock(state.ctx);
      return Ok(block);
    }

    method WriteRegisters(block: seq<Byte>) returns (r: Result<()>)
      modifies this`state, this`script
      ensures |block| < BLOCK_SIZE ==> r.Err? && View() == old(View())
      ensures |block| >= BLOCK_SIZE ==>
                && script == Later(old(script)) && (r.Ok? <==> Answer(old(script)).Granted?)
                && state == if r.Ok? then old(state).(ctx := BlockToContext(block, old(state).ctx)) else old(state)
    {
      if |block| < BLOCK_SIZE {
        return Err("write_registers: block too small");
      }
      var answer := Call();
      if !answer.Granted? {
        return Err("SetThreadContext failed");
      }
      state := state.(ctx := BlockToContext(block, state.ctx));
      return Ok(());
    }

    method ReadMemory(addr: nat, len: nat) returns (r: Result<seq<Byte>>)
      modifies this`script
      ensures View() == if attached then Called(old(View())) else old(View())
      ensures r.Ok? <==> attached && Answer(old(script)).Granted? && Within(state.mem.Keys, addr, len)
      ensures r.Ok? ==> r.value == Fetched(state.mem, addr, len)
    {
      if !attached {
        return Err("read_memory: not attached");
      }
      var answer := Call();
      if !answer.Granted? || !Within(state.mem.Keys, addr, len) {
        return Err("ReadProcessMemory failed");
      }
      return Ok(Fetched(state.mem, addr, len));
    }

    method WriteMemory(addr: nat, data: seq<Byte>) returns (r: Result<()>)
      modifies this`state, this`script
      ensures (View(), r.Ok?) == Writing(old(View()), addr, data)
    {
      if !attached {
        return Err("write_memory: not attached");
      }
      var answer := Call();
      if !Within(state.mem.Keys, addr, |data|) {
        return Err("WriteProcessMemory failed");
      }
      state := state.(mem := Stored(state.mem, addr, data[..BytesWritten(answer, |data|)]));
      if !answer.Granted? {
        return Err("write_memory failed");
      }
      return Ok(());
    }
  }
}
