/** The native backend's breakpoint and execution control over a debuggee. */
module NativeBackends {
  import opened Octets
  import opened Outcomes
  import opened RegisterBlock
  import opened Debuggees
  import opened SoftwareBreakpoints

  /** A result carries exactly the answer of the specification. */
  predicate Answers(r: Result<StopReply>, answer: Option<StopReply>) {
    match r
    case Ok(reply) => answer == Some(reply)
    case Err(_) => answer == None
  }

  class NativeBackend {
    var dbg: Debuggee?
    /** The program's byte under each planted breakpoint. */
    var swBpOrig: map<nat, Byte>

    constructor (dbg: Debuggee?)
      ensures this.dbg == dbg && swBpOrig == map[]
    {
      this.dbg, swBpOrig := dbg, map[];
    }

    ghost function View(): Target
      reads this, dbg
      requires dbg != null
    {
      dbg.View()
    }

    method SetSoftwareBreakpoint(addr: nat) returns (r: Result<()>)
      modifies this`swBpOrig, if dbg == null then {} else {dbg}
      ensures old(dbg) == null ==> r.Err? && swBpOrig == old(swBpOrig)
      ensures dbg != null ==> (swBpOrig, View(), r.Ok?) == Planting(old(swBpOrig), old(View()), addr)
    {
      if dbg == null {
        return Err("NativeBackend: set_breakpoint called without an attached target");
      }
      var original := dbg.ReadMemory(addr, 1);
      if original.Err? {
        return Err(original.error);
      }
      swBpOrig := swBpOrig[addr := original.value[0]];
      r := dbg.WriteMemory(addr, [INT3]);
    }

    method RemoveSoftwareBreakpoint(addr: nat) returns (r: Result<()>)
      modifies this`swBpOrig, if dbg == null then {} else {dbg}
      ensures old(dbg) == null ==> r.Err? && swBpOrig == old(swBpOrig)
      ensures dbg != null ==> (swBpOrig, View(), r.Ok?) == Removing(old(swBpOrig), old(View()), addr)
    {
      if dbg == null {
        return Err("NativeBackend: remove_breakpoint called without an attached target");
      }
      if addr !in swBpOrig {
        return Err("NativeBackend: no software breakpoint planted at address");
      }
      r := dbg.WriteMemory(addr, [swBpOrig[addr]]);
      if r.Ok? {
        swBpOrig := swBpOrig - {addr};
      }
    }

    /** Moves the instruction pointer through the register block. */
    method RewindTo(addr: Word64) returns (r: Result<()>)
      requires dbg != null
      modifies dbg
      ensures (View(), r.Ok?) == Rewinding(old(View()), addr)
    {
      var regs := dbg.ReadRegisters();
      if regs.Err? {
        return Err(regs.error);
      }
      RewindChangesOnlyRip(regs.value, dbg.state.ctx, addr);
      r := dbg.WriteRegisters(WriteRip(regs.value, addr));
    }

    method TranslateStopAndRearm(event: Event, budget: nat) returns (r: Result<StopReply>)
      requires dbg != null
      modifies dbg
      ensures var after := if event.kind.Breakpoint? && event.address in swBpOrig
                           then StepOver(dbg.cpu, swBpOrig[event.address], old(View()), event, budget)
                           else (old(View()), Some(ReplyFor(event)));
              View() == after.0 && Answers(r, after.1)
      ensures r.Ok? ==> Tells(r.value, event)
    {
      ReplyTells(event);
      if event.kind.Breakpoint? && event.address in swBpOrig {
        var original := swBpOrig[event.address];
        var rewound := RewindTo(event.address);
        if rewound.Err? {
          return Err(rewound.error);
        }
        var restore := dbg.WriteMemory(event.address, [original]);
        if restore.Err? {
          return Err(restore.error);
        }
        var step := dbg.ResumeSingleStep();
        if step.Err? {
          return Err(step.error);
        }
        var stepEvent := dbg.WaitEvent(budget);
        if stepEvent.Err? {
          return Err(stepEvent.error);
        }
        var rearm := dbg.WriteMemory(event.address, [INT3]);
        if rearm.Err? {
          return Err(rearm.error);
        }
      }
      return Ok(ReplyFor(event));
    }

    method Cont(budget: nat) returns (r: Result<StopReply>)
      modifies if dbg == null then {} else {dbg}
      ensures dbg == null ==> r.Err?
      ensures dbg != null ==>
                var after := Continue(dbg.cpu, swBpOrig, old(View()), budget);
                View() == after.0 && Answers(r, after.1)
      ensures dbg != null && r.Ok? ==>
                var event := Waiting(dbg.cpu, Resuming(old(View())).0, budget).1;
                event.Some? && TellsOf(r.value, event.value)
    {
      if dbg == null {
        return Err("NativeBackend: cont called without an attached target");
      }
      var resumed := dbg.Resume();
      if resumed.Err? {
        return Err(resumed.error);
      }
      var event := dbg.WaitEvent(budget);
      if event.Err? {
        return Err(event.error);
      }
      ghost var raised := dbg.pending;
      r := TranslateStopAndRearm(event.value, budget);
      ReplyTellsOf(raised.value);
    }

    method Step(budget: nat) returns (r: Result<StopReply>)
      modifies if dbg == null then {} else {dbg}
      ensures dbg == null ==> r.Err?
      ensures dbg != null ==>
                var after := SingleStepping(dbg.cpu, old(View()), budget);
                View() == after.0 && Answers(r, after.1)
      ensures r.Ok? ==> r.value.kind == StopSingleStep && r.value.signal == 0
    {
      if dbg == null {
        return Err("NativeBackend: step called without an attached target");
      }
      var stepped := dbg.ResumeSingleStep();
      if stepped.Err? {
        return Err(stepped.error);
      }
      var event := dbg.WaitEvent(budget);
      if event.Err? {
        return Err(event.error);
      }
      return Ok(StopReply(StopSingleStep, 0, event.value.address));
    }
  }
}
