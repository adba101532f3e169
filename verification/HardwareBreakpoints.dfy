/** Hardware execute breakpoints: slot allocation in the backend over DR0-DR3 and DR7. */
module HardwareBreakpoints {
  import opened Octets
  import opened Outcomes
  import opened HostCalls
  import opened Words

  datatype DebugRegisters = DebugRegisters(dr0: Word64, dr1: Word64, dr2: Word64, dr3: Word64, dr7: Word)

  function EnableBit(slot: int): nat
    requires 0 <= slot <= 3
  {
    ShiftLeft(1, 2 * slot)
  }

  function RwLenMask(slot: int): nat
    requires 0 <= slot <= 3
  {
    ShiftLeft(0xF, 16 + 4 * slot)
  }

  /** A condition or length bit of the slot. */
  predicate InNibble(i: nat, slot: int) {
    16 + 4 * slot <= i < 16 + 4 * slot + 4
  }

  function Address(regs: DebugRegisters, slot: int): Word64
    requires 0 <= slot <= 3
  {
    match slot case 0 => regs.dr0 case 1 => regs.dr1 case 2 => regs.dr2 case 3 => regs.dr3
  }

  function WithAddress(regs: DebugRegisters, slot: int, addr: Word64): DebugRegisters
    requires 0 <= slot <= 3
  {
    match slot
    case 0 => regs.(dr0 := addr)
    case 1 => regs.(dr1 := addr)
    case 2 => regs.(dr2 := addr)
    case 3 => regs.(dr3 := addr)
  }

  predicate Enabled(regs: DebugRegisters, slot: int)
    requires 0 <= slot <= 3
  {
    Bit(regs.dr7, 2 * slot)
  }

  /** Condition 00 and length 00: break on execution of one byte. */
  ghost predicate ExecuteOneByte(regs: DebugRegisters, slot: int)
    requires 0 <= slot <= 3
  {
    forall i: nat :: InNibble(i, slot) ==> !Bit(regs.dr7, i)
  }

  lemma {:induction false} ShiftGrows(j: nat, k: nat)
    requires j < k
    ensures ShiftLeft(1, j) < ShiftLeft(1, k)
    decreases k
  {
    if j < k - 1 {
      ShiftGrows(j, k - 1);
    }
  }

  lemma EnableBitFits(slot: int)
    requires 0 <= slot <= 3
    ensures EnableBit(slot) < ShiftLeft(1, 64)
  {
    ShiftGrows(2 * slot, 64);
  }

  /** DR7 for a slot that breaks on execution of one byte. */
  function EnabledControl(dr7: Word, slot: int): Word
    requires 0 <= slot <= 3
  {
    EnableBitFits(slot);
    OrStaysBelow(AndNot(dr7, RwLenMask(slot)), EnableBit(slot), 64);
    Or(AndNot(dr7, RwLenMask(slot)), EnableBit(slot))
  }

  function DisabledControl(dr7: Word, slot: int): Word
    requires 0 <= slot <= 3
  {
    AndNot(dr7, EnableBit(slot))
  }

  function Armed(regs: DebugRegisters, slot: int, addr: Word64): DebugRegisters
    requires 0 <= slot <= 3
  {
    WithAddress(regs, slot, addr).(dr7 := EnabledControl(regs.dr7, slot))
  }

  function Disarmed(regs: DebugRegisters, slot: int): DebugRegisters
    requires 0 <= slot <= 3
  {
    WithAddress(regs, slot, 0).(dr7 := DisabledControl(regs.dr7, slot))
  }

  /** Enabling sets the slot's enable bit, clears its nibble and keeps every other bit. */
  lemma BitOfEnabledControl(dr7: Word, slot: int, i: nat)
    requires 0 <= slot <= 3
    ensures Bit(EnabledControl(dr7, slot), i) <==>
            i == 2 * slot || (Bit(dr7, i) && !(16 + 4 * slot <= i < 20 + 4 * slot))
  {
    BitOfOr(AndNot(dr7, RwLenMask(slot)), EnableBit(slot), i);
    BitOfAndNot(dr7, RwLenMask(slot), i);
    BitOfShift(1, 2 * slot, i);
    BitOfShift(0xF, 16 + 4 * slot, i);
    if i >= 2 * slot { BitOfOne(i - 2 * slot); }
    if i >= 16 + 4 * slot { BitOfNibble(i - (16 + 4 * slot)); }
  }

  /** Disabling clears the slot's enable bit and keeps every other bit. */
  lemma BitOfDisabledControl(dr7: Word, slot: int, i: nat)
    requires 0 <= slot <= 3
    ensures Bit(DisabledControl(dr7, slot), i) <==> Bit(dr7, i) && i != 2 * slot
  {
    BitOfAndNot(dr7, EnableBit(slot), i);
    BitOfShift(1, 2 * slot, i);
    if i >= 2 * slot { BitOfOne(i - 2 * slot); }
  }

  /** All that concerns one slot is as before. */
  ghost predicate SameSlot(r: DebugRegisters, r': DebugRegisters, slot: int)
    requires 0 <= slot <= 3
  {
    && Address(r', slot) == Address(r, slot) && Enabled(r', slot) == Enabled(r, slot)
    && forall i: nat :: InNibble(i, slot) ==> Bit(r'.dr7, i) == Bit(r.dr7, i)
  }

  /** Arming sets its own slot's enable bit, nibble and address, and leaves the other slots. */
  lemma ArmingIsLocal(regs: DebugRegisters, slot: int, addr: Word64)
    requires 0 <= slot <= 3
    ensures var r := Armed(regs, slot, addr);
            && Enabled(r, slot) && ExecuteOneByte(r, slot) && Address(r, slot) == addr
            && r.dr0 == (if slot == 0 then addr else regs.dr0) && r.dr1 == (if slot == 1 then addr else regs.dr1)
            && r.dr2 == (if slot == 2 then addr else regs.dr2) && r.dr3 == (if slot == 3 then addr else regs.dr3)
            && forall other :: 0 <= other <= 3 && other != slot ==> SameSlot(regs, r, other)
  {
    forall i: nat {
      BitOfEnabledControl(regs.dr7, slot, i);
    }
  }

  /** Disarming clears its own slot's enable bit and address, and leaves the other slots. */
  lemma DisarmingIsLocal(regs: DebugRegisters, slot: int)
    requires 0 <= slot <= 3
    ensures var r := Disarmed(regs, slot);
            && !Enabled(r, slot) && Address(r, slot) == 0
            && r.dr0 == (if slot == 0 then 0 else regs.dr0) && r.dr1 == (if slot == 1 then 0 else regs.dr1)
            && r.dr2 == (if slot == 2 then 0 else regs.dr2) && r.dr3 == (if slot == 3 then 0 else regs.dr3)
            && forall other :: 0 <= other <= 3 && other != slot ==> SameSlot(regs, r, other)
  {
    forall i: nat {
      BitOfDisabledControl(regs.dr7, slot, i);
    }
  }

  ghost predicate SlotKept(r: DebugRegisters, r': DebugRegisters, slot: int)
    requires 0 <= slot <= 3
  {
    && Enabled(r', slot) == Enabled(r, slot)
    && ExecuteOneByte(r', slot) == ExecuteOneByte(r, slot)
    && Address(r', slot) == Address(r, slot)
  }

  /** What one command leaves alone in the slots it is not about. */
  ghost predicate OthersKept(r: DebugRegisters, r': DebugRegisters, slot: int) {
    forall s {:trigger SlotKept(r, r', s)} :: 0 <= s <= 3 && s != slot ==> SlotKept(r, r', s)
  }

  lemma SameSlotIsKept(r: DebugRegisters, r': DebugRegisters, slot: int)
    requires 0 <= slot <= 3 && SameSlot(r, r', slot)
    ensures SlotKept(r, r', slot)
  {
  }

  lemma ArmingKeepsOthers(regs: DebugRegisters, slot: int, addr: Word64)
    requires 0 <= slot <= 3
    ensures var r := Armed(regs, slot, addr);
            OthersKept(regs, r, slot) && Enabled(r, slot) && ExecuteOneByte(r, slot) && Address(r, slot) == addr
  {
    ArmingIsLocal(regs, slot, addr);
    forall s | 0 <= s <= 3 && s != slot ensures SlotKept(regs, Armed(regs, slot, addr), s) {
      SameSlotIsKept(regs, Armed(regs, slot, addr), s);
    }
  }

  lemma DisarmingKeepsOthers(regs: DebugRegisters, slot: int)
    requires 0 <= slot <= 3
    ensures var r := Disarmed(regs, slot); OthersKept(regs, r, slot) && !Enabled(r, slot)
  {
    DisarmingIsLocal(regs, slot);
    forall s | 0 <= s <= 3 && s != slot ensures SlotKept(regs, Disarmed(regs, slot), s) {
      SameSlotIsKept(regs, Disarmed(regs, slot), s);
    }
  }

  // ---------- slot allocation ----------

  /** The target's debug registers and the backend's slot bookkeeping. */
  datatype Slots = Slots(regs: DebugRegisters, attached: bool, script: seq<HostResult>,
                         next: int, slotOf: map<Word64, int>)

  /** Setting takes the next slot number, for good, even when arming it then fails. */
  function Setting(h: Slots, addr: Word64): (Slots, bool)
  {
    if h.next > 3 then (h, false)
    else if h.next < 0 || !h.attached then (h.(next := h.next + 1), false)
    else if !Answer(h.script).Granted? then (h.(next := h.next + 1, script := Later(h.script)), false)
    else (Slots(Armed(h.regs, h.next, addr), true, Later(h.script), h.next + 1, h.slotOf[addr := h.next]), true)
  }

  function Removing(h: Slots, addr: Word64): (Slots, bool)
  {
    if addr !in h.slotOf then (h, false) else
      var slot := h.slotOf[addr];
      if slot < 0 || slot > 3 || !h.attached then (h, false)
      else if !Answer(h.script).Granted? then (h.(script := Later(h.script)), false)
      else (h.(regs := Disarmed(h.regs, slot), script := Later(h.script), slotOf := h.slotOf - {addr}), true)
  }

  ghost predicate Tracked(slotOf: map<Word64, int>, slot: int) {
    exists a :: a in slotOf && slotOf[a] == slot
  }

  /** Live slots are distinct and in range, exactly they are enabled, and each holds its
      address with a zero nibble. */
  ghost predicate Consistent(h: Slots) {
    && 0 <= h.next <= 4
    && (forall a :: a in h.slotOf ==> 0 <= h.slotOf[a] < h.next)
    && (forall a, b :: a in h.slotOf && b in h.slotOf && a != b ==> h.slotOf[a] != h.slotOf[b])
    && (forall s :: 0 <= s <= 3 ==> (Enabled(h.regs, s) <==> Tracked(h.slotOf, s)))
    && (forall a :: a in h.slotOf ==>
          Address(h.regs, h.slotOf[a]) == a && ExecuteOneByte(h.regs, h.slotOf[a]))
  }

  lemma NoEnablesIsConsistent(h: Slots)
    requires h.next == 0 && h.slotOf == map[] && forall s :: 0 <= s <= 3 ==> !Enabled(h.regs, s)
    ensures Consistent(h)
  {
  }

  lemma TrackedAfterSet(slotOf: map<Word64, int>, addr: Word64, next: int, slot: int)
    requires addr !in slotOf
    ensures Tracked(slotOf[addr := next], slot) <==> slot == next || Tracked(slotOf, slot)
  {
    var more := slotOf[addr := next];
    assert more[addr] == next;
    if Tracked(slotOf, slot) {
      var a :| a in slotOf && slotOf[a] == slot;
      assert more[a] == slot;
    }
  }

  lemma OneMoreSlot(h: Slots, r: DebugRegisters, script: seq<HostResult>, addr: Word64)
    requires Consistent(h) && h.next <= 3 && addr !in h.slotOf
    requires OthersKept(h.regs, r, h.next)
    requires Enabled(r, h.next) && ExecuteOneByte(r, h.next) && Address(r, h.next) == addr
    ensures Consistent(Slots(r, h.attached, script, h.next + 1, h.slotOf[addr := h.next]))
  {
    forall s | 0 <= s <= 3
      ensures Enabled(r, s) <==> Tracked(h.slotOf[addr := h.next], s)
    {
      TrackedAfterSet(h.slotOf, addr, h.next, s);
      assert s != h.next ==> SlotKept(h.regs, r, s);
    }
    forall a | a in h.slotOf
      ensures Address(r, h.slotOf[a]) == a && ExecuteOneByte(r, h.slotOf[a])
    {
      assert SlotKept(h.regs, r, h.slotOf[a]);
    }
  }

  /** Setting keeps the books straight exactly when the address is not tracked yet: a
      second set leaves the first slot enabled with nobody tracking it. */
  lemma SettingIsSoundIffUntracked(h: Slots, addr: Word64)
    requires Consistent(h) && Setting(h, addr).1
    ensures Consistent(Setting(h, addr).0) <==> addr !in h.slotOf
  {
    if addr in h.slotOf {
      var h' := Setting(h, addr).0;
      var lost := h.slotOf[addr];
      ArmingKeepsOthers(h.regs, h.next, addr);
      assert Enabled(h.regs, lost) && SlotKept(h.regs, h'.regs, lost);
      assert forall a :: a in h'.slotOf ==> h'.slotOf[a] != lost;
    } else {
      ArmingKeepsOthers(h.regs, h.next, addr);
      OneMoreSlot(h, Setting(h, addr).0.regs, Later(h.script), addr);
    }
  }

  lemma RemovingIsSound(h: Slots, addr: Word64)
    requires Consistent(h) && Removing(h, addr).1
    ensures Consistent(Removing(h, addr).0)
  {
    var h' := Removing(h, addr).0;
    var slot := h.slotOf[addr];
    DisarmingKeepsOthers(h.regs, slot);
    forall s | 0 <= s <= 3
      ensures Enabled(h'.regs, s) <==> Tracked(h'.slotOf, s)
    {
      assert s != slot ==> SlotKept(h.regs, h'.regs, s);
      if s != slot && Enabled(h.regs, s) {
        var a :| a in h.slotOf && h.slotOf[a] == s;
        assert a in h'.slotOf && h'.slotOf[a] == s;
      }
    }
    forall a | a in h'.slotOf
      ensures Address(h'.regs, h'.slotOf[a]) == a && ExecuteOneByte(h'.regs, h'.slotOf[a])
    {
      assert SlotKept(h.regs, h'.regs, h.slotOf[a]);
    }
  }

  /** Setting succeeds exactly with a slot left, attached, and the host willing. The address
      then has the next slot, enabled on it; the other slots and records are as before. A
      failure changes neither registers nor records, but still uses up the slot. */
  lemma SettingTakesNextSlot(h: Slots, addr: Word64)
    requires Consistent(h)
    ensures var (h', ok) := Setting(h, addr);
            && (ok <==> h.next <= 3 && h.attached && Answer(h.script).Granted?)
            && h'.next == (if h.next <= 3 then h.next + 1 else h.next)
            && (!ok ==> h'.regs == h.regs && h'.slotOf == h.slotOf)
            && (ok ==>
                  && addr in h'.slotOf && h'.slotOf[addr] == h.next
                  && Bit(h'.regs.dr7, 2 * h.next) && Address(h'.regs, h.next) == addr && ExecuteOneByte(h'.regs, h.next)
                  && (forall s :: 0 <= s <= 3 && s != h.next ==> SameSlot(h.regs, h'.regs, s))
                  && (forall a :: a != addr ==> (a in h'.slotOf <==> a in h.slotOf))
                  && (forall a :: a != addr && a in h.slotOf ==> h'.slotOf[a] == h.slotOf[a]))
  {
    if Setting(h, addr).1 { ArmingIsLocal(h.regs, h.next, addr); }
  }

  /** Removing succeeds exactly for a tracked address, attached, and the host willing. The
      address is then forgotten and its slot disabled and cleared; the other slots and
      records, and the slot counter, are as before. A failure changes nothing. */
  lemma RemovingForgets(h: Slots, addr: Word64)
    requires Consistent(h)
    ensures var (h', ok) := Removing(h, addr);
            && (ok <==> addr in h.slotOf && h.attached && Answer(h.script).Granted?)
            && h'.next == h.next
            && (!ok ==> h'.regs == h.regs && h'.slotOf == h.slotOf)
            && (ok ==>
                  var slot := h.slotOf[addr];
                  && addr !in h'.slotOf
                  && !Bit(h'.regs.dr7, 2 * slot) && Address(h'.regs, slot) == 0
                  && (forall s :: 0 <= s <= 3 && s != slot ==> SameSlot(h.regs, h'.regs, s))
                  && (forall a :: a != addr ==> (a in h'.slotOf <==> a in h.slotOf))
                  && (forall a :: a != addr && a in h.slotOf ==> h'.slotOf[a] == h.slotOf[a]))
  {
    if Removing(h, addr).1 { DisarmingIsLocal(h.regs, h.slotOf[addr]); }
  }

  // ---------- whole runs ----------

  datatype Command = Set(addr: Word64) | Remove(addr: Word64)

  function Do(h: Slots, c: Command): Slots {
    match c
    case Set(addr) => Setting(h, addr).0
    case Remove(addr) => Removing(h, addr).0
  }

  function DoAll(h: Slots, cs: seq<Command>): Slots
    decreases |cs|
  {
    if cs == [] then h else DoAll(Do(h, cs[0]), cs[1..])
  }

  /** Addresses are only set while untracked; commands may otherwise fail or succeed. */
  ghost predicate Disciplined(h: Slots, cs: seq<Command>)
    decreases |cs|
  {
    cs == [] || ((cs[0].Set? ==> cs[0].addr !in h.slotOf) && Disciplined(Do(h, cs[0]), cs[1..]))
  }

  function Sets(cs: seq<Command>): nat {
    if cs == [] then 0 else (if cs[0].Set? then 1 else 0) + Sets(cs[1..])
  }

  /** Over any disciplined run the books stay straight; and slots are never handed out
      again: after four sets none is left, whatever has been removed. */
  lemma {:induction false} RunsStayConsistent(h: Slots, cs: seq<Command>)
    requires Consistent(h) && Disciplined(h, cs)
    ensures Consistent(DoAll(h, cs))
    ensures DoAll(h, cs).next == if h.next + Sets(cs) < 4 then h.next + Sets(cs) else 4
    decreases |cs|
  {
    if cs != [] {
      match cs[0] {
        case Set(addr) =>
          if Setting(h, addr).1 { SettingIsSoundIffUntracked(h, addr); }
        case Remove(addr) =>
          if Removing(h, addr).1 { RemovingIsSound(h, addr); }
      }
      RunsStayConsistent(Do(h, cs[0]), cs[1..]);
    }
  }

  lemma EnabledAreTracked(h: Slots)
    requires Consistent(h)
    ensures forall a :: a in h.slotOf <==> exists s :: 0 <= s <= 3 && Bit(h.regs.dr7, 2 * s) && Address(h.regs, s) == a
  {
    forall a ensures a in h.slotOf <==> exists s :: 0 <= s <= 3 && Bit(h.regs.dr7, 2 * s) && Address(h.regs, s) == a {
      if a in h.slotOf {
        assert Tracked(h.slotOf, h.slotOf[a]);
        assert Enabled(h.regs, h.slotOf[a]);
      }
      if s :| 0 <= s <= 3 && Bit(h.regs.dr7, 2 * s) && Address(h.regs, s) == a {
        assert Enabled(h.regs, s);
        var b :| b in h.slotOf && h.slotOf[b] == s;
      }
    }
  }

  function LiveAfter(h: Slots, c: Command, live: set<Word64>): set<Word64> {
    match c
    case Set(addr) => if Setting(h, addr).1 then live + {addr} else live
    case Remove(addr) => if Removing(h, addr).1 then live - {addr} else live
  }

  /** The addresses set with success and not removed with success since, `live` being those
      from before. */
  function Live(h: Slots, cs: seq<Command>, live: set<Word64>): set<Word64>
    decreases |cs|
  {
    if cs == [] then live else Live(Do(h, cs[0]), cs[1..], LiveAfter(h, cs[0], live))
  }

  lemma CommandTracksTheLive(h: Slots, c: Command)
    requires Consistent(h)
    ensures Do(h, c).slotOf.Keys == LiveAfter(h, c, h.slotOf.Keys)
  {
    match c {
      case Set(addr) => SettingTakesNextSlot(h, addr);
      case Remove(addr) => RemovingForgets(h, addr);
    }
  }

  lemma CommandStaysConsistent(h: Slots, c: Command)
    requires Consistent(h) && (c.Set? ==> c.addr !in h.slotOf)
    ensures Consistent(Do(h, c))
  {
    match c {
      case Set(addr) => if Setting(h, addr).1 { SettingIsSoundIffUntracked(h, addr); }
      case Remove(addr) => if Removing(h, addr).1 { RemovingIsSound(h, addr); }
    }
  }

  lemma {:induction false} TrackedAreTheLive(h: Slots, cs: seq<Command>)
    requires Consistent(h) && Disciplined(h, cs)
    ensures DoAll(h, cs).slotOf.Keys == Live(h, cs, h.slotOf.Keys)
    decreases |cs|
  {
    if cs != [] {
      CommandTracksTheLive(h, cs[0]);
      CommandStaysConsistent(h, cs[0]);
      TrackedAreTheLive(Do(h, cs[0]), cs[1..]);
    }
  }

  /** Over any disciplined run exactly the addresses set and not removed since are tracked,
      and exactly for them a slot is enabled and holds the address. */
  lemma RunsTrackTheLive(h: Slots, cs: seq<Command>)
    requires Consistent(h) && Disciplined(h, cs)
    ensures var end := DoAll(h, cs);
            && end.slotOf.Keys == Live(h, cs, h.slotOf.Keys)
            && forall a :: a in Live(h, cs, h.slotOf.Keys) <==>
                             exists s :: 0 <= s <= 3 && Bit(end.regs.dr7, 2 * s) && Address(end.regs, s) == a
  {
    TrackedAreTheLive(h, cs);
    RunsStayConsistent(h, cs);
    EnabledAreTracked(DoAll(h, cs));
  }

  // ---------- the objects ----------

  /** The part of the debuggee that owns the thread's debug registers. */
  class DebugThread {
    var attached: bool
    var regs: DebugRegisters
    /** What the host answers to the calls to come. */
    var script: seq<HostResult>

    constructor (regs: DebugRegisters, script: seq<HostResult>)
      ensures attached && this.regs == regs && this.script == script
    {
      attached, this.regs, this.script := true, regs, script;
    }

    method SetHwExecBp(slot: int, addr: Word64) returns (r: Result<()>)
      modifies this`regs, this`script
      ensures !(0 <= slot <= 3 && attached) ==> r.Err? && script == old(script)
      ensures 0 <= slot <= 3 && attached ==>
                script == Later(old(script)) && (r.Ok? <==> Answer(old(script)).Granted?)
      ensures r.Ok? ==> regs == Armed(old(regs), slot, addr)
      ensures r.Err? ==> regs == old(regs)
    {
      if slot < 0 || slot > 3 {
        return Err("set_hw_exec_bp: slot out of range (0-3)");
      }
      if !attached {
        return Err("set_hw_exec_bp: not attached");
      }
      var ctx := WithAddress(regs, slot, addr);
      ctx := ctx.(dr7 := AndNot(ctx.dr7, RwLenMask(slot)));
      EnableBitFits(slot);
      OrStaysBelow(ctx.dr7, EnableBit(slot), 64);
      ctx := ctx.(dr7 := Or(ctx.dr7, EnableBit(slot)));
      var answer := Answer(script);
      script := Later(script);
      if !answer.Granted? {
        return Err("SetThreadContext failed");
      }
      regs := ctx;
      return Ok(());
    }

    method ClearHwBp(slot: int) returns (r: Result<()>)
      modifies this`regs, this`script
      ensures !(0 <= slot <= 3 && attached) ==> r.Err? && script == old(script)
      ensures 0 <= slot <= 3 && attached ==>
                script == Later(old(script)) && (r.Ok? <==> Answer(old(script)).Granted?)
      ensures r.Ok? ==> regs == Disarmed(old(regs), slot)
      ensures r.Err? ==> regs == old(regs)
    {
      if slot < 0 || slot > 3 {
        return Err("clear_hw_bp: slot out of range (0-3)");
      }
      if !attached {
        return Err("clear_hw_bp: not attached");
      }
      var ctx := regs.(dr7 := AndNot(regs.dr7, EnableBit(slot)));
      ctx := WithAddress(ctx, slot, 0);
      var answer := Answer(script);
      script := Later(script);
      if !answer.Granted? {
        return Err("SetThreadContext failed");
      }
      regs := ctx;
      return Ok(());
    }
  }

  /** The backend's allocation of slots to addresses. */
  class HardwareSlots {
    const dbg: DebugThread
    var nextHwSlot: int
    var hwBpSlot: map<Word64, int>

    constructor (dbg: DebugThread)
      ensures this.dbg == dbg && nextHwSlot == 0 && hwBpSlot == map[]
    {
      this.dbg, nextHwSlot, hwBpSlot := dbg, 0, map[];
    }

    ghost function View(): Slots
      reads this, dbg
    {
      Slots(dbg.regs, dbg.attached, dbg.script, nextHwSlot, hwBpSlot)
    }

    method SetBreakpoint(addr: Word64) returns (r: Result<()>)
      modifies this, dbg
      ensures (View(), r.Ok?) == Setting(old(View()), addr)
      ensures hwBpSlot == if r.Ok? then old(hwBpSlot)[addr := old(nextHwSlot)] else old(hwBpSlot)
    {
      if nextHwSlot > 3 {
        return Err("NativeBackend: no free hardware breakpoint slot");
      }
      var slot := nextHwSlot;
      nextHwSlot := nextHwSlot + 1;
      r := dbg.SetHwExecBp(slot, addr);
      if r.Err? {
        return;
      }
      hwBpSlot := hwBpSlot[addr := slot];
    }

    method RemoveBreakpoint(addr: Word64) returns (r: Result<()>)
      modifies this, dbg
      ensures (View(), r.Ok?) == Removing(old(View()), addr)
      ensures hwBpSlot == if r.Ok? then old(hwBpSlot) - {addr} else old(hwBpSlot)
      ensures r.Ok? ==> addr in old(hwBpSlot)
    {
      if addr !in hwBpSlot {
        return Err("NativeBackend: no hardware breakpoint at address");
      }
      r := dbg.ClearHwBp(hwBpSlot[addr]);
      if r.Err? {
        return;
      }
      hwBpSlot := hwBpSlot - {addr};
    }
  }
}
