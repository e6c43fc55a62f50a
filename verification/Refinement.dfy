/** The full system, with volatile memory, phases, crashes and recoveries, only takes actions of `QuorumCore`. */
module Refinement {
  import opened Domain
  import opened Histories
  import opened Register
  import opened Cluster
  import opened QuorumCore
  import opened CoreInvariant

  function View(s: System): Core {
    Core(s.n, map p | p in s.procs :: s.procs[p].store, s.net, s.ops, s.chosen, s.writes, s.clock)
  }

  /** The memory of an unfinished operation agrees with its record. */
  ghost predicate ActiveLinks(c: Core, p: nat, l: Local, id: OpId)
    requires id in c.ops
  {
    && c.ops[id].ret.None? && l.callback == Some(id) && ReadProc(p, id) in c.net
    && (l.reading ==> !l.writing && c.ops[id].cmd.Read?)
    && (l.writing ==> c.ops[id].cmd == Write(l.writeval))
    && (id in c.chosen <==> l.writePhase)
    && (l.writePhase ==> WriteProc(p, id, c.chosen[id]) in c.net && (l.reading ==> l.readval == c.chosen[id].val))
  }

  /** Everything collected in memory was really sent, for the operation in progress. */
  ghost predicate OpLinks(c: Core, p: nat, l: Local, id: OpId) {
    && id in c.ops && c.ops[id].proc == p && l.rid == Some(c.ops[id].rid)
    && (forall q :: q in l.readlist ==> Value(q, p, id, l.readlist[q]) in c.net)
    && (forall q :: q in l.acklist ==> Ack(q, p, id) in c.net)
    && (l.writePhase ==> Busy(l))
    && (if Busy(l) then ActiveLinks(c, p, l, id) else l.callback.None?)
  }

  ghost predicate Links(c: Core, p: nat, l: Local) {
    if l.opId.Some? then OpLinks(c, p, l, l.opId.value)
    else !Busy(l) && !l.writePhase && l.callback.None? && l.readlist == map[] && l.acklist == {}
  }

  ghost predicate ProcOk(s: System, p: nat)
    requires p in s.procs
  {
    s.procs[p].up ==> s.procs[p].mem.cur == s.procs[p].store && Links(View(s), p, s.procs[p].mem)
  }

  ghost predicate MemInv(s: System) {
    s.procs.Keys == Idents(s.n) && forall p :: p in s.procs ==> ProcOk(s, p)
  }

  /** What holds in every run, whatever `Highest` returns. */
  ghost predicate SysInv(s: System) {
    MemInv(s) && BasicInv(View(s))
  }

  /** The action of `QuorumCore` that a step performs. */
  function Abstract(s: System, step: Step): Action
    requires step.p in s.procs
  {
    match step
    case Invoke(p, id, rid, cmd) => Begin(p, id, rid, cmd)
    case Deliver(p, m, pick, cut) =>
      var l := s.procs[p].mem;
      (match m
       case ReadProc(src, id) => if cut then Skip else Report(p, src, id)
       case Value(src, _, id, e) =>
         if Closes(s.n, l, src, id, e) then Choose(id, l.readlist[src := e], pick, !cut) else Skip
       case WriteProc(src, id, e) => Adopt(p, src, id, e, !cut)
       case Ack(src, _, id) =>
         if Completes(s.n, l, src, id) && !cut
         then Finish(id, l.acklist + {src}, if l.reading then ReadReturn(l.readval) else WriteReturn)
         else Skip)
    case Crash(_) => Skip
    case Recover(_) => Skip
  }

  // ---------- Simulation ----------

  lemma ViewSame(s: System, t: System)
    requires t.procs.Keys == s.procs.Keys
    requires forall p :: p in s.procs ==> t.procs[p].store == s.procs[p].store
    ensures View(t).stores == View(s).stores
  {
  }

  lemma ViewUpdate(s: System, t: System, p: nat)
    requires p in s.procs && t.procs.Keys == s.procs.Keys
    requires forall q :: q in s.procs && q != p ==> t.procs[q].store == s.procs[q].store
    ensures View(t).stores == View(s).stores[p := t.procs[p].store]
  {
  }

  lemma SimInvoke(s: System, p: nat, id: OpId, rid: nat, cmd: Command)
    requires SysInv(s) && Enabled(AnyEntry, s, Invoke(p, id, rid, cmd))
    ensures CanBegin(View(s), p, id)
    ensures View(Invoked(s, p, id, rid, cmd)) == DoBegin(View(s), p, id, rid, cmd)
  {
  }

  lemma SimReadProc(s: System, p: nat, m: Message, pick: Entry)
    requires SysInv(s) && Enabled(AnyEntry, s, Deliver(p, m, pick, false)) && m.ReadProc?
    ensures CanReport(View(s), p, m.src, m.id)
    ensures View(Delivered(s, p, m, pick, false)) == DoReport(View(s), p, m.src, m.id)
  {
  }

  /** The readlist that ends a read phase is a majority of reports that were really sent. */
  lemma CloseGuard(s: System, p: nat, m: Message, pick: Entry, cut: bool)
    requires SysInv(s) && Enabled(AnyEntry, s, Deliver(p, m, pick, cut)) && m.Value?
    requires Closes(s.n, s.procs[p].mem, m.src, m.id, m.entry)
    ensures CanChoose(View(s), m.id, s.procs[p].mem.readlist[m.src := m.entry], pick)
    ensures OpLinks(View(s), p, s.procs[p].mem, m.id)
  {
  }

  lemma SimClose(s: System, p: nat, m: Message, pick: Entry, cut: bool)
    requires p in s.procs && m.Value? && Closes(s.n, s.procs[p].mem, m.src, m.id, m.entry)
    requires OpLinks(View(s), p, s.procs[p].mem, m.id)
    ensures View(Delivered(s, p, m, pick, cut)) == DoChoose(View(s), m.id, pick, !cut)
  {
    var l, t := s.procs[p].mem, Delivered(s, p, m, pick, cut);
    assert Carried(p, l, pick) == Taken(p, s.ops[m.id].cmd, pick);
    if l.reading {
      ViewSame(s, t);
    } else {
      ViewUpdate(s, t, p);
    }
  }

  lemma SimWriteProc(s: System, p: nat, m: Message, pick: Entry, cut: bool)
    requires p in s.procs && m in s.net && m.WriteProc? && s.procs[p].mem.cur == s.procs[p].store
    ensures CanAdopt(View(s), p, m.src, m.id, m.entry)
    ensures View(Delivered(s, p, m, pick, cut)) == DoAdopt(View(s), p, m.src, m.id, m.entry, !cut)
  {
  }

  lemma SimFinish(s: System, p: nat, m: Message, pick: Entry)
    requires p in s.procs && m in s.net && Addressed(p, m) && m.Ack?
    requires Completes(s.n, s.procs[p].mem, m.src, m.id) && OpLinks(View(s), p, s.procs[p].mem, m.id)
    ensures CanFinish(View(s), m.id, s.procs[p].mem.acklist + {m.src}, ResultOf(View(s), m.id))
    ensures Abstract(s, Deliver(p, m, pick, false)).result == ResultOf(View(s), m.id)
    ensures View(Delivered(s, p, m, pick, false)) == DoFinish(View(s), m.id, ResultOf(View(s), m.id))
  {
  }

  /** A delivery that is not one of the above changes neither store nor network nor records. */
  lemma QuietDelivery(s: System, p: nat, m: Message, pick: Entry, cut: bool)
    requires p in s.procs && Abstract(s, Deliver(p, m, pick, cut)).Skip?
    ensures Delivered(s, p, m, pick, cut).procs.Keys == s.procs.Keys
    ensures forall q :: q in s.procs ==> Delivered(s, p, m, pick, cut).procs[q].store == s.procs[q].store
    ensures Delivered(s, p, m, pick, cut) == s.(procs := Delivered(s, p, m, pick, cut).procs, clock := s.clock + 1)
  {
    var out := OnMessage(s.n, p, s.procs[p].mem, m, pick);
    if out.Done? {
      assert out.effect.stored.None? && out.effect.begun.None?;
      assert !cut ==> out.effect.sent == {} && out.effect.fired.None?;
    }
  }

  lemma SimQuiet(s: System, step: Step)
    requires step.p in s.procs && Abstract(s, step).Skip?
    ensures View(Next(s, step)) == Do(View(s), Skip)
  {
    if step.Deliver? {
      QuietDelivery(s, step.p, step.m, step.pick, step.cut);
    }
    ViewSame(s, Next(s, step));
  }

  /** Every step of the system is an action of the core. */
  lemma Simulates(s: System, step: Step)
    requires SysInv(s) && Enabled(AnyEntry, s, step)
    ensures Can(View(s), Abstract(s, step)) && View(Next(s, step)) == Do(View(s), Abstract(s, step))
  {
    var a := Abstract(s, step);
    if a.Skip? {
      SimQuiet(s, step);
    } else {
      match step
      case Invoke(p, id, rid, cmd) => SimInvoke(s, p, id, rid, cmd);
      case Deliver(p, m, pick, cut) =>
        match m
        case ReadProc(_, _) => SimReadProc(s, p, m, pick);
        case Value(_, _, _, _) =>
          CloseGuard(s, p, m, pick, cut);
          SimClose(s, p, m, pick, cut);
        case WriteProc(_, _, _) =>
          assert ProcOk(s, p);
          SimWriteProc(s, p, m, pick, cut);
        case Ack(_, _, _) =>
          assert ProcOk(s, p);
          SimFinish(s, p, m, pick);
    }
  }

  // ---------- Memory ----------

  /** `d` adds messages to `c` and leaves the operations of process `q` as they were. */
  ghost predicate Untouched(c: Core, d: Core, q: nat) {
    && c.net <= d.net
    && (forall id :: id in c.ops && c.ops[id].proc == q ==> id in d.ops && d.ops[id] == c.ops[id])
    && (forall id :: id in c.ops && c.ops[id].proc == q ==> (id in c.chosen <==> id in d.chosen))
    && (forall id :: id in c.ops && c.ops[id].proc == q && id in c.chosen ==> c.chosen[id] == d.chosen[id])
  }

  lemma LinksStay(c: Core, d: Core, q: nat, l: Local)
    requires Links(c, q, l) && Untouched(c, d, q)
    ensures Links(d, q, l)
  {
  }

  /** An action touches the records of the process that performs the operation, and of no other. */
  lemma ActionUntouched(c: Core, a: Action, p: nat, q: nat)
    requires Can(c, a) && BasicInv(c) && q != p
    requires a.Choose? || a.Finish? ==> c.ops[a.id].proc == p
    ensures Untouched(c, Do(c, a), q)
  {
  }

  lemma OthersUntouched(s: System, step: Step, q: nat)
    requires SysInv(s) && Enabled(AnyEntry, s, step) && q != step.p
    ensures Untouched(View(s), View(Next(s, step)), q)
  {
    Simulates(s, step);
    OwnOperation(s, step);
    ActionUntouched(View(s), Abstract(s, step), step.p, q);
  }

  /** A process chooses and finishes only its own operation. */
  lemma OwnOperation(s: System, step: Step)
    requires SysInv(s) && Enabled(AnyEntry, s, step)
    ensures var a := Abstract(s, step); (a.Choose? || a.Finish?) ==> a.id in s.ops && s.ops[a.id].proc == step.p
  {
    assert ProcOk(s, step.p);
  }

  lemma CollectLinks(c: Core, p: nat, l: Local, src: nat, id: OpId, e: Entry)
    requires Links(c, p, l) && l.opId == Some(id) && Value(src, p, id, e) in c.net
    ensures Links(c, p, l.(readlist := l.readlist[src := e]))
  {
  }

  lemma OwnInvoke(s: System, p: nat, id: OpId, rid: nat, cmd: Command)
    requires SysInv(s) && Enabled(AnyEntry, s, Invoke(p, id, rid, cmd))
    ensures ProcOk(Invoked(s, p, id, rid, cmd), p)
  {
  }

  lemma OwnClose(s: System, p: nat, m: Message, pick: Entry)
    requires SysInv(s) && Enabled(AnyEntry, s, Deliver(p, m, pick, false)) && m.Value?
    requires Closes(s.n, s.procs[p].mem, m.src, m.id, m.entry)
    ensures ProcOk(Delivered(s, p, m, pick, false), p)
  {
    assert ProcOk(s, p);
    var t := Delivered(s, p, m, pick, false);
    assert OpLinks(View(t), p, t.procs[p].mem, m.id);
  }

  lemma OwnValue(s: System, p: nat, m: Message, pick: Entry)
    requires SysInv(s) && Enabled(AnyEntry, s, Deliver(p, m, pick, false)) && m.Value?
    requires !Closes(s.n, s.procs[p].mem, m.src, m.id, m.entry)
    ensures ProcOk(Delivered(s, p, m, pick, false), p)
  {
    assert ProcOk(s, p);
    var t := Delivered(s, p, m, pick, false);
    QuietDelivery(s, p, m, pick, false);
    if t.procs[p].up {
      LinksStay(View(s), View(t), p, s.procs[p].mem);
      if t.procs[p].mem != s.procs[p].mem {
        CollectLinks(View(t), p, s.procs[p].mem, m.src, m.id, m.entry);
      }
    }
  }

  lemma OwnWriteProc(s: System, p: nat, m: Message, pick: Entry)
    requires SysInv(s) && Enabled(AnyEntry, s, Deliver(p, m, pick, false)) && (m.WriteProc? || m.ReadProc?)
    ensures ProcOk(Delivered(s, p, m, pick, false), p)
  {
    assert ProcOk(s, p);
    var t := Delivered(s, p, m, pick, false);
    LinksStay(View(s), View(t), p, s.procs[p].mem);
  }

  lemma AckLinks(c: Core, p: nat, l: Local, src: nat, id: OpId)
    requires Links(c, p, l) && l.opId == Some(id) && Ack(src, p, id) in c.net
    ensures Links(c, p, l.(acklist := l.acklist + {src}))
  {
  }

  lemma OwnAck(s: System, p: nat, m: Message, pick: Entry)
    requires SysInv(s) && Enabled(AnyEntry, s, Deliver(p, m, pick, false)) && m.Ack?
    requires !Completes(s.n, s.procs[p].mem, m.src, m.id)
    ensures ProcOk(Delivered(s, p, m, pick, false), p)
  {
    assert ProcOk(s, p);
    var t := Delivered(s, p, m, pick, false);
    QuietDelivery(s, p, m, pick, false);
    if t.procs[p].up {
      LinksStay(View(s), View(t), p, s.procs[p].mem);
      if t.procs[p].mem != s.procs[p].mem {
        AckLinks(View(t), p, s.procs[p].mem, m.src, m.id);
      }
    }
  }

  lemma OwnFinish(s: System, p: nat, m: Message, pick: Entry)
    requires p in s.procs && m in s.net && Addressed(p, m) && m.Ack? && s.procs[p].mem.cur == s.procs[p].store
    requires Completes(s.n, s.procs[p].mem, m.src, m.id) && OpLinks(View(s), p, s.procs[p].mem, m.id)
    ensures ProcOk(Delivered(s, p, m, pick, false), p)
  {
  }

  lemma OwnStep(s: System, step: Step)
    requires SysInv(s) && Enabled(AnyEntry, s, step)
    ensures ProcOk(Next(s, step), step.p)
  {
    match step
    case Invoke(p, id, rid, cmd) => OwnInvoke(s, p, id, rid, cmd);
    case Deliver(p, m, pick, cut) =>
      if !cut {
        if m.Value? && Closes(s.n, s.procs[p].mem, m.src, m.id, m.entry) {
          OwnClose(s, p, m, pick);
        } else if m.Value? {
          OwnValue(s, p, m, pick);
        } else if m.Ack? && Completes(s.n, s.procs[p].mem, m.src, m.id) {
          assert ProcOk(s, p);
          OwnFinish(s, p, m, pick);
        } else if m.Ack? {
          OwnAck(s, p, m, pick);
        } else {
          OwnWriteProc(s, p, m, pick);
        }
      }
    case Crash(_) =>
    case Recover(_) =>
  }

  lemma MemStep(s: System, step: Step)
    requires SysInv(s) && Enabled(AnyEntry, s, step)
    ensures MemInv(Next(s, step))
  {
    var t := Next(s, step);
    assert t.procs.Keys == s.procs.Keys && t.n == s.n;
    OwnStep(s, step);
    forall q | q in t.procs && q != step.p ensures ProcOk(t, q) {
      assert ProcOk(s, q);
      assert t.procs[q] == s.procs[q];
      if t.procs[q].up {
        OthersUntouched(s, step, q);
        LinksStay(View(s), View(t), q, s.procs[q].mem);
      }
    }
  }

  lemma SysInvInit(n: nat)
    ensures SysInv(Init(n)) && View(Init(n)) == CoreInit(n)
  {
    assert View(Init(n)).stores == CoreInit(n).stores;
  }

  lemma SysInvStep(s: System, step: Step)
    requires SysInv(s) && Enabled(AnyEntry, s, step)
    ensures SysInv(Next(s, step))
  {
    Simulates(s, step);
    BasicStep(View(s), Abstract(s, step));
    MemStep(s, step);
  }
}
