/** One instance of the (N,N)-AtomicRegister: its handlers as functions of its memory, and the class that runs them. */
module Register {
  import opened Domain

  /** The volatile fields of one register instance. */
  datatype Local = Local(
    cur: Entry,
    readlist: map<nat, Entry>,
    acklist: set<nat>,
    reading: bool,
    writing: bool,
    writeval: Data,
    readval: Data,
    writePhase: bool,
    callback: Option<OpId>,
    rid: Option<nat>,
    opId: Option<OpId>)

  /** What a completed operation passes to its callback. */
  datatype Success = Success(callback: OpId, rid: nat, ret: Result)

  /**
   * What a handler leaves behind: the new memory, the entry it stored, the messages it sent,
   * the entry its operation carries into the write phase, and the callback it ran.
   */
  datatype Effect = Effect(
    mem: Local,
    stored: Option<Entry>,
    sent: set<Message>,
    begun: Option<Entry>,
    fired: Option<Success>)

  /** A handler either finishes, or unwraps a missing operation identifier and takes the worker down. */
  datatype Outcome = Halt | Done(effect: Effect)

  /** An operation is in progress. */
  predicate Busy(l: Local) {
    l.reading || l.writing
  }

  /** Start-up and recovery: only the stored entry survives. */
  function Recovered(stored: Entry): Local {
    Local(stored, map[], {}, false, false, ZeroSector(), ZeroSector(), false, None, None, None)
  }

  function Quiet(mem: Local, sent: set<Message>): Effect {
    Effect(mem, None, sent, None, None)
  }

  /** A client command opens the read phase of a new operation. */
  function OnClient(self: nat, l: Local, id: OpId, rid: nat, cmd: Command): Effect {
    var l1 := l.(opId := Some(id), callback := Some(id), rid := Some(rid), readlist := map[], acklist := {});
    var l2 := match cmd
      case Read => l1.(reading := true)
      case Write(data) => l1.(writeval := data, writing := true);
    Quiet(l2, {ReadProc(self, id)})
  }

  function OnReadProc(self: nat, l: Local, src: nat, id: OpId): Effect {
    Quiet(l, {Value(self, src, id, l.cur)})
  }

  /** Does this VALUE give the operation its majority and end the read phase? */
  predicate Closes(n: nat, l: Local, src: nat, id: OpId, e: Entry) {
    l.opId == Some(id) && !l.writePhase && (l.reading || l.writing) && Majority(n, |l.readlist[src := e]|)
  }

  /** The entries `Highest` chooses from: everything reported, with the register's own entry put in. */
  function Candidates(self: nat, l: Local, src: nat, e: Entry): map<nat, Entry> {
    l.readlist[src := e][self := l.cur]
  }

  /** The entry the operation in progress carries, given what `Highest` returned. */
  function Carried(self: nat, l: Local, pick: Entry): Entry {
    Taken(self, if l.reading then Read else Write(l.writeval), pick)
  }

  function OnValue(n: nat, self: nat, l: Local, src: nat, id: OpId, e: Entry, pick: Entry): Outcome {
    if l.opId.None? then Halt
    else if l.opId.value != id || l.writePhase then Done(Quiet(l, {}))
    else if !Closes(n, l, src, id, e) then Done(Quiet(l.(readlist := l.readlist[src := e]), {}))
    else
      var out := Carried(self, l, pick);
      var l1 := l.(readval := pick.val, readlist := map[], acklist := {}, writePhase := true);
      var sent := {WriteProc(self, id, out)};
      if l.reading then Done(Effect(l1, None, sent, Some(out), None))
      else Done(Effect(l1.(cur := out), Some(out), sent, Some(out), None))
  }

  function OnWriteProc(self: nat, l: Local, src: nat, id: OpId, e: Entry): Effect {
    if Below(l.cur.tag, e.tag) then Effect(l.(cur := e), Some(e), {Ack(self, src, id)}, None, None)
    else Quiet(l, {Ack(self, src, id)})
  }

  /** Does this ACK give the operation its majority and complete it? */
  predicate Completes(n: nat, l: Local, src: nat, id: OpId) {
    l.opId == Some(id) && l.writePhase && (l.reading || l.writing) && Majority(n, |l.acklist + {src}|)
  }

  function OnAck(n: nat, l: Local, src: nat, id: OpId): Outcome {
    if l.opId.None? then Halt
    else if l.opId.value != id || !l.writePhase then Done(Quiet(l, {}))
    else if !Completes(n, l, src, id) then Done(Quiet(l.(acklist := l.acklist + {src}), {}))
    else
      var l1 := l.(acklist := {}, writePhase := false);
      var l2 := if l.reading then l1.(reading := false) else l1.(writing := false);
      var ret := if l.reading then ReadReturn(l.readval) else WriteReturn;
      if l.callback.None? then Done(Quiet(l2, {}))
      else if l.rid.None? then Halt
      else Done(Effect(l2.(callback := None), None, {}, None, Some(Success(l.callback.value, l.rid.value, ret))))
  }

  /** Delivery of one message; `pick` is the entry returned by `Highest`, used only when the read phase ends. */
  function OnMessage(n: nat, self: nat, l: Local, m: Message, pick: Entry): Outcome {
    match m
    case ReadProc(src, id) => Done(OnReadProc(self, l, src, id))
    case Value(src, _, id, e) => OnValue(n, self, l, src, id, e, pick)
    case WriteProc(src, id, e) => Done(OnWriteProc(self, l, src, id, e))
    case Ack(src, _, id) => OnAck(n, l, src, id)
  }

  /** The entry a message makes the register hand to the sector store, if any. */
  function ToStore(n: nat, self: nat, l: Local, m: Message, pick: Entry): Option<Entry> {
    match OnMessage(n, self, l, m, pick)
    case Halt => None
    case Done(e) => e.stored
  }

  /** The store is called by a newer WRITE_PROC, and by the VALUE that ends the read phase of a write. */
  lemma StoredForm(n: nat, self: nat, l: Local, m: Message, pick: Entry)
    requires ToStore(n, self, l, m, pick).Some?
    ensures var e := ToStore(n, self, l, m, pick).value;
            || (m.WriteProc? && e == m.entry && Below(l.cur.tag, e.tag))
            || (m.Value? && Closes(n, l, m.src, m.id, m.entry) && e == Entry(Tag(pick.tag.ts + 1, self), l.writeval))
  {
  }

  // ---------- Highest ----------

  /** The selection the design asks for: a maximum in the lexicographic order of tags. */
  ghost predicate LexHighest(list: map<nat, Entry>, e: Entry) {
    e in list.Values && forall q :: q in list ==> AtMost(list[q].tag, e.tag)
  }

  /** The selection the code makes: only write ranks are compared. */
  ghost predicate RankHighest(list: map<nat, Entry>, e: Entry) {
    e in list.Values && forall q :: q in list ==> list[q].tag.wr <= e.tag.wr
  }

  /**
   * The loop behind `readlist.iter().max_by(..)`: entries come in an arbitrary order and a later
   * one replaces an earlier one of equal rank.
   */
  method Highest(list: map<nat, Entry>) returns (best: Entry)
    requires list != map[]
    ensures RankHighest(list, best)
  {
    var q :| q in list;
    best := list[q];
    var left := list.Keys - {q};
    while left != {}
      invariant left <= list.Keys
      invariant best in list.Values
      invariant forall r :: r in list && r !in left ==> list[r].tag.wr <= best.tag.wr
    {
      q :| q in left;
      left := left - {q};
      if best.tag.wr <= list[q].tag.wr {
        best := list[q];
      }
    }
  }

  /** The register object. Every handler is proved equal to the function above that it implements. */
  class AtomicRegister {
    const self: nat
    const n: nat
    var ts: nat
    var wr: nat
    var val: Data
    var readlist: map<nat, Entry>
    var acklist: set<nat>
    var reading: bool
    var writing: bool
    var writeval: Data
    var readval: Data
    var writePhase: bool
    var callback: Option<OpId>
    var rid: Option<nat>
    var opId: Option<OpId>

    function Mem(): Local
      reads this
    {
      Local(Entry(Tag(ts, wr), val), readlist, acklist, reading, writing, writeval, readval, writePhase,
            callback, rid, opId)
    }

    constructor (self: nat, n: nat, stored: Entry)
      ensures this.self == self && this.n == n
      ensures Mem() == Recovered(stored)
    {
      this.self, this.n := self, n;
      ts, wr, val := stored.tag.ts, stored.tag.wr, stored.val;
      readlist, acklist := map[], {};
      reading, writing, writePhase := false, false, false;
      writeval, readval := ZeroSector(), ZeroSector();
      callback, rid, opId := None, None, None;
    }

    method ClientCommand(id: OpId, requestId: nat, cmd: Command) returns (sent: set<Message>)
      modifies this
      ensures Quiet(Mem(), sent) == OnClient(self, old(Mem()), id, requestId, cmd)
      ensures opId == Some(id) && callback == Some(id) && rid == Some(requestId) && readlist == map[] && acklist == {}
      ensures if cmd.Read? then reading && writing == old(writing) && writeval == old(writeval)
              else writing && writeval == cmd.data && reading == old(reading)
      ensures sent == {ReadProc(self, id)}
      ensures Mem() == old(Mem()).(opId := opId, callback := callback, rid := rid, readlist := readlist, acklist := acklist,
                                   reading := reading, writing := writing, writeval := writeval)
    {
      opId := Some(id);
      callback := Some(id);
      rid := Some(requestId);
      match cmd {
        case Read =>
          readlist := map[];
          acklist := {};
          reading := true;
        case Write(data) =>
          writeval := data;
          acklist := {};
          readlist := map[];
          writing := true;
      }
      sent := {ReadProc(self, id)};
    }

    method SystemCommand(m: Message) returns (out: Outcome, ghost pick: Entry)
      modifies this
      ensures out == OnMessage(n, self, old(Mem()), m, pick)
      ensures out.Done? ==> Mem() == out.effect.mem
      ensures m.Value? && Closes(n, old(Mem()), m.src, m.id, m.entry) ==>
                RankHighest(Candidates(self, old(Mem()), m.src, m.entry), pick)
      ensures m.ReadProc? ==> out == Done(Quiet(old(Mem()), {Value(self, m.src, m.id, old(Mem()).cur)}))
      ensures m.WriteProc? ==>
                && out.Done? && out.effect.sent == {Ack(self, m.src, m.id)} && out.effect.fired.None?
                && (if (old(ts) < m.entry.tag.ts || (old(ts) == m.entry.tag.ts && old(wr) < m.entry.tag.wr))
                    then out.effect.stored == Some(m.entry) && Mem() == old(Mem()).(cur := m.entry)
                    else out.effect.stored.None? && Mem() == old(Mem()))
      ensures m.Value? ==> (out.Halt? <==> old(opId).None?)
      ensures m.Ack? ==>
                (out.Halt? <==> old(opId).None? || (Completes(n, old(Mem()), m.src, m.id) && old(callback).Some? && old(rid).None?))
    {
      pick := ZERO_ENTRY;
      match m {
        case ReadProc(src, id) =>
          out := Done(Quiet(Mem(), {Value(self, src, id, Entry(Tag(ts, wr), val))}));
        case Value(src, _, id, e) =>
          out, pick := ValueCommand(src, id, e);
        case WriteProc(src, id, e) =>
          var stored := None;
          if ts < e.tag.ts || (ts == e.tag.ts && wr < e.tag.wr) {
            ts, wr, val := e.tag.ts, e.tag.wr, e.val;
            stored := Some(Entry(Tag(ts, wr), val));
          }
          out := Done(Effect(Mem(), stored, {Ack(self, src, id)}, None, None));
        case Ack(src, _, id) =>
          out := AckCommand(src, id);
      }
    }

    method ValueCommand(src: nat, id: OpId, e: Entry) returns (out: Outcome, ghost pick: Entry)
      modifies this
      ensures out == OnValue(n, self, old(Mem()), src, id, e, pick)
      ensures out.Done? ==> Mem() == out.effect.mem
      ensures Closes(n, old(Mem()), src, id, e) ==>
                RankHighest(Candidates(self, old(Mem()), src, e), pick)
      ensures out.Halt? <==> old(opId).None?
      ensures old(opId).Some? && (old(opId) != Some(id) || old(writePhase)) ==> out == Done(Quiet(old(Mem()), {}))
      ensures old(opId) == Some(id) && !old(writePhase) && !Closes(n, old(Mem()), src, id, e) ==>
                out == Done(Quiet(old(Mem()).(readlist := old(readlist)[src := e]), {}))
      ensures Closes(n, old(Mem()), src, id, e) ==>
                && out.Done? && writePhase && readlist == map[] && acklist == {} && readval == pick.val
                && (if old(reading) then out.effect.stored.None? && out.effect.sent == {WriteProc(self, id, pick)}
                    else var made := Entry(Tag(pick.tag.ts + 1, self), old(writeval));
                         out.effect.stored == Some(made) && Mem().cur == made && out.effect.sent == {WriteProc(self, id, made)})
    {
      pick := ZERO_ENTRY;
      if opId.None? {
        return Halt, pick;
      }
      if id != opId.value || writePhase {
        return Done(Quiet(Mem(), {})), pick;
      }
      readlist := readlist[src := e];
      if |readlist| > n / 2 && (reading || writing) {
        out, pick := StartWritePhase(id);
      } else {
        out := Done(Quiet(Mem(), {}));
      }
    }

    /** The read phase has its majority: select, store if writing, and broadcast. */
    method StartWritePhase(id: OpId) returns (out: Outcome, ghost pick: Entry)
      modifies this
      ensures RankHighest(old(Mem()).readlist[self := old(Mem()).cur], pick)
      ensures out.Done? && Mem() == out.effect.mem
      ensures var l := old(Mem()); var e := Carried(self, l, pick);
              out.effect == Effect(
                l.(readval := pick.val, readlist := map[], acklist := {}, writePhase := true,
                   cur := if l.reading then l.cur else e),
                if l.reading then None else Some(e), {WriteProc(self, id, e)}, Some(e), None)
    {
      hide RankHighest;
      readlist := readlist[self := Entry(Tag(ts, wr), val)];
      assert self in readlist;
      var best := Highest(readlist);
      pick := best;
      readval := best.val;
      readlist := map[];
      acklist := {};
      writePhase := true;
      if reading {
        out := Done(Effect(Mem(), None, {WriteProc(self, id, best)}, Some(best), None));
      } else {
        ts, wr, val := best.tag.ts + 1, self, writeval;
        var stored := Entry(Tag(ts, wr), val);
        out := Done(Effect(Mem(), Some(stored), {WriteProc(self, id, stored)}, Some(stored), None));
      }
    }

    method AckCommand(src: nat, id: OpId) returns (out: Outcome)
      modifies this
      ensures out == OnAck(n, old(Mem()), src, id)
      ensures out.Done? ==> Mem() == out.effect.mem
      ensures out.Halt? <==> old(opId).None? || (Completes(n, old(Mem()), src, id) && old(callback).Some? && old(rid).None?)
      ensures old(opId).Some? && (old(opId) != Some(id) || !old(writePhase)) ==> out == Done(Quiet(old(Mem()), {}))
      ensures old(opId) == Some(id) && old(writePhase) && !Completes(n, old(Mem()), src, id) ==>
                out == Done(Quiet(old(Mem()).(acklist := old(acklist) + {src}), {}))
      ensures Completes(n, old(Mem()), src, id) && old(callback).Some? && old(rid).Some? ==>
                && out.Done? && !writePhase && acklist == {} && callback.None? && out.effect.stored.None? && out.effect.sent == {}
                && (if old(reading) then !reading else !writing)
                && out.effect.fired == Some(Success(old(callback).value, old(rid).value,
                                                    if old(reading) then ReadReturn(old(readval)) else WriteReturn))
    {
      if opId.None? {
        return Halt;
      }
      var fired := None;
      if id == opId.value && writePhase {
        acklist := acklist + {src};
        if |acklist| > n / 2 && (reading || writing) {
          acklist := {};
          writePhase := false;
          var ret: Result;
          if reading {
            reading := false;
            ret := ReadReturn(readval);
          } else {
            writing := false;
            ret := WriteReturn;
          }
          if callback.Some? {
            if rid.None? {
              return Halt;
            }
            fired := Some(Success(callback.value, rid.value, ret));
            callback := None;
          }
        }
      }
      out := Done(Effect(Mem(), None, {}, None, fired));
    }
  }
}
