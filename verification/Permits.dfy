/** One sector of one process: the permit, the queue of the worker, and the register it drives. */
module Permits {
  import opened Domain
  import opened Register
  import Wire
  import Responses

  datatype Work = ClientWork(id: OpId, rid: nat, cmd: Command) | SystemWork(m: Message)

  /**
   * `granted` is a client command whose connection holds the permit and has not yet queued it. A command's
   * callback owns the permit and gives it back after running.
   */
  datatype Sector = Sector(
    permit: bool,
    granted: Option<Work>,
    queue: seq<Work>,
    mem: Local,
    up: bool,
    issued: map<OpId, Work>,
    answered: map<OpId, Success>)

  datatype Step =
    | Grant(id: OpId, rid: nat, cmd: Command)
    | Enqueue
    | Arrive(m: Message)
    | Serve(pick: Entry)

  function Init(stored: Entry): Sector {
    Sector(true, None, [], Recovered(stored), true, map[], map[])
  }

  predicate Enabled(s: Sector, step: Step) {
    s.up &&
    match step
    case Grant(id, _, _) => s.permit && id !in s.issued
    case Enqueue => s.granted.Some?
    case Arrive(_) => true
    case Serve(_) => s.queue != []
  }

  function Served(n: nat, self: nat, s: Sector, pick: Entry): Sector
    requires s.queue != []
  {
    var rest := s.(queue := s.queue[1..]);
    match s.queue[0]
    case ClientWork(id, rid, cmd) => rest.(mem := OnClient(self, s.mem, id, rid, cmd).mem)
    case SystemWork(m) =>
      match OnMessage(n, self, s.mem, m, pick)
      case Halt => rest.(up := false)
      case Done(e) =>
        if e.fired.Some?
        then rest.(mem := e.mem, permit := true, answered := s.answered[e.fired.value.callback := e.fired.value])
        else rest.(mem := e.mem)
  }

  function Next(n: nat, self: nat, s: Sector, step: Step): Sector {
    match step
    case Grant(id, rid, cmd) =>
      s.(permit := false, granted := Some(ClientWork(id, rid, cmd)), issued := s.issued[id := ClientWork(id, rid, cmd)])
    case Enqueue => if s.granted.Some? then s.(granted := None, queue := s.queue + [s.granted.value]) else s
    case Arrive(m) => s.(queue := s.queue + [SystemWork(m)])
    case Serve(pick) => if s.queue != [] then Served(n, self, s, pick) else s
  }

  // ---------- The register ----------

  ghost predicate MemOk(s: Sector, l: Local) {
    && (l.writePhase ==> Busy(l)) && !(l.reading && l.writing)
    && (Busy(l) ==>
          && l.opId.Some? && l.callback == l.opId && l.rid.Some?
          && l.opId.value in s.issued && l.opId.value !in s.answered
          && s.issued[l.opId.value].ClientWork? && s.issued[l.opId.value].rid == l.rid.value
          && (l.reading <==> s.issued[l.opId.value].cmd.Read?))
    && (!Busy(l) ==> l.callback.None?)
  }

  /** A message finishes the operation and runs its callback, or leaves it unfinished. */
  lemma HandlerKeeps(n: nat, self: nat, s: Sector, m: Message, pick: Entry)
    requires MemOk(s, s.mem) && OnMessage(n, self, s.mem, m, pick).Done?
    ensures var e := OnMessage(n, self, s.mem, m, pick).effect;
            if e.fired.Some? then
              && Busy(s.mem) && !Busy(e.mem) && !e.mem.writePhase && e.mem.callback.None?
              && e.fired.value.callback == s.mem.opId.value && e.fired.value.rid == s.mem.rid.value
              && (e.fired.value.ret.ReadReturn? <==> s.mem.reading)
            else MemOk(s, e.mem) && Busy(e.mem) == Busy(s.mem)
  {
  }

  // ---------- The permit ----------

  function Clients(queue: seq<Work>): nat {
    if queue == [] then 0 else (if queue[0].ClientWork? then 1 else 0) + Clients(queue[1..])
  }

  lemma {:induction false} ClientsAppend(queue: seq<Work>, w: Work)
    ensures Clients(queue + [w]) == Clients(queue) + if w.ClientWork? then 1 else 0
  {
    if queue == [] {
      assert queue + [w] == [w];
    } else {
      ClientsAppend(queue[1..], w);
      assert (queue + [w])[1..] == queue[1..] + [w];
    }
  }

  /** Commands granted, queued and executing. */
  function Held(s: Sector): nat {
    (if s.granted.Some? then 1 else 0) + Clients(s.queue) + if Busy(s.mem) then 1 else 0
  }

  ghost predicate Pending(s: Sector, w: Work) {
    w.ClientWork? ==> w.id in s.issued && s.issued[w.id] == w && w.id !in s.answered
  }

  ghost predicate Inv(s: Sector) {
    s.up ==>
      && Held(s) == (if s.permit then 0 else 1)
      && MemOk(s, s.mem)
      && (s.granted.Some? ==> s.granted.value.ClientWork? && Pending(s, s.granted.value))
      && (forall i :: 0 <= i < |s.queue| ==> Pending(s, s.queue[i]))
      && s.answered.Keys <= s.issued.Keys
  }

  /** An answer carries the request identifier and the kind of its own command. */
  ghost predicate AnswerOk(s: Sector, id: OpId)
    requires id in s.answered
  {
    var f := s.answered[id];
    && id in s.issued && s.issued[id].ClientWork? && f.callback == id && f.rid == s.issued[id].rid
    && (f.ret.ReadReturn? <==> s.issued[id].cmd.Read?)
  }

  ghost predicate AnswersOk(s: Sector) {
    forall id :: id in s.answered ==> AnswerOk(s, id)
  }

  /** A client command is served by an idle register. */
  lemma ServedIdle(s: Sector)
    requires Inv(s) && s.up && s.queue != [] && s.queue[0].ClientWork?
    ensures !s.mem.reading && !s.mem.writing && !s.mem.writePhase && s.granted.None? && Clients(s.queue[1..]) == 0
  {
  }

  lemma {:induction false} NoClients(queue: seq<Work>, i: nat)
    requires Clients(queue) == 0 && i < |queue|
    ensures queue[i].SystemWork?
  {
    if i > 0 {
      NoClients(queue[1..], i - 1);
    }
  }

  lemma ServeClient(n: nat, self: nat, s: Sector, pick: Entry)
    requires Inv(s) && s.up && s.queue != [] && s.queue[0].ClientWork?
    ensures Inv(Served(n, self, s, pick))
  {
  }

  lemma ServeSystem(n: nat, self: nat, s: Sector, pick: Entry)
    requires Inv(s) && s.up && s.queue != [] && s.queue[0].SystemWork?
    ensures Inv(Served(n, self, s, pick))
  {
    var t := Served(n, self, s, pick);
    if t.up {
      HandlerKeeps(n, self, s, s.queue[0].m, pick);
      forall i | 0 <= i < |t.queue| ensures Pending(t, t.queue[i]) {
        assert t.queue[i] == s.queue[i + 1] && Pending(s, s.queue[i + 1]);
        if t.permit && Clients(t.queue) == 0 {
          NoClients(t.queue, i);
        }
      }
    }
  }

  lemma InvStep(n: nat, self: nat, s: Sector, step: Step)
    requires Inv(s) && Enabled(s, step)
    ensures Inv(Next(n, self, s, step))
  {
    match step
    case Grant(id, rid, cmd) =>
      forall i | 0 <= i < |s.queue| ensures Pending(Next(n, self, s, step), s.queue[i]) {
        NoClients(s.queue, i);
      }
    case Enqueue => ClientsAppend(s.queue, s.granted.value);
    case Arrive(m) => ClientsAppend(s.queue, SystemWork(m));
    case Serve(pick) =>
      if s.queue[0].ClientWork? {
        ServeClient(n, self, s, pick);
      } else {
        ServeSystem(n, self, s, pick);
      }
  }

  lemma AnswersStep(n: nat, self: nat, s: Sector, step: Step)
    requires Inv(s) && AnswersOk(s) && Enabled(s, step)
    ensures AnswersOk(Next(n, self, s, step))
    ensures forall id :: id in s.answered ==>
              id in Next(n, self, s, step).answered && Next(n, self, s, step).answered[id] == s.answered[id]
  {
  }

  function After(n: nat, self: nat, stored: Entry, steps: seq<Step>): Sector {
    if steps == [] then Init(stored)
    else Next(n, self, After(n, self, stored, steps[..|steps| - 1]), steps[|steps| - 1])
  }

  ghost predicate Run(n: nat, self: nat, stored: Entry, steps: seq<Step>) {
    steps == [] ||
    (Run(n, self, stored, steps[..|steps| - 1]) &&
     Enabled(After(n, self, stored, steps[..|steps| - 1]), steps[|steps| - 1]))
  }

  lemma {:induction false} InvRun(n: nat, self: nat, stored: Entry, steps: seq<Step>)
    requires Run(n, self, stored, steps)
    ensures Inv(After(n, self, stored, steps)) && AnswersOk(After(n, self, stored, steps))
  {
    if steps != [] {
      var last := |steps| - 1;
      InvRun(n, self, stored, steps[..last]);
      InvStep(n, self, After(n, self, stored, steps[..last]), steps[last]);
      AnswersStep(n, self, After(n, self, stored, steps[..last]), steps[last]);
    }
  }

  // ---------- The queue ----------

  /** The work that a run has put into the queue, in order. */
  function Queued(steps: seq<Step>): seq<Work> {
    if steps == [] then []
    else
      var front, last := steps[..|steps| - 1], steps[|steps| - 1];
      match last
      case Arrive(m) => Queued(front) + [SystemWork(m)]
      case Enqueue => Queued(front) + LastGranted(front)
      case _ => Queued(front)
  }

  /** The last command that was granted the permit. */
  function LastGranted(steps: seq<Step>): seq<Work> {
    if steps == [] then []
    else
      match steps[|steps| - 1]
      case Grant(id, rid, cmd) => [ClientWork(id, rid, cmd)]
      case _ => LastGranted(steps[..|steps| - 1])
  }

  function Serves(steps: seq<Step>): nat {
    if steps == [] then 0 else Serves(steps[..|steps| - 1]) + if steps[|steps| - 1].Serve? then 1 else 0
  }

  lemma QueueStep(n: nat, self: nat, s: Sector, step: Step)
    requires Enabled(s, step)
    ensures var t := Next(n, self, s, step);
            match step
            case Grant(id, rid, cmd) => t.queue == s.queue && t.granted == Some(ClientWork(id, rid, cmd))
            case Enqueue => s.granted.Some? && t.queue == s.queue + [s.granted.value] && t.granted.None?
            case Arrive(m) => t.queue == s.queue + [SystemWork(m)] && t.granted == s.granted
            case Serve(_) => s.queue != [] && t.queue == s.queue[1..] && t.granted == s.granted
  {
    hide OnMessage;
  }

  lemma DropAppend(all: seq<Work>, k: nat, w: Work)
    requires k <= |all|
    ensures (all + [w])[k..] == all[k..] + [w]
    ensures k < |all| ==> all[k..][1..] == all[k + 1..]
  {
  }

  /** In every run work is served once, in the order in which it was queued. */
  lemma {:induction false} ServedInOrder(n: nat, self: nat, stored: Entry, steps: seq<Step>)
    requires Run(n, self, stored, steps)
    ensures var s := After(n, self, stored, steps);
            && Serves(steps) <= |Queued(steps)| && s.queue == Queued(steps)[Serves(steps)..]
            && (s.granted.Some? ==> LastGranted(steps) == [s.granted.value])
  {
    if steps != [] {
      var front, step := steps[..|steps| - 1], steps[|steps| - 1];
      var s := After(n, self, stored, front);
      ServedInOrder(n, self, stored, front);
      QueueStep(n, self, s, step);
      hide Next;
      hide Enabled;
      var w := if step.Arrive? then SystemWork(step.m)
               else if s.granted.Some? then s.granted.value else ClientWork(0, 0, Read);
      DropAppend(Queued(front), Serves(front), w);
    }
  }

  /** In every run the permit is taken exactly while one client command is granted, queued or executing. */
  lemma OneCommandAtATime(n: nat, self: nat, stored: Entry, steps: seq<Step>)
    requires Run(n, self, stored, steps) && After(n, self, stored, steps).up
    ensures var s := After(n, self, stored, steps); Held(s) <= 1 && (s.permit <==> Held(s) == 0)
  {
    InvRun(n, self, stored, steps);
  }

  /** In every run a client command reaches the register when nothing is in progress. */
  lemma ClientFindsRegisterIdle(n: nat, self: nat, stored: Entry, steps: seq<Step>)
    requires Run(n, self, stored, steps)
    requires var s := After(n, self, stored, steps); s.up && s.queue != [] && s.queue[0].ClientWork?
    ensures var l := After(n, self, stored, steps).mem; !l.reading && !l.writing && !l.writePhase && l.callback.None?
  {
    InvRun(n, self, stored, steps);
    ServedIdle(After(n, self, stored, steps));
  }

  /** The register goes from an operation in progress to none. */
  predicate Finishes(s: Sector, t: Sector) {
    t.up && Busy(s.mem) && !Busy(t.mem)
  }

  lemma HandlerAnswers(n: nat, self: nat, s: Sector, m: Message, pick: Entry)
    requires MemOk(s, s.mem) && OnMessage(n, self, s.mem, m, pick).Done?
    ensures var e := OnMessage(n, self, s.mem, m, pick).effect;
            && (e.fired.Some? <==> Busy(s.mem) && !Busy(e.mem))
            && (e.fired.Some? ==>
                  e.fired.value == Success(s.mem.opId.value, s.mem.rid.value,
                                           if s.mem.reading then ReadReturn(s.mem.readval) else WriteReturn))
  {
  }

  /**
   * In every run a step gives an answer, and gives the permit back, exactly if it takes the register from busy to
   * idle. The answer goes to the command in progress, which had none, and is what the register read, or that the
   * write is done.
   */
  lemma AnsweredExactly(n: nat, self: nat, stored: Entry, steps: seq<Step>, step: Step)
    requires Run(n, self, stored, steps) && Enabled(After(n, self, stored, steps), step)
    ensures var s := After(n, self, stored, steps); var t := Next(n, self, s, step);
            && (Finishes(s, t) <==> t.answered != s.answered) && (Finishes(s, t) <==> !s.permit && t.permit)
            && (Finishes(s, t) ==>
                  && s.mem.opId.Some? && s.mem.rid.Some? && s.mem.opId.value !in s.answered
                  && t.answered == s.answered[s.mem.opId.value :=
                       Success(s.mem.opId.value, s.mem.rid.value,
                               if s.mem.reading then ReadReturn(s.mem.readval) else WriteReturn)])
  {
    InvRun(n, self, stored, steps);
    var s := After(n, self, stored, steps);
    hide Run;
    hide After;
    AnsweredHere(n, self, s, step);
  }

  lemma AnsweredHere(n: nat, self: nat, s: Sector, step: Step)
    requires Inv(s) && Enabled(s, step)
    ensures var t := Next(n, self, s, step);
            && (Finishes(s, t) <==> t.answered != s.answered) && (Finishes(s, t) <==> !s.permit && t.permit)
            && (Finishes(s, t) ==>
                  && s.mem.opId.Some? && s.mem.rid.Some? && s.mem.opId.value !in s.answered
                  && t.answered == s.answered[s.mem.opId.value :=
                       Success(s.mem.opId.value, s.mem.rid.value,
                               if s.mem.reading then ReadReturn(s.mem.readval) else WriteReturn)])
  {
    if step.Serve? {
      if s.queue[0].ClientWork? {
        ServedIdle(s);
      } else if OnMessage(n, self, s.mem, s.queue[0].m, step.pick).Done? {
        HandlerAnswers(n, self, s, s.queue[0].m, step.pick);
      }
    }
    hide OnMessage;
  }

  /**
   * In every run the worker stops exactly when it serves a VALUE or an ACK to a register without an operation
   * identifier.
   */
  lemma WorkerStops(n: nat, self: nat, stored: Entry, steps: seq<Step>, step: Step)
    requires Run(n, self, stored, steps) && Enabled(After(n, self, stored, steps), step)
    ensures var s := After(n, self, stored, steps); var t := Next(n, self, s, step);
            !t.up <==>
            && step.Serve? && s.queue != [] && s.queue[0].SystemWork? && (s.queue[0].m.Value? || s.queue[0].m.Ack?)
            && s.mem.opId.None?
  {
    InvRun(n, self, stored, steps);
    var s := After(n, self, stored, steps);
    hide Run;
    hide After;
    if step.Serve? && s.queue[0].SystemWork? {
      HaltsWithout(n, self, s, s.queue[0].m, step.pick);
    }
    hide OnMessage;
  }

  lemma HaltsWithout(n: nat, self: nat, s: Sector, m: Message, pick: Entry)
    requires MemOk(s, s.mem)
    ensures OnMessage(n, self, s.mem, m, pick).Halt? <==> (m.Value? || m.Ack?) && s.mem.opId.None?
  {
  }

  /** What the callback sends for an answer is what the driver decodes: success, the request's number, and the data. */
  lemma AnswerDecoded(n: nat, self: nat, stored: Entry, steps: seq<Step>, id: OpId, rest: Wire.Bytes, key: Wire.Bytes, mac: Wire.Mac)
    requires Run(n, self, stored, steps) && id in After(n, self, stored, steps).answered
    requires var f := After(n, self, stored, steps).answered[id];
             f.rid < Wire.Pow256(8) && (f.ret.ReadReturn? ==> |f.ret.data| == SECTOR_SIZE)
    ensures var s := After(n, self, stored, steps); var f := s.answered[id];
            && id in s.issued && s.issued[id].ClientWork? && (f.ret.ReadReturn? <==> s.issued[id].cmd.Read?)
            && var work := s.issued[id]; var kind := if work.cmd.Read? then 1 else 2;
               Responses.Fetched(Responses.Response(Responses.Ok, kind, work.rid, Responses.ContentOf(f.ret), key, mac) + rest, key, mac)
               == Responses.Got(Responses.Ok, work.rid, if work.cmd.Read? then f.ret.data else [])
  {
    InvRun(n, self, stored, steps);
    var s := After(n, self, stored, steps);
    assert AnswerOk(s, id);
    var f, work := s.answered[id], s.issued[id];
    Responses.ResponseRoundTrip(Responses.Ok, if work.cmd.Read? then 1 else 2, work.rid, Responses.ContentOf(f.ret), rest, key, mac);
  }

  /** An answer, once given, is the only one for its command, and fits it. */
  lemma AnswersFitAndStay(n: nat, self: nat, stored: Entry, steps: seq<Step>, step: Step, id: OpId)
    requires Run(n, self, stored, steps) && Enabled(After(n, self, stored, steps), step)
    requires id in After(n, self, stored, steps).answered
    ensures var s := After(n, self, stored, steps); var t := Next(n, self, s, step);
            && AnswerOk(s, id) && id in t.answered && t.answered[id] == s.answered[id]
            && (forall w :: w in t.queue && w.ClientWork? && t.up ==> w.id != id)
  {
    InvRun(n, self, stored, steps);
    var s := After(n, self, stored, steps);
    AnswersStep(n, self, s, step);
    InvStep(n, self, s, step);
  }
}
