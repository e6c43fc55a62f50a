/** All N processes of one sector, the network between them, and their runs. */
module Cluster {
  import opened Domain
  import opened Register

  /**
   * How `Highest` selects: as documented, as the code does, or arbitrarily among what was reported.
   * What is proved for `AnyEntry` holds for the other two.
   */
  datatype Policy = Lex | RankOnly | AnyEntry

  ghost predicate Selects(policy: Policy, list: map<nat, Entry>, e: Entry) {
    match policy
    case Lex => LexHighest(list, e)
    case RankOnly => RankHighest(list, e)
    case AnyEntry => e in list.Values
  }

  /** A process: whether it runs, what its sector store holds, and its volatile memory. */
  datatype Proc = Proc(up: bool, store: Entry, mem: Local)

  /** The network is the set of messages ever sent: any of them may be lost, repeated or overtaken. */
  datatype System = System(
    n: nat,
    procs: map<nat, Proc>,
    net: set<Message>,
    ops: History,
    chosen: map<OpId, Entry>,
    writes: nat,
    clock: nat)

  /**
   * A delivery with `cut` set crashes the process after the handler has stored its entry and before it
   * has sent anything or run its callback.
   */
  datatype Step =
    | Invoke(p: nat, id: OpId, rid: nat, cmd: Command)
    | Deliver(p: nat, m: Message, pick: Entry, cut: bool)
    | Crash(p: nat)
    | Recover(p: nat)

  function Init(n: nat): System {
    System(n, map p | p in Idents(n) :: Proc(true, ZERO_ENTRY, Recovered(ZERO_ENTRY)), {}, map[], map[], 0, 0)
  }

  predicate Addressed(p: nat, m: Message) {
    m.Value? || m.Ack? ==> m.dst == p
  }

  /** A client command is handed over only when the register is idle; `Permits` shows that it always is. */
  predicate Idle(l: Local) {
    !l.reading && !l.writing && !l.writePhase
  }

  ghost predicate PickOk(policy: Policy, s: System, p: nat, m: Message, pick: Entry)
    requires p in s.procs
  {
    m.Value? && Closes(s.n, s.procs[p].mem, m.src, m.id, m.entry) ==>
      Selects(policy, Candidates(p, s.procs[p].mem, m.src, m.entry), pick)
  }

  ghost predicate Enabled(policy: Policy, s: System, step: Step) {
    && step.p in s.procs
    && match step
       case Invoke(p, id, _, _) => s.procs[p].up && Idle(s.procs[p].mem) && id !in s.ops
       case Deliver(p, m, pick, _) => s.procs[p].up && m in s.net && Addressed(p, m) && PickOk(policy, s, p, m, pick)
       case Crash(p) => s.procs[p].up
       case Recover(p) => !s.procs[p].up
  }

  function Invoked(s: System, p: nat, id: OpId, rid: nat, cmd: Command): System
    requires p in s.procs
  {
    var e := OnClient(p, s.procs[p].mem, id, rid, cmd);
    s.(procs := s.procs[p := s.procs[p].(mem := e.mem)],
       net := s.net + e.sent,
       ops := s.ops[id := OpRecord(p, rid, cmd, s.clock, None)],
       clock := s.clock + 1)
  }

  function StoreAfter(store: Entry, e: Effect): Entry {
    if e.stored.Some? then e.stored.value else store
  }

  function ChosenAfter(s: System, id: OpId, e: Effect): map<OpId, Entry> {
    if e.begun.Some? then s.chosen[id := e.begun.value] else s.chosen
  }

  function WritesAfter(s: System, e: Effect): nat {
    if e.begun.Some? && e.stored.Some? then s.writes + 1 else s.writes
  }

  function OpsAfter(ops: History, clock: nat, e: Effect): History {
    if e.fired.Some? && e.fired.value.callback in ops then
      var id := e.fired.value.callback;
      ops[id := ops[id].(ret := Some(Return(clock, e.fired.value.ret)))]
    else ops
  }

  function Delivered(s: System, p: nat, m: Message, pick: Entry, cut: bool): System
    requires p in s.procs
  {
    var pr := s.procs[p];
    match OnMessage(s.n, p, pr.mem, m, pick)
    case Halt => s.(procs := s.procs[p := pr.(up := false)], clock := s.clock + 1)
    case Done(e) =>
      if cut then
        s.(procs := s.procs[p := Proc(false, StoreAfter(pr.store, e), pr.mem)],
           chosen := ChosenAfter(s, m.id, e), writes := WritesAfter(s, e), clock := s.clock + 1)
      else
        s.(procs := s.procs[p := Proc(true, StoreAfter(pr.store, e), e.mem)],
           net := s.net + e.sent, ops := OpsAfter(s.ops, s.clock, e),
           chosen := ChosenAfter(s, m.id, e), writes := WritesAfter(s, e), clock := s.clock + 1)
  }

  function Next(s: System, step: Step): System {
    if step.p !in s.procs then s
    else match step
      case Invoke(p, id, rid, cmd) => Invoked(s, p, id, rid, cmd)
      case Deliver(p, m, pick, cut) => Delivered(s, p, m, pick, cut)
      case Crash(p) => s.(procs := s.procs[p := s.procs[p].(up := false)], clock := s.clock + 1)
      case Recover(p) =>
        s.(procs := s.procs[p := Proc(true, s.procs[p].store, Recovered(s.procs[p].store))], clock := s.clock + 1)
  }

  function After(s: System, steps: seq<Step>): System {
    if steps == [] then s else Next(After(s, steps[..|steps| - 1]), steps[|steps| - 1])
  }

  ghost predicate Run(policy: Policy, s: System, steps: seq<Step>) {
    steps == [] ||
    (Run(policy, s, steps[..|steps| - 1]) && Enabled(policy, After(s, steps[..|steps| - 1]), steps[|steps| - 1]))
  }

  /** The entries held by process `p`: on disc, in memory and in its readlist. */
  ghost predicate HeldBy(s: System, p: nat, e: Entry) {
    p in s.procs &&
    (s.procs[p].store == e || (s.procs[p].up && (s.procs[p].mem.cur == e || e in s.procs[p].mem.readlist.Values)))
  }

  /** Everything in circulation. */
  ghost predicate Circulates(s: System, e: Entry) {
    || (exists p :: HeldBy(s, p, e))
    || (exists m :: m in s.net && (m.Value? || m.WriteProc?) && m.entry == e)
    || (exists id :: id in s.chosen && s.chosen[id] == e)
  }

  /** Some run of `n` processes under `policy` ends in `s`. */
  ghost predicate Reachable(policy: Policy, n: nat, s: System) {
    exists steps :: Run(policy, Init(n), steps) && After(Init(n), steps) == s
  }

  lemma NoSteps(policy: Policy, s: System)
    ensures Run(policy, s, []) && After(s, []) == s
  {
  }

  lemma OneStep(policy: Policy, s: System, step: Step)
    requires Enabled(policy, s, step)
    ensures Run(policy, s, [step]) && After(s, [step]) == Next(s, step)
  {
    hide Enabled;
    hide Next;
    NoSteps(policy, s);
    assert [step][..0] == [];
  }

  lemma {:induction false} RunConcat(policy: Policy, s: System, a: seq<Step>, b: seq<Step>)
    requires Run(policy, s, a) && Run(policy, After(s, a), b)
    ensures Run(policy, s, a + b) && After(s, a + b) == After(After(s, a), b)
    decreases |b|
  {
    if b == [] {
      assert a + b == a;
    } else {
      var last := |b| - 1;
      RunConcat(policy, s, a, b[..last]);
      assert (a + b)[..|a + b| - 1] == a + b[..last];
    }
  }

  /** Whatever the code or the documented protocol does is allowed under `AnyEntry`. */
  lemma {:induction false} RunsAreAny(policy: Policy, s: System, steps: seq<Step>)
    requires Run(policy, s, steps)
    ensures Run(AnyEntry, s, steps)
  {
    if steps != [] {
      RunsAreAny(policy, s, steps[..|steps| - 1]);
    }
  }
}
