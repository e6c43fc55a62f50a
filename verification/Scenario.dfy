/** Building runs of the code: whole operations through a chosen majority, one after the other. */
module Scenario {
  import opened Domain
  import opened Histories
  import opened Register
  import opened Cluster
  import opened QuorumCore
  import opened Refinement
  import opened Progress
  import opened AnySelection

  // ---------- One operation at a time, through a chosen majority ----------

  /** All processes run and none has an operation in progress. */
  ghost predicate Resting(s: System) {
    forall q :: q in s.procs ==> s.procs[q].up && Idle(s.procs[q].mem)
  }

  /** All processes run, and `p` has no operation in progress. */
  ghost predicate Ready(s: System, p: nat) {
    p in s.procs && Idle(s.procs[p].mem) && forall q :: q in s.procs ==> s.procs[q].up
  }

  /** No crash, no recovery, and no delivery cut short. */
  predicate Calm(steps: seq<Step>) {
    forall i :: 0 <= i < |steps| ==> steps[i].Invoke? || (steps[i].Deliver? && !steps[i].cut)
  }

  lemma CalmConcat(a: seq<Step>, b: seq<Step>)
    requires Calm(a) && Calm(b)
    ensures Calm(a + b)
  {
  }

  lemma DeliveriesCalm(steps: seq<Step>, who: set<nat>)
    requires Deliveries(steps, who)
    ensures Calm(steps)
  {
  }

  /** A majority of the smallest size, so that an operation waits for each of its members. */
  ghost predicate Smallest(s: System, quorum: set<nat>) {
    |quorum| == s.n / 2 + 1 && quorum <= s.procs.Keys
  }

  ghost function Stores(s: System, quorum: set<nat>): map<nat, Entry> {
    map q | q in quorum && q in s.procs :: s.procs[q].store
  }

  /** When the last member answers, `Highest` chooses among what the quorum has stored. */
  lemma WholeAnswer(s: System, t: System, p: nat, id: OpId, q: nat, quorum: set<nat>)
    requires ReadPhase(s, p, id) && s.procs[p].mem.readlist == map[] && s.procs[p].mem.cur == s.procs[p].store
    requires Smallest(s, quorum) && p in quorum && q in quorum
    requires Collected(s, t, p) && Gathered(s, t, p, quorum) && EndsReading(t, p, id, q)
    ensures Candidates(p, t.procs[p].mem, q, t.procs[q].store) == Stores(s, quorum)
  {
    var list := t.procs[p].mem.readlist[q := t.procs[q].store];
    assert list.Keys <= quorum;
    assert |list.Keys| == |list|;
    assert |quorum - list.Keys| == |quorum| - |list.Keys|;
    assert list.Keys == quorum;
  }

  lemma EnteredAfter(s: System, t1: System, t: System, p: nat, id: OpId, pick: Entry)
    requires p in s.procs && Collected(s, t1, p) && Entered(t1, t, p, id, Carried(p, t1.procs[p].mem, pick))
    ensures Entered(s, t, p, id, Carried(p, s.procs[p].mem, pick))
  {
  }

  /** The read phase with a smallest quorum; `pick` is what `Highest` returns. */
  lemma FirstPhase(policy: Policy, s: System, p: nat, id: OpId, pick: Entry, quorum: set<nat>)
    returns (steps: seq<Step>, t: System)
    requires SysInv(s) && ReadPhase(s, p, id) && s.procs[p].mem.readlist == map[]
    requires Smallest(s, quorum) && p in quorum && Quorum(s, quorum) && Selects(policy, Stores(s, quorum), pick)
    ensures Run(policy, s, steps) && t == After(s, steps) && SysInv(t) && Calm(steps)
    ensures Entered(s, t, p, id, Carried(p, s.procs[p].mem, pick))
  {
    hide Run;
    hide After;
    hide Entered;
    hide Calm;
    hide Deliveries;
    hide Selects;
    assert s.procs[p].mem.cur == s.procs[p].store by { assert ProcOk(s, p); }
    hide SysInv;
    var front, t1, q := CollectAnswers(policy, s, p, id, quorum);
    CollectedKeeps(s, t1, p, id, quorum);
    WholeAnswer(s, t1, p, id, q, quorum);
    var round;
    round, t := Enter(policy, t1, p, id, q, pick, quorum);
    EnteredAfter(s, t1, t, p, id, pick);
    steps := front + round;
    RunConcat(policy, s, front, round);
    DeliveriesCalm(front, quorum + {p});
    DeliveriesCalm(round, quorum + {p});
    CalmConcat(front, round);
  }

  function Replied(cmd: Command, e: Entry): Result {
    if cmd.Read? then ReadReturn(e.val) else WriteReturn
  }

  /** `t` is `s` after `p` has performed the whole operation through `quorum`. */
  ghost predicate Performed(s: System, t: System, p: nat, id: OpId, cmd: Command, e: Entry, quorum: set<nat>) {
    && t.n == s.n && t.procs.Keys == s.procs.Keys && s.net <= t.net && s.clock < t.clock
    && id in t.ops && t.ops == s.ops[id := t.ops[id]] && t.chosen == s.chosen[id := e]
    && t.ops[id].cmd == cmd && t.ops[id].ret.Some? && t.ops[id].ret.value.result == Replied(cmd, e)
    && s.clock <= t.ops[id].inv && t.ops[id].ret.value.at < t.clock
    && Ready(t, p) && (forall r :: r in s.procs && r != p ==> t.procs[r].mem == s.procs[r].mem.(cur := t.procs[r].mem.cur))
    && (forall r :: r in s.procs && r !in quorum ==> t.procs[r].store == s.procs[r].store)
    && (forall r :: r in s.procs && r in quorum ==>
          t.procs[r].store == if r == p && cmd.Write? then e else Merge(s.procs[r].store, e))
  }

  lemma InvokedState(s: System, p: nat, id: OpId, cmd: Command, quorum: set<nat>)
    requires Ready(s, p) && Smallest(s, quorum)
    ensures var t := Invoked(s, p, id, 0, cmd);
            && ReadPhase(t, p, id) && t.procs[p].mem.readlist == map[] && t.procs[p].mem.reading == cmd.Read?
            && (forall pick :: Carried(p, t.procs[p].mem, pick) == Taken(p, cmd, pick))
            && Stores(t, quorum) == Stores(s, quorum) && Smallest(t, quorum) && Quorum(t, quorum)
  {
  }

  lemma InvokeOne(policy: Policy, s: System, p: nat, id: OpId, cmd: Command) returns (steps: seq<Step>)
    requires SysInv(s) && Ready(s, p) && id !in s.ops
    ensures Run(policy, s, steps) && After(s, steps) == Invoked(s, p, id, 0, cmd) && Calm(steps)
    ensures SysInv(Invoked(s, p, id, 0, cmd))
  {
    var step := Invoke(p, id, 0, cmd);
    steps := [step];
    assert steps[..0] == [];
    assert Enabled(policy, s, step);
    assert After(s, steps) == Next(After(s, []), step);
    SysInvStep(s, step);
  }

  /** The three parts of an operation: invocation, read phase and write phase. */
  ghost predicate Parts(s: System, t1: System, t2: System, t: System, p: nat, id: OpId, cmd: Command, e: Entry, quorum: set<nat>) {
    && p in s.procs && p in quorum && quorum <= s.procs.Keys && id !in s.ops && t1 == Invoked(s, p, id, 0, cmd)
    && t1.procs[p].mem.reading == cmd.Read? && Entered(t1, t2, p, id, e) && id in t2.ops
    && Finished(t2, t, p, id, e, quorum) && AllMerged(t2, t, e, quorum)
  }

  lemma PartsHistory(s: System, t1: System, t2: System, t: System, p: nat, id: OpId, cmd: Command, e: Entry, quorum: set<nat>)
    requires Parts(s, t1, t2, t, p, id, cmd, e, quorum)
    ensures t.n == s.n && t.procs.Keys == s.procs.Keys && s.net <= t.net && s.clock < t.clock
    ensures id in t.ops && t.ops == s.ops[id := t.ops[id]] && t.chosen == s.chosen[id := e]
    ensures t.ops[id].cmd == cmd && t.ops[id].ret.Some? && t.ops[id].ret.value.result == Replied(cmd, e)
    ensures s.clock <= t.ops[id].inv && t.ops[id].ret.value.at < t.clock
  {
  }

  lemma PartsStores(s: System, t1: System, t2: System, t: System, p: nat, id: OpId, cmd: Command, e: Entry, quorum: set<nat>)
    requires Parts(s, t1, t2, t, p, id, cmd, e, quorum)
    ensures forall r :: r in s.procs && r !in quorum ==> t.procs[r].store == s.procs[r].store
    ensures forall r :: r in s.procs && r in quorum ==>
              t.procs[r].store == if r == p && cmd.Write? then e else Merge(s.procs[r].store, e)
  {
  }

  lemma PartsRest(s: System, t1: System, t2: System, t: System, p: nat, id: OpId, cmd: Command, e: Entry, quorum: set<nat>)
    requires Ready(s, p) && Parts(s, t1, t2, t, p, id, cmd, e, quorum)
    ensures Ready(t, p) && forall r :: r in s.procs && r != p ==> t.procs[r].mem == s.procs[r].mem.(cur := t.procs[r].mem.cur)
  {
    forall r | r in t.procs && r != p ensures t.procs[r].up && t.procs[r].mem == s.procs[r].mem.(cur := t.procs[r].mem.cur) {
      assert t2.procs[r] == t1.procs[r] == s.procs[r];
    }
    assert t2.procs[p].up;
  }

  lemma PartsPerformed(s: System, t1: System, t2: System, t: System, p: nat, id: OpId, cmd: Command, e: Entry, quorum: set<nat>)
    requires Ready(s, p) && Parts(s, t1, t2, t, p, id, cmd, e, quorum)
    ensures Performed(s, t, p, id, cmd, e, quorum)
  {
    PartsHistory(s, t1, t2, t, p, id, cmd, e, quorum);
    PartsStores(s, t1, t2, t, p, id, cmd, e, quorum);
    PartsRest(s, t1, t2, t, p, id, cmd, e, quorum);
    hide Parts;
  }

  /** A whole operation through a smallest quorum, with `pick` returned by `Highest`. */
  lemma Perform(policy: Policy, s: System, p: nat, id: OpId, cmd: Command, pick: Entry, quorum: set<nat>)
    returns (steps: seq<Step>, t: System)
    requires SysInv(s) && Ready(s, p) && id !in s.ops
    requires Smallest(s, quorum) && p in quorum && Selects(policy, Stores(s, quorum), pick)
    ensures Run(policy, s, steps) && t == After(s, steps) && SysInv(t) && Calm(steps)
    ensures Performed(s, t, p, id, cmd, Taken(p, cmd, pick), quorum)
  {
    hide Run;
    hide After;
    hide SysInv;
    hide Entered;
    hide Finished;
    hide AllMerged;
    hide Calm;
    hide Deliveries;
    hide Performed;
    hide Selects;
    var e := Taken(p, cmd, pick);
    var a := InvokeOne(policy, s, p, id, cmd);
    var t1 := Invoked(s, p, id, 0, cmd);
    InvokedState(s, p, id, cmd, quorum);
    var b, t2 := FirstPhase(policy, t1, p, id, pick, quorum);
    EnteredKeeps(t1, t2, p, id, e, quorum);
    var c;
    c, t := Complete(policy, t2, p, id, e, quorum);
    PartsPerformed(s, t1, t2, t, p, id, cmd, e, quorum);
    RunConcat(policy, s, a, b);
    RunConcat(policy, s, a + b, c);
    steps := a + b + c;
    DeliveriesCalm(c, quorum + {p});
    CalmConcat(a, b);
    CalmConcat(a + b, c);
  }

  // ---------- From the start ----------

  /** The code has run to `s`, where all processes run. */
  ghost predicate At(n: nat, steps: seq<Step>, s: System) {
    Run(RankOnly, Init(n), steps) && After(Init(n), steps) == s
  }

  ghost predicate Stage(n: nat, steps: seq<Step>, s: System) {
    At(n, steps, s) && s.n == n && s.procs.Keys == Idents(n)
  }

  lemma StageInit(n: nat)
    ensures Stage(n, [], Init(n)) && Resting(Init(n)) && Calm([])
  {
    NoSteps(RankOnly, Init(n));
  }

  lemma StageInv(n: nat, steps: seq<Step>, s: System)
    requires At(n, steps, s)
    ensures SysInv(s) && s.n == n && s.procs.Keys == Idents(n)
  {
    SysInvInit(n);
    SysInvKept(RankOnly, Init(n), steps);
    WritesCounted(Init(n), steps);
  }

  lemma Extend(n: nat, steps: seq<Step>, s: System, more: seq<Step>)
    requires At(n, steps, s) && Run(RankOnly, s, more)
    ensures At(n, steps + more, After(s, more))
  {
    RunConcat(RankOnly, Init(n), steps, more);
  }

  lemma OneMore(n: nat, steps: seq<Step>, s: System, step: Step)
    requires At(n, steps, s) && Enabled(RankOnly, s, step)
    ensures At(n, steps + [step], Next(s, step))
  {
    hide Enabled;
    hide Next;
    assert (steps + [step])[..|steps|] == steps;
  }

  /** `p` performs a whole operation after `steps`. */
  lemma PerformFrom(n: nat, steps: seq<Step>, s: System, p: nat, id: OpId, cmd: Command, pick: Entry, quorum: set<nat>)
    returns (all: seq<Step>, t: System)
    requires Stage(n, steps, s) && Ready(s, p) && id !in s.ops
    requires Smallest(s, quorum) && p in quorum && RankHighest(Stores(s, quorum), pick)
    ensures Stage(n, all, t) && Performed(s, t, p, id, cmd, Taken(p, cmd, pick), quorum)
    ensures Calm(steps) ==> Calm(all)
  {
    hide SysInv;
    hide Performed;
    hide Run;
    hide After;
    hide RankHighest;
    StageInv(n, steps, s);
    var more;
    more, t := Perform(RankOnly, s, p, id, cmd, pick, quorum);
    Extend(n, steps, s, more);
    all := steps + more;
    if Calm(steps) {
      CalmConcat(steps, more);
    }
    StageInv(n, all, t);
  }

  lemma StaysResting(s: System, t: System, p: nat, id: OpId, cmd: Command, e: Entry, quorum: set<nat>)
    requires Resting(s) && Performed(s, t, p, id, cmd, e, quorum)
    ensures Resting(t)
  {
    forall q | q in t.procs && q != p ensures t.procs[q].up && Idle(t.procs[q].mem) {
      assert t.procs[q].mem == s.procs[q].mem.(cur := t.procs[q].mem.cur);
    }
  }

  /** The code may select what `q` has stored when no member of the quorum has stored a higher rank. */
  lemma TopRank(s: System, quorum: set<nat>, q: nat)
    requires q in quorum && q in s.procs
    requires forall r :: r in s.procs && r in quorum ==> s.procs[r].store.tag.wr <= s.procs[q].store.tag.wr
    ensures RankHighest(Stores(s, quorum), s.procs[q].store)
  {
    assert Stores(s, quorum)[q] == s.procs[q].store;
  }

  /** Operation `id` has returned. */
  ghost predicate HasReturned(s: System, id: OpId, cmd: Command) {
    id in s.ops && s.ops[id].cmd == cmd && s.ops[id].ret.Some? && s.ops[id].ret.value.at < s.clock
  }

  /** A sector filled with one byte. */
  function Fill(b: Byte): (d: Data)
    ensures |d| == SECTOR_SIZE && d[0] == b
  {
    seq(SECTOR_SIZE, (_: nat) => b)
  }

  // ---------- A first write by process 2 ----------

  /** Processes 1 and 2 and as many more as make a majority. */
  function Lowest(n: nat): set<nat> {
    Idents(n / 2 + 1)
  }

  lemma LowestSmallest(s: System)
    requires s.n >= 2 && s.procs.Keys == Idents(s.n)
    ensures Smallest(s, Lowest(s.n)) && 1 in Lowest(s.n) && 2 in Lowest(s.n)
  {
  }

  /** Every process of the majority has stored `e`. */
  ghost predicate AllHold(s: System, e: Entry) {
    forall r :: r in s.procs && r in Lowest(s.n) ==> s.procs[r].store == e
  }

  /** Nobody outside the majority has stored anything. */
  ghost predicate RestZero(s: System) {
    forall r :: r in s.procs && r !in Lowest(s.n) ==> s.procs[r].store == ZERO_ENTRY
  }

  /** Process 2 has written `c`. */
  ghost predicate Written(s: System, c: Data) {
    s.ops.Keys == {0} && s.ops[0].cmd == Write(c) && AllHold(s, Entry(Tag(1, 2), c)) && RestZero(s) && Resting(s)
  }

  lemma WriteC(n: nat, c: Data) returns (steps: seq<Step>, s: System)
    requires n >= 2
    ensures Stage(n, steps, s) && Written(s, c) && Calm(steps)
  {
    hide Run;
    hide After;
    StageInit(n);
    LowestSmallest(Init(n));
    TopRank(Init(n), Lowest(n), 2);
    steps, s := PerformFrom(n, [], Init(n), 2, 0, Write(c), ZERO_ENTRY, Lowest(n));
    WrittenState(Init(n), s, c);
  }

  lemma WrittenState(s: System, t: System, c: Data)
    requires Performed(s, t, 2, 0, Write(c), Entry(Tag(1, 2), c), Lowest(s.n)) && Resting(s)
    requires s.ops == map[] && forall r :: r in s.procs ==> s.procs[r].store == ZERO_ENTRY
    ensures Written(t, c)
  {
    StaysResting(s, t, 2, 0, Write(c), Entry(Tag(1, 2), c), Lowest(s.n));
  }
}
