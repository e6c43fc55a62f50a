/** Runs of the code whose histories no sequential register explains. */
module Counterexample {
  import opened Domain
  import opened Histories
  import opened Register
  import opened Cluster
  import opened QuorumCore
  import opened Refinement
  import opened Progress
  import opened CodeSelection
  import opened Scenario

  // ---------- Histories no sequential register explains ----------

  /** Only operation `w` writes `v`, which is not the zero sector. */
  ghost predicate SoleWriter(h: History, w: OpId, v: Data) {
    v != ZeroSector() && w in h && h[w].cmd == Write(v) && forall o :: o in h && h[o].cmd == Write(v) ==> o == w
  }

  /** Read `r` returned `v`. */
  ghost predicate Returns(h: History, r: OpId, v: Data) {
    r in h && h[r].cmd.Read? && h[r].ret.Some? && h[r].ret.value.result == ReadReturn(v)
  }

  lemma PositionOf(h: History, order: seq<OpId>, o: OpId) returns (i: nat)
    requires Linearization(h, order) && o in h && h[o].ret.Some?
    ensures i < |order| && order[i] == o
  {
    i :| 0 <= i < |order| && order[i] == o;
  }

  /** The last write before a read of `v` is the sole writer of `v`. */
  lemma WriterBefore(h: History, order: seq<OpId>, w: OpId, r: OpId, v: Data, i: nat) returns (k: nat)
    requires Linearization(h, order) && SoleWriter(h, w, v) && Returns(h, r, v) && i < |order| && order[i] == r
    ensures k < i && order[k] == w
    ensures forall j :: k < j < i ==> h[order[j]].cmd.Read?
  {
    assert Contents(h, order[..i]) == v;
    k := LastWriteOf(h, order[..i]);
    assert order[..i][k] == order[k];
    forall j | k < j < i ensures h[order[j]].cmd.Read? {
      assert order[..i][j] == order[j];
    }
  }

  /** A read returns the older of two writes after the newer one has returned. */
  lemma StaleNotLinearizable(h: History, w1: OpId, w2: OpId, r: OpId, v: Data)
    requires SoleWriter(h, w1, v) && Returns(h, r, v)
    requires w2 in h && w2 != w1 && h[w2].cmd.Write? && Precedes(h, w1, w2) && Precedes(h, w2, r)
    ensures !Linearizable(h)
  {
    forall order ensures !Linearization(h, order) {
      if Linearization(h, order) {
        var i := PositionOf(h, order, r);
        var j := PositionOf(h, order, w2);
        var k := WriterBefore(h, order, w1, r, v, i);
        assert false;
      }
    }
  }

  /** After a write of `e` has returned, one read returns `d` and a later read returns `e`. */
  lemma FlipNotLinearizable(h: History, w1: OpId, w2: OpId, r1: OpId, r2: OpId, d: Data, e: Data)
    requires SoleWriter(h, w1, d) && SoleWriter(h, w2, e) && w1 != w2 && Returns(h, r1, d) && Returns(h, r2, e)
    requires Precedes(h, w2, r1) && Precedes(h, r1, r2)
    ensures !Linearizable(h)
  {
    forall order ensures !Linearization(h, order) {
      if Linearization(h, order) {
        var i := PositionOf(h, order, r1);
        var j := PositionOf(h, order, w2);
        var k := WriterBefore(h, order, w1, r1, d, i);
        assert j < k by {
          assert !(i < j) && h[order[j]].cmd.Write?;
        }
        var i2 := PositionOf(h, order, r2);
        var k2 := WriterBefore(h, order, w2, r2, e, i2);
        assert false;
      }
    }
  }

  // ---------- Three or more processes: a stale read, without any crash ----------

  /** A quorum of the smallest size that contains two of the first three processes and leaves out `x`. */
  function Without(n: nat, x: nat): set<nat> {
    Idents(n / 2 + 2) - {x}
  }

  lemma WithoutSmallest(s: System, x: nat)
    requires s.n >= 3 && s.procs.Keys == Idents(s.n) && 1 <= x <= 3
    ensures Smallest(s, Without(s.n, x)) && forall i :: 1 <= i <= 3 && i != x ==> i in Without(s.n, x)
  {
  }

  /** After process 2 has written `a` through all but process 1. */
  ghost predicate FirstWritten(s: System, a: Data) {
    && s.ops.Keys == {0} && HasReturned(s, 0, Write(a)) && Resting(s)
    && (forall r :: r in s.procs && r in Without(s.n, 1) ==> s.procs[r].store == Entry(Tag(1, 2), a))
    && (forall r :: r in s.procs && r !in Without(s.n, 1) ==> s.procs[r].store == ZERO_ENTRY)
  }

  lemma FirstStores(s: System, t: System, a: Data)
    requires Performed(s, t, 2, 0, Write(a), Entry(Tag(1, 2), a), Without(s.n, 1)) && Resting(s)
    requires s.ops == map[] && forall r :: r in s.procs ==> s.procs[r].store == ZERO_ENTRY
    ensures FirstWritten(t, a)
  {
    StaysResting(s, t, 2, 0, Write(a), Entry(Tag(1, 2), a), Without(s.n, 1));
  }

  lemma StaleFirst(n: nat, a: Data) returns (steps: seq<Step>, s: System)
    requires n >= 3
    ensures Stage(n, steps, s) && FirstWritten(s, a) && Calm(steps)
  {
    hide Run;
    hide After;
    hide Calm;
    var s0, q := Init(n), Without(n, 1);
    StageInit(n);
    WithoutSmallest(s0, 1);
    TopRank(s0, q, 2);
    steps, s := PerformFrom(n, [], s0, 2, 0, Write(a), ZERO_ENTRY, q);
    FirstStores(s0, s, a);
  }

  /** After process 1 has overwritten it with `b` through all but process 3. */
  ghost predicate SecondWritten(s: System, a: Data, b: Data) {
    && s.ops.Keys == {0, 1} && HasReturned(s, 0, Write(a)) && HasReturned(s, 1, Write(b)) && Precedes(s.ops, 0, 1) && Resting(s)
    && (forall r :: r in s.procs ==> s.procs[r].store.tag.wr <= 2)
    && 3 in s.procs && s.procs[3].store == Entry(Tag(1, 2), a)
  }

  lemma SecondStores(s: System, t: System, a: Data, b: Data)
    requires FirstWritten(s, a) && 3 in s.procs && 3 in Without(s.n, 1)
    requires Performed(s, t, 1, 1, Write(b), Entry(Tag(2, 1), b), Without(s.n, 3))
    ensures SecondWritten(t, a, b)
  {
    StaysResting(s, t, 1, 1, Write(b), Entry(Tag(2, 1), b), Without(s.n, 3));
  }

  lemma StaleSecond(n: nat, front: seq<Step>, s: System, a: Data, b: Data) returns (steps: seq<Step>, t: System)
    requires Stage(n, front, s) && n >= 3 && FirstWritten(s, a) && Calm(front)
    ensures Stage(n, steps, t) && SecondWritten(t, a, b) && Calm(steps)
  {
    hide Run;
    hide After;
    hide Calm;
    var e := Entry(Tag(1, 2), a);
    WithoutSmallest(s, 1);
    WithoutSmallest(s, 3);
    TopRank(s, Without(n, 3), 2);
    steps, t := PerformFrom(n, front, s, 1, 1, Write(b), e, Without(n, 3));
    SecondStores(s, t, a, b);
  }

  /** Two writes and a read, one after the other, and the read returns what the first one wrote. */
  ghost predicate StaleHistory(h: History, a: Data, b: Data) {
    && h.Keys == {0, 1, 2} && h[0].cmd == Write(a) && h[1].cmd == Write(b) && a != b && a != ZeroSector()
    && Precedes(h, 0, 1) && Precedes(h, 1, 2) && Returns(h, 2, a)
  }

  lemma StaleFails(h: History, a: Data, b: Data)
    requires StaleHistory(h, a, b)
    ensures !Linearizable(h)
  {
    StaleNotLinearizable(h, 0, 1, 2, a);
  }

  lemma StaleThird(n: nat, front: seq<Step>, s: System, a: Data, b: Data) returns (steps: seq<Step>, t: System)
    requires Stage(n, front, s) && n >= 3 && SecondWritten(s, a, b) && Calm(front) && a != b && a != ZeroSector()
    ensures Stage(n, steps, t) && Calm(steps) && StaleHistory(t.ops, a, b)
  {
    hide Run;
    hide After;
    hide Calm;
    WithoutSmallest(s, 1);
    TopRank(s, Without(n, 1), 3);
    steps, t := PerformFrom(n, front, s, 3, 2, Read, Entry(Tag(1, 2), a), Without(n, 1));
    ThirdHistory(s, t, a, b, Without(n, 1));
  }

  lemma ThirdHistory(s: System, t: System, a: Data, b: Data, quorum: set<nat>)
    requires SecondWritten(s, a, b) && a != b && a != ZeroSector()
    requires Performed(s, t, 3, 2, Read, Entry(Tag(1, 2), a), quorum)
    ensures StaleHistory(t.ops, a, b)
  {
    assert t.ops[0] == s.ops[0] && t.ops[1] == s.ops[1];
  }

  /**
   * Process 2 writes, process 1 overwrites, and process 3 then reads the overwritten data: no crash, no
   * concurrency.
   */
  lemma StaleRead(n: nat) returns (steps: seq<Step>)
    requires n >= 3
    ensures Run(RankOnly, Init(n), steps) && Calm(steps)
    ensures var h := After(Init(n), steps).ops; StaleHistory(h, Fill(1), Fill(2)) && !Linearizable(h)
  {
    hide Run;
    hide After;
    hide Calm;
    hide FirstWritten;
    hide SecondWritten;
    hide StaleHistory;
    var s1, s2, s;
    steps, s1 := StaleFirst(n, Fill(1));
    steps, s2 := StaleSecond(n, steps, s1, Fill(1), Fill(2));
    steps, s := StaleThird(n, steps, s2, Fill(1), Fill(2));
    StaleFails(s.ops, Fill(1), Fill(2));
  }

  // ---------- Two or more processes: one tag for two writes ----------

  lemma HalfRun(s: System, id: OpId, data: Data, pick: Entry, quorum: set<nat>) returns (steps: seq<Step>, t: System)
    requires SysInv(s) && Ready(s, 1) && id !in s.ops
    requires Smallest(s, quorum) && 1 in quorum && RankHighest(Stores(s, quorum), pick)
    ensures Run(RankOnly, s, steps) && After(s, steps) == t && SysInv(t)
    ensures Entered(Invoked(s, 1, id, 0, Write(data)), t, 1, id, Entry(Tag(pick.tag.ts + 1, 1), data))
  {
    hide SysInv;
    hide Run;
    hide After;
    hide Entered;
    hide Calm;
    var a := InvokeOne(RankOnly, s, 1, id, Write(data));
    InvokedState(s, 1, id, Write(data), quorum);
    var b;
    b, t := FirstPhase(RankOnly, Invoked(s, 1, id, 0, Write(data)), 1, id, pick, quorum);
    steps := a + b;
    RunConcat(RankOnly, s, a, b);
  }

  /** Process 1 can enter the write phase of `id` with a majority's answers. */
  lemma HalfWrite(n: nat, front: seq<Step>, s: System, id: OpId, data: Data, pick: Entry, quorum: set<nat>)
    returns (steps: seq<Step>, t: System)
    requires Stage(n, front, s) && Ready(s, 1) && id !in s.ops
    requires Smallest(s, quorum) && 1 in quorum && RankHighest(Stores(s, quorum), pick)
    ensures Stage(n, steps, t) && SysInv(t)
    ensures Entered(Invoked(s, 1, id, 0, Write(data)), t, 1, id, Entry(Tag(pick.tag.ts + 1, 1), data))
  {
    hide SysInv;
    hide Entered;
    hide Run;
    hide After;
    StageInv(n, front, s);
    var more;
    more, t := HalfRun(s, id, data, pick, quorum);
    Extend(n, front, s, more);
    steps := front + more;
    StageInv(n, steps, t);
  }

  /** Every process of the majority except the first has stored `e`. */
  ghost predicate RestHold(s: System, e: Entry) {
    forall r :: r in s.procs && r in Lowest(s.n) && r != 1 ==> s.procs[r].store == e
  }

  /** Process 1 stored `d` and asked for it to be written, then crashed and recovered. */
  ghost predicate Abandoned(s: System, c: Data, d: Data) {
    && s.ops.Keys == {0, 1} && s.ops[0].cmd == Write(c) && s.ops[1].cmd == Write(d) && Resting(s)
    && RestHold(s, Entry(Tag(1, 2), c)) && 1 in s.procs && s.procs[1].store == Entry(Tag(2, 1), d)
    && WriteProc(1, 1, Entry(Tag(2, 1), d)) in s.net && 1 in s.chosen && s.chosen[1] == Entry(Tag(2, 1), d)
  }

  function Restarted(s: System, p: nat): System
    requires p in s.procs
  {
    Next(Next(s, Crash(p)), Recover(p))
  }

  lemma RestartState(s: System, u: System, c: Data, d: Data)
    requires Written(s, c) && 1 in s.procs && Entered(Invoked(s, 1, 1, 0, Write(d)), u, 1, 1, Entry(Tag(2, 1), d))
    ensures Abandoned(Restarted(u, 1), c, d)
    ensures Restarted(u, 1).n == s.n && Restarted(u, 1).procs.Keys == s.procs.Keys
  {
  }

  lemma RestartSteps(n: nat, front: seq<Step>, u: System) returns (steps: seq<Step>)
    requires At(n, front, u) && 1 in u.procs && u.procs[1].up
    ensures At(n, steps, Restarted(u, 1))
  {
    hide Run;
    hide After;
    OneMore(n, front, u, Crash(1));
    OneMore(n, front + [Crash(1)], Next(u, Crash(1)), Recover(1));
    steps := front + [Crash(1)] + [Recover(1)];
  }

  lemma AbandonD(n: nat, front: seq<Step>, s: System, c: Data, d: Data) returns (steps: seq<Step>, t: System)
    requires Stage(n, front, s) && n >= 2 && Written(s, c)
    ensures Stage(n, steps, t) && Abandoned(t, c, d)
  {
    hide SysInv;
    hide Run;
    hide After;
    LowestSmallest(s);
    TopRank(s, Lowest(n), 2);
    var u;
    steps, u := HalfWrite(n, front, s, 1, d, Entry(Tag(1, 2), c), Lowest(n));
    steps := RestartSteps(n, steps, u);
    t := Restarted(u, 1);
    RestartState(s, u, c, d);
  }

  /** Three writes have been invoked, and the second and third have been given one tag. */
  ghost predicate ThreeWrites(s: System, c: Data, d: Data, e: Data) {
    && s.ops.Keys == {0, 1, 2} && s.ops[0].cmd == Write(c) && s.ops[1].cmd == Write(d) && s.ops[2].cmd == Write(e)
    && 1 in s.chosen && s.chosen[1] == Entry(Tag(2, 1), d) && 2 in s.chosen && s.chosen[2] == Entry(Tag(2, 1), e)
  }

  /** All processes run, and only process 1 has an operation in progress. */
  ghost predicate OnlyFirstBusy(s: System) {
    forall r :: r in s.procs ==> s.procs[r].up && (r != 1 ==> Idle(s.procs[r].mem))
  }

  /** Process 1 has entered a second write under the tag of the abandoned one. */
  ghost predicate Reused(s: System, c: Data, d: Data, e: Data) {
    && ThreeWrites(s, c, d, e) && OnlyFirstBusy(s)
    && RestHold(s, Entry(Tag(1, 2), c)) && 1 in s.procs && 2 in s.procs && s.procs[1].store == Entry(Tag(2, 1), e)
    && WriteProc(1, 1, Entry(Tag(2, 1), d)) in s.net
    && s.procs[1].mem.acklist == {} && !s.procs[1].mem.reading
  }

  lemma ReuseState(s: System, t: System, c: Data, d: Data, e: Data)
    requires Abandoned(s, c, d) && 2 in s.procs
    requires Entered(Invoked(s, 1, 2, 0, Write(e)), t, 1, 2, Entry(Tag(2, 1), e))
    ensures Reused(t, c, d, e) && t.n == s.n && t.procs.Keys == s.procs.Keys
  {
  }

  lemma ReuseTag(n: nat, front: seq<Step>, s: System, c: Data, d: Data, e: Data) returns (steps: seq<Step>, t: System)
    requires Stage(n, front, s) && n >= 2 && Abandoned(s, c, d)
    ensures Stage(n, steps, t) && SysInv(t)
    ensures Reused(t, c, d, e) && WritePhase(t, 1, 2, Entry(Tag(2, 1), e)) && Quorum(t, Lowest(n))
  {
    hide SysInv;
    hide Run;
    hide After;
    LowestSmallest(s);
    TopRank(s, Lowest(n), 2);
    steps, t := HalfWrite(n, front, s, 2, e, Entry(Tag(1, 2), c), Lowest(n));
    ReuseState(s, t, c, d, e);
    InvokedState(s, 1, 2, Write(e), Lowest(n));
    EnteredKeeps(Invoked(s, 1, 2, 0, Write(e)), t, 1, 2, Entry(Tag(2, 1), e), Lowest(n));
  }

  /** The abandoned message reaches process 2. */
  function LateMessage(s: System, d: Data): System
    requires 2 in s.procs
  {
    Delivered(s, 2, WriteProc(1, 1, Entry(Tag(2, 1), d)), ZERO_ENTRY, false)
  }

  lemma LateState(s: System, c: Data, d: Data, e: Data)
    requires Reused(s, c, d, e) && s.procs[2].mem.cur == s.procs[2].store
    ensures LateMessage(s, d) ==
            Merged(s, 2, Entry(Tag(2, 1), d)).(net := s.net + {Ack(2, 1, 1)}, clock := s.clock + 1)
  {
  }

  /** After the late message: process 2 holds `d`, everyone else is as before. */
  ghost predicate Late(s: System, c: Data, d: Data, e: Data) {
    && ThreeWrites(s, c, d, e) && OnlyFirstBusy(s) && 1 in s.procs && 2 in s.procs
    && s.procs[1].store == Entry(Tag(2, 1), e) && s.procs[2].store == Entry(Tag(2, 1), d)
    && (forall r :: r in s.procs && r in Lowest(s.n) && r > 2 ==> s.procs[r].store == Entry(Tag(1, 2), c))
    && s.procs[1].mem.acklist == {} && !s.procs[1].mem.reading
  }

  lemma LateKeeps(s: System, c: Data, d: Data, e: Data)
    requires Reused(s, c, d, e) && 2 in Lowest(s.n) && WritePhase(s, 1, 2, Entry(Tag(2, 1), e)) && Quorum(s, Lowest(s.n))
    ensures var t := Merged(s, 2, Entry(Tag(2, 1), d)).(net := s.net + {Ack(2, 1, 1)}, clock := s.clock + 1);
            Late(t, c, d, e) && WritePhase(t, 1, 2, Entry(Tag(2, 1), e)) && Quorum(t, Lowest(s.n))
  {
  }

  /** The second write has returned, and processes 1 and 2 hold different data under one tag. */
  ghost predicate Torn(s: System, c: Data, d: Data, e: Data) {
    && ThreeWrites(s, c, d, e) && HasReturned(s, 2, Write(e)) && Resting(s)
    && 1 in s.procs && s.procs[1].store == Entry(Tag(2, 1), e) && 2 in s.procs && s.procs[2].store == Entry(Tag(2, 1), d)
    && (forall r :: r in s.procs && r in Lowest(s.n) ==> s.procs[r].store.tag == Tag(2, 1))
  }

  lemma TornState(s: System, t: System, c: Data, d: Data, e: Data)
    requires Late(s, c, d, e) && 1 in Lowest(s.n) && 2 in Lowest(s.n)
    requires Finished(s, t, 1, 2, Entry(Tag(2, 1), e), Lowest(s.n))
    requires AllMerged(s, t, Entry(Tag(2, 1), e), Lowest(s.n))
    ensures Torn(t, c, d, e)
  {
    forall r | r in t.procs && r in Lowest(t.n) ensures t.procs[r].store.tag == Tag(2, 1) {
      assert r in s.procs;
    }
  }

  lemma LateStep(n: nat, front: seq<Step>, s: System, c: Data, d: Data, e: Data) returns (steps: seq<Step>)
    requires At(n, front, s) && SysInv(s) && Reused(s, c, d, e)
    ensures s.procs[2].mem.cur == s.procs[2].store
    ensures At(n, steps, LateMessage(s, d)) && SysInv(LateMessage(s, d))
  {
    hide Run;
    hide After;
    assert ProcOk(s, 2);
    var step := Deliver(2, WriteProc(1, 1, Entry(Tag(2, 1), d)), ZERO_ENTRY, false);
    OneMore(n, front, s, step);
    SysInvStep(s, step);
    steps := front + [step];
  }

  lemma Tear(n: nat, front: seq<Step>, s: System, c: Data, d: Data, e: Data) returns (steps: seq<Step>, t: System)
    requires Stage(n, front, s) && SysInv(s) && n >= 2
    requires Reused(s, c, d, e) && WritePhase(s, 1, 2, Entry(Tag(2, 1), e)) && Quorum(s, Lowest(n))
    ensures Stage(n, steps, t) && Torn(t, c, d, e)
  {
    hide SysInv;
    hide Run;
    hide After;
    LowestSmallest(s);
    steps := LateStep(n, front, s, c, d, e);
    LateState(s, c, d, e);
    LateKeeps(s, c, d, e);
    var v := LateMessage(s, d);
    var more;
    more, t := Complete(RankOnly, v, 1, 2, Entry(Tag(2, 1), e), Lowest(n));
    Extend(n, steps, v, more);
    steps := steps + more;
    StageInv(n, steps, t);
    TornState(v, t, c, d, e);
  }

  /** Two writes under one tag, both known to the code as stored, from the start to the end of the second. */
  lemma TwoUnderOneTag(n: nat, c: Data, d: Data, e: Data) returns (steps: seq<Step>, s: System)
    requires n >= 2
    ensures Stage(n, steps, s) && Torn(s, c, d, e)
  {
    hide Run;
    hide After;
    hide SysInv;
    var s1, s2, s3;
    steps, s1 := WriteC(n, c);
    steps, s2 := AbandonD(n, steps, s1, c, d);
    steps, s3 := ReuseTag(n, steps, s2, c, d, e);
    steps, s := Tear(n, steps, s3, c, d, e);
  }

  /** Reading one of the two entries under the shared tag changes nothing on disc. */
  lemma ReadTorn(n: nat, front: seq<Step>, s: System, q: nat, id: OpId, d: Data, e: Data)
    returns (steps: seq<Step>, t: System)
    requires Stage(n, front, s) && n >= 2 && (q == 1 || q == 2) && id !in s.ops && Ready(s, 1)
    requires 1 in s.procs && s.procs[1].store == Entry(Tag(2, 1), e) && 2 in s.procs && s.procs[2].store == Entry(Tag(2, 1), d)
    requires forall r :: r in s.procs && r in Lowest(s.n) ==> s.procs[r].store.tag == Tag(2, 1)
    ensures Stage(n, steps, t) && Ready(t, 1) && forall r :: r in s.procs ==> t.procs[r].store == s.procs[r].store
    ensures s.clock < t.clock && id in t.ops && t.ops == s.ops[id := t.ops[id]] && s.clock <= t.ops[id].inv
    ensures HasReturned(t, id, Read) && Returns(t.ops, id, if q == 1 then e else d)
    ensures id in t.chosen && t.chosen == s.chosen[id := t.chosen[id]]
  {
    hide Run;
    hide After;
    LowestSmallest(s);
    TopRank(s, Lowest(n), q);
    steps, t := PerformFrom(n, front, s, 1, id, Read, s.procs[q].store, Lowest(n));
  }

  /**
   * Operations 1 and 2 are writes of different data under one tag; after operation 2 has returned, one read
   * returns the data of the first and a later read that of the second.
   */
  ghost predicate Flipped(s: System, d: Data, e: Data) {
    && {1, 2} <= s.chosen.Keys && {1, 2} <= s.ops.Keys && s.ops[1].cmd == Write(d) && s.ops[2].cmd == Write(e) && d != e
    && s.chosen[1].tag == s.chosen[2].tag
    && Precedes(s.ops, 2, 3) && Precedes(s.ops, 3, 4) && Returns(s.ops, 3, d) && Returns(s.ops, 4, e)
  }

  /** With two or more processes the code can give one tag to two writes, and reads then alternate between them. */
  lemma SharedTag(n: nat) returns (steps: seq<Step>)
    requires n >= 2
    ensures Run(RankOnly, Init(n), steps)
    ensures var s := After(Init(n), steps); Flipped(s, Fill(2), Fill(3)) && !Linearizable(s.ops)
  {
    hide Run;
    hide After;
    var c, d, e := Fill(1), Fill(2), Fill(3);
    var s, u, t;
    steps, s := TwoUnderOneTag(n, c, d, e);
    steps, u := ReadTorn(n, steps, s, 2, 3, d, e);
    steps, t := ReadTorn(n, steps, u, 1, 4, d, e);
    FlippedState(s, u, t, c, d, e);
    FlipNotLinearizable(t.ops, 1, 2, 3, 4, d, e);
  }

  lemma FlippedState(s: System, u: System, t: System, c: Data, d: Data, e: Data)
    requires Torn(s, c, d, e) && c != d && c != e && d != e && d != ZeroSector() && e != ZeroSector()
    requires 3 in u.ops && u.ops == s.ops[3 := u.ops[3]] && 3 in u.chosen && u.chosen == s.chosen[3 := u.chosen[3]]
    requires 4 in t.ops && t.ops == u.ops[4 := t.ops[4]] && 4 in t.chosen && t.chosen == u.chosen[4 := t.chosen[4]]
    requires s.clock <= u.ops[3].inv && HasReturned(u, 3, Read) && u.clock <= t.ops[4].inv && HasReturned(t, 4, Read)
    requires Returns(u.ops, 3, d) && Returns(t.ops, 4, e)
    ensures Flipped(t, d, e) && SoleWriter(t.ops, 1, d) && SoleWriter(t.ops, 2, e)
  {
  }

  /** The code as it stands is linearizable in all its runs exactly when there is a single process. */
  lemma CodeLinearizableIff(n: nat)
    ensures (forall s :: Reachable(RankOnly, n, s) ==> Linearizable(s.ops)) <==> n <= 1
  {
    if n <= 1 {
      forall s | Reachable(RankOnly, n, s) ensures Linearizable(s.ops) {
        var steps :| Run(RankOnly, Init(n), steps) && After(Init(n), steps) == s;
        AloneLinearizable(n, steps);
      }
    } else {
      var steps := SharedTag(n);
      assert Reachable(RankOnly, n, After(Init(n), steps));
    }
  }
}
