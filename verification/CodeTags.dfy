/**
 * The order and the identity of tags under the selection as coded: with one process they are as documented, and
 * with two or more each of the properties fails in some run.
 */
module CodeTags {
  import opened Domain
  import opened Histories
  import opened Register
  import opened Cluster
  import opened QuorumCore
  import opened CoreInvariant
  import opened Refinement
  import opened Progress
  import opened Safety
  import opened CodeSelection
  import opened Scenario
  import opened Counterexample

  // ---------- The properties, in a state ----------

  /** One tag never stands for two entries. */
  ghost predicate TagsUnique(s: System) {
    forall e, f :: Circulates(s, e) && Circulates(s, f) && e.tag == f.tag ==> e == f
  }

  /** An operation that began after another returned carries a tag at least as large, larger if it writes. */
  ghost predicate TagsInOrder(s: System) {
    forall o, id :: Precedes(s.ops, o, id) && o in s.chosen && id in s.chosen ==> TagOrdered(View(s), o, id)
  }

  /** A majority has stored the tag of every operation that has returned. */
  ghost predicate TagsDurable(s: System) {
    forall id :: Returned(View(s), id) ==> Majority(s.n, |Holders(View(s), s.chosen[id].tag)|)
  }

  /** A store call made by this step has a tag above the stored one. */
  ghost predicate CallRises(s: System, step: Step) {
    step.p in s.procs && StoreCall(s, step).Some? ==> Below(s.procs[step.p].store.tag, StoreCall(s, step).value.tag)
  }

  /**
   * When one store call rises, whatever the selection: a WRITE_PROC's always does; a write's does exactly when
   * the selected entry is not older than the stored one, up to the rank.
   */
  lemma CallRisesIff(policy: Policy, n: nat, steps: seq<Step>, step: Step)
    requires Run(policy, Init(n), steps) && Enabled(policy, After(Init(n), steps), step)
    requires StoreCall(After(Init(n), steps), step).Some?
    ensures var s := After(Init(n), steps); var stored := s.procs[step.p].store.tag;
            CallRises(s, step) <==>
            || step.m.WriteProc? || stored.ts <= step.pick.tag.ts
            || (stored.ts == step.pick.tag.ts + 1 && stored.wr < step.p)
  {
    var s := After(Init(n), steps);
    SysInvInit(n);
    SysInvKept(policy, Init(n), steps);
    assert s.procs[step.p].mem.cur == s.procs[step.p].store by { assert ProcOk(s, step.p); }
    hide SysInv;
    hide Run;
    hide After;
    StoredForm(s.n, step.p, s.procs[step.p].mem, step.m, step.pick);
    hide OnMessage;
  }

  // ---------- A write that is overtaken ----------

  /** Process 2 has begun to write `d`: a majority has answered with `old`, and the last answer is on its way. */
  ghost predicate Begun(s: System, q: nat, stale: Entry, d: Data) {
    && 2 in s.procs && s.procs[2].up && Reading2(s.n, s.procs[2].mem, q, stale, d)
    && Value(q, 2, 1, stale) in s.net
  }

  /** The memory of process 2 while it waits. */
  ghost predicate Reading2(n: nat, l: Local, q: nat, stale: Entry, d: Data) {
    && l.opId == Some(1) && !l.writePhase && l.writing && !l.reading && l.writeval == d
    && Majority(n, |l.readlist[q := stale]|) && forall r :: r in l.readlist ==> l.readlist[r] == stale
  }

  lemma BeginState(s: System, t: System, q: nat, c: Data, d: Data)
    requires Written(s, c) && 2 in s.procs && q in s.procs && q in Lowest(s.n)
    requires var u := Invoked(s, 2, 1, 0, Write(d));
             Collected(u, t, 2) && Gathered(u, t, 2, Lowest(s.n)) && EndsReading(t, 2, 1, q)
    ensures Reading2(t.n, t.procs[2].mem, q, Entry(Tag(1, 2), c), d) && t.procs[q].store == Entry(Tag(1, 2), c)
    ensures t.ops.Keys == {0, 1} && q in t.procs
    ensures 1 in s.procs && 1 in Lowest(s.n) && 2 in Lowest(s.n) ==> Waiting(t, Entry(Tag(1, 2), c))
  {
    var u := Invoked(s, 2, 1, 0, Write(d));
    assert u.procs[2].mem.readlist == map[];
    assert forall r :: r in s.procs && r in Lowest(s.n) ==> u.procs[r].store == Entry(Tag(1, 2), c);
  }

  /** Everything about the other processes while process 2 waits, `e` being what the majority holds. */
  ghost predicate Waiting(s: System, e: Entry) {
    && AllHold(s, e) && RestZero(s) && 1 in s.procs && 2 in s.procs && 1 in Lowest(s.n) && 2 in Lowest(s.n)
    && Ready(s, 1) && forall r :: r in s.procs ==> s.procs[r].up
  }

  lemma AnswerState(s: System, q: nat, stale: Entry, d: Data)
    requires q in s.procs && s.procs[q].mem.cur == s.procs[q].store == stale && Waiting(s, stale)
    requires Reading2(s.n, s.procs[2].mem, q, stale, d)
    ensures var t := Delivered(s, q, ReadProc(2, 1), ZERO_ENTRY, false);
            && Begun(t, q, stale, d) && Waiting(t, stale) && t.n == s.n && t.procs == s.procs && t.ops == s.ops
  {
    var t := Delivered(s, q, ReadProc(2, 1), ZERO_ENTRY, false);
    assert t.procs == s.procs;
  }

  /** Process 2 has written `c`, and has begun to write `d`. */
  lemma BeginD(n: nat, c: Data, d: Data) returns (steps: seq<Step>, s: System, q: nat)
    requires n >= 2
    ensures Stage(n, steps, s) && Begun(s, q, Entry(Tag(1, 2), c), d) && Waiting(s, Entry(Tag(1, 2), c))
    ensures s.ops.Keys == {0, 1}
  {
    hide Run;
    hide After;
    hide Reading2;
    hide Begun;
    hide Waiting;
    hide Calm;
    var s0, t;
    steps, s0 := WriteC(n, c);
    LowestSmallest(s0);
    steps, t, q := Collect(n, steps, s0, d);
    BeginState(s0, t, q, c, d);
    steps, s := BeginAnswer(n, steps, t, q, Entry(Tag(1, 2), c), d);
  }

  /** Process 2 invokes a write and collects answers up to the one that would end the read phase. */
  lemma Collect(n: nat, front: seq<Step>, s: System, d: Data) returns (steps: seq<Step>, t: System, q: nat)
    requires Stage(n, front, s) && n >= 2 && Ready(s, 2) && 1 !in s.ops
    ensures At(n, steps, t) && q in s.procs && q in Lowest(n)
    ensures var u := Invoked(s, 2, 1, 0, Write(d));
            Collected(u, t, 2) && Gathered(u, t, 2, Lowest(n)) && q in t.procs && EndsReading(t, 2, 1, q)
  {
    hide Run;
    hide After;
    hide SysInv;
    hide Calm;
    hide Collected;
    hide Gathered;
    hide EndsReading;
    hide ReadPhase;
    StageInv(n, front, s);
    LowestSmallest(s);
    var a := InvokeOne(RankOnly, s, 2, 1, Write(d));
    var u := Invoked(s, 2, 1, 0, Write(d));
    InvokedState(s, 2, 1, Write(d), Lowest(n));
    var b;
    b, t, q := CollectAnswers(RankOnly, u, 2, 1, Lowest(n));
    Extend(n, front, s, a);
    Extend(n, front + a, u, b);
    steps := front + a + b;
    StageInv(n, steps, t);
  }

  lemma BeginAnswer(n: nat, front: seq<Step>, t: System, q: nat, stale: Entry, d: Data) returns (steps: seq<Step>, s: System)
    requires At(n, front, t) && q in t.procs && t.procs[q].store == stale && Waiting(t, stale)
    requires Reading2(t.n, t.procs[2].mem, q, stale, d)
    ensures Stage(n, steps, s) && Begun(s, q, stale, d) && Waiting(s, stale) && s.ops == t.ops
  {
    hide Run;
    hide After;
    hide SysInv;
    hide Reading2;
    hide Begun;
    StageInv(n, front, t);
    var step := Deliver(q, ReadProc(2, 1), ZERO_ENTRY, false);
    AnswerPossible(t, q, stale, d);
    AnswerState(t, q, stale, d);
    hide Enabled;
    hide Waiting;
    steps, s := front + [step], Delivered(t, q, ReadProc(2, 1), ZERO_ENTRY, false);
    assert Next(t, step) == s;
    hide Delivered;
    hide Next;
    OneMore(n, front, t, step);
    StageInv(n, steps, s);
  }

  lemma AnswerPossible(t: System, q: nat, stale: Entry, d: Data)
    requires SysInv(t) && q in t.procs && Waiting(t, stale) && Reading2(t.n, t.procs[2].mem, q, stale, d)
    ensures t.procs[q].mem.cur == t.procs[q].store
    ensures Enabled(RankOnly, t, Deliver(q, ReadProc(2, 1), ZERO_ENTRY, false))
  {
    assert ProcOk(t, 2) && ProcOk(t, q);
  }

  /** Process 1 writes `x` while process 2 waits. */
  lemma Overtake(n: nat, front: seq<Step>, s: System, q: nat, stale: Entry, d: Data, e: Entry, id: OpId, x: Data)
    returns (steps: seq<Step>, t: System)
    requires Stage(n, front, s) && n >= 2 && Begun(s, q, stale, d) && Waiting(s, e) && id !in s.ops
    ensures Stage(n, steps, t) && Begun(t, q, stale, d) && Waiting(t, Entry(Tag(e.tag.ts + 1, 1), x))
    ensures Performed(s, t, 1, id, Write(x), Entry(Tag(e.tag.ts + 1, 1), x), Lowest(n))
  {
    hide Run;
    hide After;
    hide Begun;
    hide Performed;
    hide RestZero;
    hide Resting;
    LowestSmallest(s);
    assert RankHighest(Stores(s, Lowest(n)), e) by { TopRank(s, Lowest(n), 1); }
    assert Ready(s, 1);
    hide RankHighest;
    hide AllHold;
    hide Waiting;
    steps, t := PerformFrom(n, front, s, 1, id, Write(x), e, Lowest(n));
    OvertakenState(s, t, q, stale, d, e, id, x);
  }

  lemma OvertakenState(s: System, t: System, q: nat, stale: Entry, d: Data, e: Entry, id: OpId, x: Data)
    requires Begun(s, q, stale, d) && Waiting(s, e)
    requires Performed(s, t, 1, id, Write(x), Entry(Tag(e.tag.ts + 1, 1), x), Lowest(s.n))
    ensures Begun(t, q, stale, d) && Waiting(t, Entry(Tag(e.tag.ts + 1, 1), x))
  {
    assert t.procs[2].mem == s.procs[2].mem.(cur := t.procs[2].mem.cur);
  }

  /** Two writes by process 1 have overtaken that of process 2; the second, operation 3, has returned with tag (3, 1). */
  ghost predicate Overtaken(s: System, q: nat, stale: Entry, d: Data, y: Data) {
    && Begun(s, q, stale, d) && stale.tag == Tag(1, 2) && Waiting(s, Entry(Tag(3, 1), y))
    && s.ops.Keys == {0, 1, 2, 3} && HasReturned(s, 3, Write(y)) && 3 in s.chosen && s.chosen[3] == Entry(Tag(3, 1), y)
  }

  lemma OvertakeTwice(n: nat, c: Data, d: Data, x: Data, y: Data) returns (steps: seq<Step>, s: System, q: nat)
    requires n >= 2
    ensures Stage(n, steps, s) && Overtaken(s, q, Entry(Tag(1, 2), c), d, y)
  {
    hide Run;
    hide After;
    hide Begun;
    hide Waiting;
    hide Performed;
    hide HasReturned;
    hide Stage;
    hide Lowest;
    var s1, s2;
    steps, s1, q := BeginD(n, c, d);
    steps, s2 := Overtake(n, steps, s1, q, Entry(Tag(1, 2), c), d, Entry(Tag(1, 2), c), 2, x);
    PerformedOps(s1, s2, 2, Write(x), Entry(Tag(2, 1), x), Lowest(n));
    steps, s := Overtake(n, steps, s2, q, Entry(Tag(1, 2), c), d, Entry(Tag(2, 1), x), 3, y);
    PerformedOps(s2, s, 3, Write(y), Entry(Tag(3, 1), y), Lowest(n));
  }

  lemma PerformedOps(s: System, t: System, id: OpId, cmd: Command, e: Entry, quorum: set<nat>)
    requires Performed(s, t, 1, id, cmd, e, quorum)
    ensures t.ops.Keys == s.ops.Keys + {id} && HasReturned(t, id, cmd) && id in t.chosen && t.chosen[id] == e
  {
  }

  /** The last answer reaches process 2, which selects the outdated entry for its rank and stores a smaller tag. */
  function FallStep(q: nat, stale: Entry): Step {
    Deliver(2, Value(q, 2, 1, stale), stale, false)
  }

  lemma SomeoneElse(n: nat, l: Local, q: nat, stale: Entry)
    requires n >= 2 && Majority(n, |l.readlist[q := stale]|) && forall r :: r in l.readlist ==> l.readlist[r] == stale
    ensures stale in Candidates(2, l, q, stale).Values
  {
    var list := l.readlist[q := stale];
    var rest := list.Keys - {2};
    SubsetCount(list.Keys, rest + {2});
    assert |list.Keys| == |list| && |rest + {2}| == |rest| + 1;
    var r :| r in rest;
    assert Candidates(2, l, q, stale)[r] == stale;
  }

  lemma FallPossible(s: System, q: nat, stale: Entry, d: Data, y: Data)
    requires Overtaken(s, q, stale, d, y) && s.n >= 2 && s.procs[2].mem.cur == s.procs[2].store
    ensures Enabled(RankOnly, s, FallStep(q, stale))
  {
    var l := s.procs[2].mem;
    SomeoneElse(s.n, l, q, stale);
    assert l.cur == Entry(Tag(3, 1), y);
    var all := Candidates(2, l, q, stale);
    forall r | r in all ensures all[r].tag.wr <= 2 {
      assert r == 2 || all[r] == stale;
    }
  }

  /** Process 2 has fallen back from (3, 1) to (2, 2). */
  ghost predicate Fallen(s: System, d: Data, y: Data) {
    && 2 in s.procs && s.procs[2].store == Entry(Tag(2, 2), d) && 1 in s.procs && 2 in Lowest(s.n) && 1 in Lowest(s.n)
    && (forall r :: r in s.procs && r in Lowest(s.n) && r != 2 ==> s.procs[r].store == Entry(Tag(3, 1), y))
    && RestZero(s) && Ready(s, 1)
    && s.ops.Keys == {0, 1, 2, 3} && HasReturned(s, 3, Write(y)) && 3 in s.chosen && s.chosen[3] == Entry(Tag(3, 1), y)
  }

  lemma FallState(s: System, q: nat, stale: Entry, d: Data, y: Data)
    requires Overtaken(s, q, stale, d, y)
    ensures Fallen(Next(s, FallStep(q, stale)), d, y) && StoreCall(s, FallStep(q, stale)) == Some(Entry(Tag(2, 2), d))
  {
  }

  /** A reachable state from which one step makes a stored tag fall. */
  lemma Falls(n: nat, d: Data, y: Data) returns (steps: seq<Step>, s: System, step: Step)
    requires n >= 2
    ensures Stage(n, steps, s) && Enabled(RankOnly, s, step) && step.p == 2 && 2 in s.procs
    ensures s.procs[2].store.tag == Tag(3, 1) && StoreCall(s, step) == Some(Entry(Tag(2, 2), d))
    ensures Stage(n, steps + [step], Next(s, step)) && Fallen(Next(s, step), d, y)
  {
    hide Run;
    hide After;
    var q;
    steps, s, q := OvertakeTwice(n, Fill(1), d, Fill(2), y);
    var stale := Entry(Tag(1, 2), Fill(1));
    step := FallStep(q, stale);
    StageInv(n, steps, s);
    assert s.procs[2].mem.cur == s.procs[2].store by { assert ProcOk(s, 2); }
    hide SysInv;
    FallPossible(s, q, stale, d, y);
    FallState(s, q, stale, d, y);
    OneMore(n, steps, s, step);
    hide Overtaken;
    hide Next;
    hide Enabled;
    StageInv(n, steps + [step], Next(s, step));
  }

  // ---------- What fails with two or more processes ----------

  /** The code gives one tag to two entries that are both stored. */
  lemma TagShared(n: nat) returns (s: System)
    requires n >= 2
    ensures Reachable(RankOnly, n, s) && !TagsUnique(s)
  {
    hide Run;
    hide After;
    var steps;
    steps, s := TwoUnderOneTag(n, Fill(1), Fill(2), Fill(3));
    assert HeldBy(s, 1, s.procs[1].store) && HeldBy(s, 2, s.procs[2].store);
    assert Circulates(s, s.procs[1].store) && Circulates(s, s.procs[2].store);
  }

  /** If every store call of a run rises, a process's stored entry stays or its tag grows. */
  lemma {:induction false} RisingRun(s: System, steps: seq<Step>, p: nat)
    requires p in s.procs && forall i :: 0 <= i < |steps| ==> CallRises(After(s, steps[..i]), steps[i])
    ensures p in After(s, steps).procs
    ensures var t := After(s, steps);
            t.procs[p].store == s.procs[p].store || Below(s.procs[p].store.tag, t.procs[p].store.tag)
  {
    if steps != [] {
      var last := |steps| - 1;
      var front := steps[..last];
      forall i | 0 <= i < |front| ensures CallRises(After(s, front[..i]), front[i]) {
        assert front[..i] == steps[..i];
      }
      RisingRun(s, front, p);
      assert CallRises(After(s, front), steps[last]);
      StoredByCall(After(s, front), steps[last], p);
    }
  }

  lemma StoredByCall(s: System, step: Step, p: nat)
    requires p in s.procs
    ensures var t := Next(s, step);
            p in t.procs && (t.procs[p].store == s.procs[p].store || (p == step.p && StoreCall(s, step) == Some(t.procs[p].store)))
  {
    hide OnMessage;
  }

  /** The code stores again under the stored tag, with other data. */
  lemma SameTagStored(n: nat) returns (steps: seq<Step>, more: seq<Step>, i: nat)
    requires n >= 2
    ensures Run(RankOnly, Init(n), steps) && Run(RankOnly, After(Init(n), steps), more) && i < |more|
    ensures var s := After(Init(n), steps); var t := After(s, more);
            1 in s.procs && 1 in t.procs && t.procs[1].store.tag == s.procs[1].store.tag && t.procs[1].store != s.procs[1].store
    ensures !CallRises(After(After(Init(n), steps), more[..i]), more[i])
  {
    hide CallRises;
    var s1, s, t;
    steps, s1 := WriteC(n, Fill(1));
    steps, s := AbandonD(n, steps, s1, Fill(1), Fill(2));
    more, t := AgainUnderTag(n, steps, s);
    if forall k :: 0 <= k < |more| ==> CallRises(After(s, more[..k]), more[k]) {
      RisingRun(s, more, 1);
      assert false;
    }
    i :| 0 <= i < |more| && !CallRises(After(s, more[..i]), more[i]);
  }

  lemma AgainUnderTag(n: nat, steps: seq<Step>, s: System) returns (more: seq<Step>, t: System)
    requires n >= 2 && Stage(n, steps, s) && Abandoned(s, Fill(1), Fill(2))
    ensures Run(RankOnly, s, more) && t == After(s, more) && 1 in t.procs && t.procs[1].store == Entry(Tag(2, 1), Fill(3))
  {
    hide Run;
    hide After;
    hide SysInv;
    hide Entered;
    StageInv(n, steps, s);
    LowestSmallest(s);
    assert RankHighest(Stores(s, Lowest(n)), Entry(Tag(1, 2), Fill(1))) by { TopRank(s, Lowest(n), 2); }
    hide RankHighest;
    more, t := HalfRun(s, 2, Fill(3), Entry(Tag(1, 2), Fill(1)), Lowest(n));
    EnteredStore(Invoked(s, 1, 2, 0, Write(Fill(3))), t, 2, Entry(Tag(2, 1), Fill(3)));
  }

  lemma EnteredStore(s: System, t: System, id: OpId, e: Entry)
    requires 1 in s.procs && !s.procs[1].mem.reading && Entered(s, t, 1, id, e)
    ensures 1 in t.procs && t.procs[1].store == e
  {
  }

  /** After a read that follows operation 3: its tag is (2, 2), below the (3, 1) of operation 3. */
  lemma ReadsBehind(n: nat) returns (s: System)
    requires n >= 2
    ensures Reachable(RankOnly, n, s) && !TagsInOrder(s)
  {
    hide Run;
    hide After;
    hide Next;
    hide Enabled;
    hide StoreCall;
    hide Performed;
    hide RestZero;
    hide HasReturned;
    var steps, s1, step := Falls(n, Fill(2), Fill(3));
    var u := Next(s1, step);
    LowestSmallest(u);
    assert RankHighest(Stores(u, Lowest(n)), Entry(Tag(2, 2), Fill(2))) by { TopRank(u, Lowest(n), 2); }
    var all;
    all, s := PerformFrom(n, steps + [step], u, 1, 4, Read, Entry(Tag(2, 2), Fill(2)), Lowest(n));
    BehindState(u, s, Fill(2), Fill(3));
  }

  lemma BehindState(u: System, s: System, d: Data, y: Data)
    requires Fallen(u, d, y) && Performed(u, s, 1, 4, Read, Entry(Tag(2, 2), d), Lowest(u.n))
    ensures !TagsInOrder(s)
  {
    assert Precedes(s.ops, 3, 4);
    assert !TagOrdered(View(s), 3, 4);
  }

  lemma FallenHolders(s: System, d: Data, y: Data)
    requires Fallen(s, d, y) && s.procs.Keys == Idents(s.n)
    ensures Returned(View(s), 3) && !Majority(s.n, |Holders(View(s), s.chosen[3].tag)|)
  {
    var who := Holders(View(s), Tag(3, 1));
    forall r | r in who ensures r in Lowest(s.n) && r != 2 {
      assert r in s.procs;
    }
    SubsetCount(who, Lowest(s.n) - {2});
  }

  // ---------- The exact condition ----------

  lemma AloneReached(n: nat, s: System) returns (steps: seq<Step>)
    requires n <= 1 && Reachable(RankOnly, n, s)
    ensures Run(Lex, Init(n), steps) && After(Init(n), steps) == s && LexInv(s) && s.n == n
  {
    steps :| Run(RankOnly, Init(n), steps) && After(Init(n), steps) == s;
    SysInvInit(n);
    AloneIsLex(Init(n), steps);
    LexInvReached(n, steps);
    SizeKept(Init(n), steps);
  }

  /** In all runs of the code one tag stands for one entry, if and only if there is a single process. */
  lemma CodeTagsIdentifyDataIff(n: nat)
    ensures (forall s :: Reachable(RankOnly, n, s) ==> TagsUnique(s)) <==> n <= 1
  {
    if n <= 1 {
      forall s | Reachable(RankOnly, n, s) ensures TagsUnique(s) {
        var steps := AloneReached(n, s);
        forall e, f | Circulates(s, e) && Circulates(s, f) && e.tag == f.tag ensures e == f {
          TagsIdentifyData(n, steps, e, f);
        }
      }
    } else {
      var s := TagShared(n);
    }
  }

  /** In all runs of the code tags follow real time, if and only if there is a single process. */
  lemma CodeTagsFollowRealTimeIff(n: nat)
    ensures (forall s :: Reachable(RankOnly, n, s) ==> TagsInOrder(s)) <==> n <= 1
  {
    if n <= 1 {
      forall s | Reachable(RankOnly, n, s) ensures TagsInOrder(s) {
        var steps := AloneReached(n, s);
      }
    } else {
      var s := ReadsBehind(n);
    }
  }

  /** In all runs of the code a majority keeps what has returned, if and only if there is a single process. */
  lemma CodeDurableMajorityIff(n: nat)
    ensures (forall s :: Reachable(RankOnly, n, s) ==> TagsDurable(s)) <==> n <= 1
  {
    if n <= 1 {
      forall s | Reachable(RankOnly, n, s) ensures TagsDurable(s) {
        var steps := AloneReached(n, s);
      }
    } else {
      var steps, s, step := Falls(n, Fill(2), Fill(3));
      FallenHolders(Next(s, step), Fill(2), Fill(3));
      assert Reachable(RankOnly, n, Next(s, step));
    }
  }

  /** In all runs of the code every store call rises, if and only if there is a single process. */
  lemma CodeStoreCallsIncreaseIff(n: nat)
    ensures (forall s, step :: Reachable(RankOnly, n, s) && Enabled(RankOnly, s, step) ==> CallRises(s, step)) <==> n <= 1
  {
    if n <= 1 {
      forall s, step | Reachable(RankOnly, n, s) && Enabled(RankOnly, s, step) ensures CallRises(s, step) {
        var steps := AloneReached(n, s);
        AloneStep(s, step);
        if StoreCall(s, step).Some? {
          StoreCallsIncrease(n, steps, step);
        }
      }
    } else {
      var steps, s, step := Falls(n, Fill(2), Fill(3));
      assert Reachable(RankOnly, n, s);
      assert !CallRises(s, step);
    }
  }

  /** In all runs of the code stored tags never fall, if and only if there is a single process. */
  lemma CodeStoredTagsRiseIff(n: nat)
    ensures (forall s, more :: Reachable(RankOnly, n, s) && Run(RankOnly, s, more) ==> StoresRise(View(s), View(After(s, more))))
            <==> n <= 1
  {
    if n <= 1 {
      forall s, more | Reachable(RankOnly, n, s) && Run(RankOnly, s, more) ensures StoresRise(View(s), View(After(s, more))) {
        var steps := AloneReached(n, s);
        AloneIsLex(s, more);
        LexInvRun(s, more);
      }
    } else {
      var steps, s, step := Falls(n, Fill(2), Fill(3));
      assert Reachable(RankOnly, n, s);
      OneStep(RankOnly, s, step);
      assert View(s).stores[2].tag == Tag(3, 1) && View(Next(s, step)).stores[2].tag == Tag(2, 2);
    }
  }
}
