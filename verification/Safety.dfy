/** What holds in every run of the documented protocol: linearizability and the facts it rests on. */
module Safety {
  import opened Domain
  import opened Histories
  import opened Register
  import opened Cluster
  import opened QuorumCore
  import opened CoreInvariant
  import opened Refinement
  import opened Timeline

  ghost predicate LexInv(s: System) {
    SysInv(s) && Inv(View(s))
  }

  /** A lexicographic selection by the handler is one by the core. */
  lemma LexAction(s: System, step: Step)
    requires SysInv(s) && Enabled(Lex, s, step)
    ensures Enabled(AnyEntry, s, step) && CanLex(View(s), Abstract(s, step))
  {
    Simulates(s, step);
    if Abstract(s, step).Choose? {
      OwnOperation(s, step);
      assert s.procs[step.p].mem.cur == s.procs[step.p].store by { assert ProcOk(s, step.p); }
      LexPick(s, step);
    }
  }

  lemma LexPick(s: System, step: Step)
    requires step.p in s.procs && step.Deliver? && PickOk(Lex, s, step.p, step.m, step.pick)
    requires var a := Abstract(s, step); a.Choose? && a.id in s.ops && s.ops[a.id].proc == step.p
    requires s.procs[step.p].mem.cur == s.procs[step.p].store
    ensures var a := Abstract(s, step); PicksHighest(View(s), a.id, a.list, a.pick)
  {
    var p, l, a := step.p, s.procs[step.p].mem, Abstract(s, step);
    var all := Candidates(p, l, step.m.src, step.m.entry);
    assert p in all && all[p] == s.procs[p].store;
    forall q | q in a.list && q != p ensures AtMost(a.list[q].tag, a.pick.tag) {
      assert q in all && all[q] == a.list[q];
    }
  }

  lemma LexInvStep(s: System, step: Step)
    requires LexInv(s) && Enabled(Lex, s, step)
    ensures LexInv(Next(s, step)) && Extends(View(s), View(Next(s, step)))
  {
    LexAction(s, step);
    Simulates(s, step);
    SysInvStep(s, step);
    InvStep(View(s), Abstract(s, step));
  }

  lemma ExtendsTransitive(a: Core, b: Core, c: Core)
    requires StoresRise(a, b) && StoresRise(b, c) && RecordsStay(a, b) && RecordsStay(b, c)
    ensures StoresRise(a, c) && RecordsStay(a, c)
  {
  }

  lemma {:induction false} LexInvRun(s: System, steps: seq<Step>)
    requires LexInv(s) && Run(Lex, s, steps)
    ensures LexInv(After(s, steps))
    ensures StoresRise(View(s), View(After(s, steps))) && RecordsStay(View(s), View(After(s, steps)))
  {
    if steps != [] {
      var last := |steps| - 1;
      LexInvRun(s, steps[..last]);
      var t := After(s, steps[..last]);
      LexInvStep(t, steps[last]);
      ExtendsTransitive(View(s), View(t), View(After(s, steps)));
    }
  }

  lemma LexInvReached(n: nat, steps: seq<Step>)
    requires Run(Lex, Init(n), steps)
    ensures LexInv(After(Init(n), steps))
  {
    SysInvInit(n);
    InvInit(n);
    LexInvRun(Init(n), steps);
  }

  /** Every run of every number of processes, with crashes, recoveries, loss and repetition, is linearizable. */
  lemma RunsLinearizable(n: nat, steps: seq<Step>)
    requires Run(Lex, Init(n), steps)
    ensures Linearizable(After(Init(n), steps).ops)
  {
    LexInvReached(n, steps);
    InvLinearizable(View(After(Init(n), steps)));
  }

  /** An operation invoked after another one returned carries a tag at least as large, larger if it writes. */
  lemma TagsFollowRealTime(n: nat, steps: seq<Step>, o: OpId, id: OpId)
    requires Run(Lex, Init(n), steps)
    requires var s := After(Init(n), steps); Precedes(s.ops, o, id) && id in s.chosen
    ensures var s := After(Init(n), steps);
            && o in s.chosen && AtMost(s.chosen[o].tag, s.chosen[id].tag)
            && (s.ops[id].cmd.Write? ==> Below(s.chosen[o].tag, s.chosen[id].tag))
  {
    LexInvReached(n, steps);
    var c := View(After(Init(n), steps));
    assert TagOrdered(c, o, id);
  }

  // ---------- Tags identify data ----------

  lemma HeldGenuine(s: System, p: nat, e: Entry)
    requires LexInv(s) && HeldBy(s, p, e)
    ensures Genuine(View(s), e)
  {
    var c := View(s);
    assert ProcOk(s, p);
    assert Genuine(c, c.stores[p]);
    if s.procs[p].store != e && s.procs[p].mem.cur != e {
      var l := s.procs[p].mem;
      var q :| q in l.readlist && l.readlist[q] == e;
      assert Value(q, p, l.opId.value, e) in c.net;
    }
  }

  lemma CirculatesGenuine(s: System, e: Entry)
    requires LexInv(s) && Circulates(s, e)
    ensures Genuine(View(s), e)
  {
    var c := View(s);
    if p :| HeldBy(s, p, e) {
      HeldGenuine(s, p, e);
    } else if m :| m in s.net && (m.Value? || m.WriteProc?) && m.entry == e {
      assert MessageOk(c, m);
    }
  }

  lemma GenuinePositive(c: Core, e: Entry)
    requires Inv(c) && Genuine(c, e) && e != ZERO_ENTRY
    ensures e.tag.ts > 0
  {
    var w :| w in c.chosen && w in c.ops && c.ops[w].cmd == Write(e.val) && c.chosen[w] == e;
    assert IsWrite(c, w) && WriteOk(c, w);
  }

  lemma GenuineUnique(c: Core, e: Entry, f: Entry)
    requires Inv(c) && Genuine(c, e) && Genuine(c, f) && e.tag == f.tag
    ensures e == f
  {
    if e != ZERO_ENTRY {
      GenuinePositive(c, e);
      var v :| v in c.chosen && v in c.ops && c.ops[v].cmd == Write(e.val) && c.chosen[v] == e;
      var w :| w in c.chosen && w in c.ops && c.ops[w].cmd == Write(f.val) && c.chosen[w] == f;
      assert IsWrite(c, v) && IsWrite(c, w);
    } else if f != ZERO_ENTRY {
      GenuinePositive(c, f);
      assert false;
    }
  }

  /** Across crashes and repetitions, one tag never stands for two different sectors. */
  lemma TagsIdentifyData(n: nat, steps: seq<Step>, e: Entry, f: Entry)
    requires Run(Lex, Init(n), steps)
    requires Circulates(After(Init(n), steps), e) && Circulates(After(Init(n), steps), f)
    requires e.tag == f.tag
    ensures e == f
  {
    LexInvReached(n, steps);
    var s := After(Init(n), steps);
    CirculatesGenuine(s, e);
    CirculatesGenuine(s, f);
    GenuineUnique(View(s), e, f);
  }

  // ---------- Durability ----------

  lemma DurableNow(s: System, id: OpId)
    requires LexInv(s) && id in s.ops && s.ops[id].ret.Some?
    ensures id in s.chosen && Majority(s.n, |Holders(View(s), s.chosen[id].tag)|)
  {
    var c := View(s);
    assert Returned(c, id);
  }

  /** Once an operation has returned, a majority holds its tag on disc for the rest of the run. */
  lemma DurableMajority(n: nat, steps: seq<Step>, more: seq<Step>, id: OpId)
    requires Run(Lex, Init(n), steps) && Run(Lex, After(Init(n), steps), more)
    requires id in After(Init(n), steps).ops && After(Init(n), steps).ops[id].ret.Some?
    ensures var s := After(Init(n), steps);
            id in s.chosen && Majority(n, |Holders(View(After(s, more)), s.chosen[id].tag)|)
  {
    LexInvReached(n, steps);
    var s := After(Init(n), steps);
    DurableNow(s, id);
    LexInvRun(s, more);
    assert Continues(s.ops[id], After(s, more).ops[id]);
    DurableNow(After(s, more), id);
    SizeKept(Init(n), steps);
    SizeKept(s, more);
  }

  lemma {:induction false} SizeKept(s: System, steps: seq<Step>)
    ensures After(s, steps).n == s.n
  {
    if steps != [] {
      SizeKept(s, steps[..|steps| - 1]);
    }
  }

  /** No stored tag ever decreases, whatever crashes and recoveries follow. */
  lemma StoredTagsRise(n: nat, steps: seq<Step>, more: seq<Step>, q: nat)
    requires Run(Lex, Init(n), steps) && Run(Lex, After(Init(n), steps), more)
    requires q in After(Init(n), steps).procs
    ensures var s := After(Init(n), steps); var t := After(s, more);
            q in t.procs && AtMost(s.procs[q].store.tag, t.procs[q].store.tag)
  {
    LexInvReached(n, steps);
    var s := After(Init(n), steps);
    LexInvRun(s, more);
    var c, d := View(s), View(After(s, more));
    assert q in c.stores && AtMost(c.stores[q].tag, d.stores[q].tag);
  }

  /** The entry a delivery hands to the sector store, if any. */
  function StoreCall(s: System, step: Step): Option<Entry> {
    if step.Deliver? && step.p in s.procs then ToStore(s.n, step.p, s.procs[step.p].mem, step.m, step.pick) else None
  }

  lemma WriteCallIncreases(s: System, step: Step)
    requires LexInv(s) && Enabled(Lex, s, step) && StoreCall(s, step).Some? && step.m.Value?
    ensures Below(s.procs[step.p].store.tag, StoreCall(s, step).value.tag) && StoreCall(s, step).value.tag.ts > 0
  {
    LexAction(s, step);
    OwnOperation(s, step);
    var a := Abstract(s, step);
    assert PicksHighest(View(s), a.id, a.list, a.pick);
    assert AtMost(s.procs[step.p].store.tag, a.pick.tag);
  }

  lemma AdoptCallIncreases(s: System, step: Step)
    requires LexInv(s) && Enabled(Lex, s, step) && StoreCall(s, step).Some? && step.m.WriteProc?
    ensures Below(s.procs[step.p].store.tag, StoreCall(s, step).value.tag) && StoreCall(s, step).value.tag.ts > 0
  {
    assert ProcOk(s, step.p);
    var c, e := View(s), step.m.entry;
    assert MessageOk(c, step.m);
    assert Genuine(c, c.chosen[step.m.id]);
    GenuinePositive(c, e);
  }

  /** The store is only ever called with a tag strictly above the stored one, and never with timestamp 0. */
  lemma StoreCallsIncrease(n: nat, steps: seq<Step>, step: Step)
    requires Run(Lex, Init(n), steps) && Enabled(Lex, After(Init(n), steps), step)
    requires StoreCall(After(Init(n), steps), step).Some?
    ensures var s := After(Init(n), steps); var e := StoreCall(s, step).value;
            Below(s.procs[step.p].store.tag, e.tag) && e.tag.ts > 0 && Next(s, step).procs[step.p].store == e
  {
    LexInvReached(n, steps);
    hide Run;
    hide After;
    hide LexInv;
    if step.m.Value? {
      WriteCallIncreases(After(Init(n), steps), step);
    } else {
      AdoptCallIncreases(After(Init(n), steps), step);
    }
  }
}
