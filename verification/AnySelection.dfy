/** What holds in every run whichever reported entry `Highest` returns, hence for the code as it stands. */
module AnySelection {
  import opened Domain
  import opened Histories
  import opened Register
  import opened Cluster
  import opened QuorumCore
  import opened CoreInvariant
  import opened Refinement
  import opened Safety

  /** The zero sector, or data some client asked to write. */
  ghost predicate Known(c: Core, v: Data) {
    v == ZeroSector() || exists w :: w in c.ops && c.ops[w].cmd == Write(v)
  }

  /**
   * A known value with a timestamp no larger than the number of writes that reached their second phase, and the
   * rank of a process.
   */
  ghost predicate Sound(c: Core, e: Entry) {
    Known(c, e.val) && e.tag.ts <= c.writes && e.tag.wr <= c.n
  }

  ghost predicate AllSound(c: Core) {
    && (forall q :: q in c.stores ==> Sound(c, c.stores[q]))
    && (forall m :: m in c.net && m.Value? ==> Sound(c, m.entry))
    && (forall id :: id in c.chosen ==> Sound(c, c.chosen[id]))
  }

  /** What a read returned was written by an operation invoked before the return, or is the zero sector. */
  ghost predicate ReadOk(h: History, r: OpId)
    requires r in h && h[r].ret.Some? && h[r].ret.value.result.ReadReturn?
  {
    var v := h[r].ret.value.result.data;
    v == ZeroSector() || exists w :: w in h && h[w].cmd == Write(v) && h[w].inv < h[r].ret.value.at
  }

  ghost predicate ReadsOk(h: History) {
    forall r :: r in h && h[r].ret.Some? && h[r].ret.value.result.ReadReturn? ==> ReadOk(h, r)
  }

  ghost function WritesBegun(c: Core): set<OpId> {
    set w | w in c.chosen && IsWrite(c, w)
  }

  ghost predicate AnyInv(c: Core) {
    BasicInv(c) && AllSound(c) && ReadsOk(c.ops) && c.writes == |WritesBegun(c)|
  }

  lemma SoundStays(c: Core, a: Action, e: Entry)
    requires BasicInv(c) && Can(c, a) && Sound(c, e)
    ensures Sound(Do(c, a), e)
  {
    if e.val != ZeroSector() {
      var w :| w in c.ops && c.ops[w].cmd == Write(e.val);
      assert w in Do(c, a).ops && Do(c, a).ops[w].cmd == Write(e.val);
    }
  }

  lemma CarriedSound(c: Core, a: Action)
    requires AnyInv(c) && Can(c, a) && a.Choose?
    ensures Sound(Do(c, a), Do(c, a).chosen[a.id])
  {
  }

  lemma StoresSound(c: Core, a: Action)
    requires AnyInv(c) && Can(c, a)
    ensures forall q :: q in Do(c, a).stores ==> Sound(Do(c, a), Do(c, a).stores[q])
  {
    var d := Do(c, a);
    forall q | q in d.stores ensures Sound(d, d.stores[q]) {
      if d.stores[q] == c.stores[q] {
        SoundStays(c, a, c.stores[q]);
      } else if a.Choose? {
        CarriedSound(c, a);
      } else {
        assert MessageOk(c, WriteProc(a.p, a.id, a.e));
        SoundStays(c, a, c.chosen[a.id]);
      }
    }
  }

  lemma SoundStep(c: Core, a: Action)
    requires AnyInv(c) && Can(c, a)
    ensures AllSound(Do(c, a))
  {
    var d := Do(c, a);
    StoresSound(c, a);
    forall m | m in d.net && m.Value? ensures Sound(d, m.entry) {
      if m in c.net {
        SoundStays(c, a, m.entry);
      } else {
        SoundStays(c, a, c.stores[m.src]);
      }
    }
    forall id | id in d.chosen ensures Sound(d, d.chosen[id]) {
      if id in c.chosen {
        SoundStays(c, a, c.chosen[id]);
      } else {
        CarriedSound(c, a);
      }
    }
  }

  lemma ReadsStep(c: Core, a: Action)
    requires AnyInv(c) && Can(c, a)
    ensures ReadsOk(Do(c, a).ops)
  {
    var d := Do(c, a);
    forall r | r in d.ops && d.ops[r].ret.Some? && d.ops[r].ret.value.result.ReadReturn? ensures ReadOk(d.ops, r) {
      var v := d.ops[r].ret.value.result.data;
      if c.ops[r].ret.Some? {
        assert ReadOk(c.ops, r);
        if v != ZeroSector() {
          var w :| w in c.ops && c.ops[w].cmd == Write(v) && c.ops[w].inv < c.ops[r].ret.value.at;
          assert w in d.ops && d.ops[w].cmd == Write(v);
        }
      } else {
        NewReadOk(c, a);
      }
    }
  }

  lemma NewReadOk(c: Core, a: Action)
    requires AnyInv(c) && Can(c, a) && a.Finish? && a.result.ReadReturn?
    ensures ReadOk(Do(c, a).ops, a.id)
  {
    var d, v := Do(c, a), a.result.data;
    assert Sound(c, c.chosen[a.id]);
    if v != ZeroSector() {
      var w :| w in c.ops && c.ops[w].cmd == Write(v);
      assert w in d.ops && d.ops[w].cmd == Write(v) && d.ops[w].inv == c.ops[w].inv;
    }
  }

  lemma BegunSet(c: Core, a: Action)
    requires BasicInv(c) && Can(c, a)
    ensures var begun := if a.Choose? && c.ops[a.id].cmd.Write? then {a.id} else {};
            WritesBegun(Do(c, a)) == WritesBegun(c) + begun
  {
  }

  lemma CountStep(c: Core, a: Action)
    requires BasicInv(c) && Can(c, a) && c.writes == |WritesBegun(c)|
    ensures Do(c, a).writes == |WritesBegun(Do(c, a))|
  {
    BegunSet(c, a);
    if a.Choose? {
      assert a.id !in WritesBegun(c);
    }
  }

  lemma {:induction false} AnyInvRun(n: nat, steps: seq<Step>)
    requires Run(AnyEntry, Init(n), steps)
    ensures SysInv(After(Init(n), steps)) && AnyInv(View(After(Init(n), steps)))
  {
    if steps == [] {
      SysInvInit(n);
    } else {
      var last := |steps| - 1;
      AnyInvRun(n, steps[..last]);
      var s := After(Init(n), steps[..last]);
      Simulates(s, steps[last]);
      SysInvStep(s, steps[last]);
      var c, a := View(s), Abstract(s, steps[last]);
      SoundStep(c, a);
      ReadsStep(c, a);
      CountStep(c, a);
    }
  }

  /** Every read returns the zero sector or the data of a write invoked before the read returned. */
  lemma ReadsReturnWrittenData(policy: Policy, n: nat, steps: seq<Step>, r: OpId)
    requires Run(policy, Init(n), steps)
    requires var h := After(Init(n), steps).ops;
             r in h && h[r].ret.Some? && h[r].ret.value.result.ReadReturn?
    ensures ReadOk(After(Init(n), steps).ops, r)
  {
    RunsAreAny(policy, Init(n), steps);
    AnyInvRun(n, steps);
  }

  lemma HeldSound(s: System, p: nat, e: Entry)
    requires SysInv(s) && AnyInv(View(s)) && HeldBy(s, p, e)
    ensures Sound(View(s), e)
  {
    var c := View(s);
    assert ProcOk(s, p);
    assert Sound(c, c.stores[p]);
    if s.procs[p].store != e && s.procs[p].mem.cur != e {
      var l := s.procs[p].mem;
      var q :| q in l.readlist && l.readlist[q] == e;
      assert Value(q, p, l.opId.value, e) in c.net;
    }
  }

  lemma CirculatesSound(s: System, e: Entry)
    requires SysInv(s) && AnyInv(View(s)) && Circulates(s, e)
    ensures Sound(View(s), e)
  {
    if p :| HeldBy(s, p, e) {
      HeldSound(s, p, e);
    } else if m :| m in s.net && (m.Value? || m.WriteProc?) && m.entry == e {
      assert MessageOk(View(s), m);
    }
  }

  /**
   * No timestamp anywhere exceeds the number of writes that have begun their second phase, so the 64-bit
   * increment cannot overflow before 2^64 - 1 of them.
   */
  lemma TimestampsBounded(policy: Policy, n: nat, steps: seq<Step>, e: Entry)
    requires Run(policy, Init(n), steps) && Circulates(After(Init(n), steps), e)
    ensures var s := After(Init(n), steps);
            e.tag.ts <= |set w | w in s.chosen && w in s.ops && s.ops[w].cmd.Write?|
  {
    RunsAreAny(policy, Init(n), steps);
    AnyInvRun(n, steps);
    var s := After(Init(n), steps);
    CirculatesSound(s, e);
    assert WritesBegun(View(s)) == set w | w in s.chosen && w in s.ops && s.ops[w].cmd.Write?;
  }

  lemma {:induction false} WritesCounted(s: System, steps: seq<Step>)
    ensures After(s, steps).writes <= s.writes + |steps| && After(s, steps).n == s.n
  {
    if steps != [] {
      WritesCounted(s, steps[..|steps| - 1]);
    }
  }

  lemma PickCirculates(s: System, p: nat, m: Message, pick: Entry)
    requires p in s.procs && s.procs[p].up && m in s.net && m.Value?
    requires pick in Candidates(p, s.procs[p].mem, m.src, m.entry).Values
    ensures Circulates(s, pick)
  {
    var all := Candidates(p, s.procs[p].mem, m.src, m.entry);
    var q :| q in all && all[q] == pick;
    assert q == p || q != m.src ==> HeldBy(s, p, pick);
  }

  /** What a delivery stores is its message's entry, or follows an entry of the process's own candidates. */
  lemma StoredSound(s: System, step: Step)
    requires SysInv(s) && AnyInv(View(s)) && Enabled(AnyEntry, s, step) && StoreCall(s, step).Some?
    ensures var e := StoreCall(s, step).value; e.tag.ts <= s.writes + 1 && e.tag.wr <= s.n
  {
    assert s.procs.Keys == Idents(s.n);
    StoredForm(s.n, step.p, s.procs[step.p].mem, step.m, step.pick);
    hide SysInv;
    hide AnyInv;
    hide Circulates;
    hide OnMessage;
    hide Closes;
    if step.m.WriteProc? {
      assert Circulates(s, step.m.entry) by { SentCirculates(s, step.m); }
      CirculatesSound(s, step.m.entry);
    } else {
      PickCirculates(s, step.p, step.m, step.pick);
      CirculatesSound(s, step.pick);
    }
  }

  lemma SentCirculates(s: System, m: Message)
    requires m in s.net && m.WriteProc?
    ensures Circulates(s, m.entry)
  {
  }

  /** A tag to be stored fits as long as the run is short and the processes few. */
  lemma StoredTagBounded(policy: Policy, n: nat, steps: seq<Step>, step: Step)
    requires Run(policy, Init(n), steps) && Enabled(policy, After(Init(n), steps), step)
    requires StoreCall(After(Init(n), steps), step).Some?
    ensures var e := StoreCall(After(Init(n), steps), step).value; e.tag.ts <= |steps| + 1 && e.tag.wr <= n
  {
    RunsAreAny(policy, Init(n), steps);
    AnyInvRun(n, steps);
    WritesCounted(Init(n), steps);
    StoredSound(After(Init(n), steps), step);
  }

  /** The callback a delivery runs, if any. */
  function Callback(s: System, step: Step): Option<Success> {
    if step.Deliver? && step.p in s.procs then
      match OnMessage(s.n, step.p, s.procs[step.p].mem, step.m, step.pick)
      case Halt => None
      case Done(e) => e.fired
    else None
  }

  lemma FiredIsOwn(s: System, step: Step)
    requires SysInv(s) && Enabled(AnyEntry, s, step) && Callback(s, step).Some? && !step.cut
    ensures var f := Callback(s, step).value;
            && f.callback in s.ops && s.ops[f.callback].proc == step.p && s.ops[f.callback].ret.None?
            && f.rid == s.ops[f.callback].rid && (f.ret.ReadReturn? <==> s.ops[f.callback].cmd.Read?)
            && Next(s, step).ops[f.callback].ret == Some(Return(s.clock, f.ret))
  {
    assert ProcOk(s, step.p);
    assert step.m.Ack?;
  }

  /**
   * A callback belongs to an operation of that process that has not returned, carries the request identifier
   * and the read or write kind of its own command, and ends the operation.
   */
  lemma CallbackIsOwn(policy: Policy, n: nat, steps: seq<Step>, step: Step)
    requires Run(policy, Init(n), steps) && Enabled(policy, After(Init(n), steps), step)
    requires Callback(After(Init(n), steps), step).Some? && !step.cut
    ensures var s := After(Init(n), steps); var f := Callback(s, step).value;
            && f.callback in s.ops && s.ops[f.callback].proc == step.p && s.ops[f.callback].ret.None?
            && f.rid == s.ops[f.callback].rid && (f.ret.ReadReturn? <==> s.ops[f.callback].cmd.Read?)
            && Next(s, step).ops[f.callback].ret == Some(Return(s.clock, f.ret))
  {
    RunsAreAny(policy, Init(n), steps);
    AnyInvRun(n, steps);
    FiredIsOwn(After(Init(n), steps), step);
  }
}
