/** A majority of running processes is enough to finish any pending operation. */
module Progress {
  import opened Domain
  import opened Register
  import opened Cluster
  import opened QuorumCore
  import opened Refinement

  /** Process `p` runs and has not finished operation `id`. */
  ghost predicate Pending(s: System, p: nat, id: OpId) {
    p in s.procs && s.procs[p].up && s.procs[p].mem.opId == Some(id) && Busy(s.procs[p].mem)
  }

  /** A majority of running processes. */
  ghost predicate Quorum(s: System, quorum: set<nat>) {
    Majority(s.n, |quorum|) && forall q :: q in quorum ==> q in s.procs && s.procs[q].up
  }

  /** Only deliveries, none of them cut short, from and to members of `who`. */
  predicate Deliveries(steps: seq<Step>, who: set<nat>) {
    forall i :: 0 <= i < |steps| ==> steps[i].Deliver? && !steps[i].cut && steps[i].p in who && steps[i].m.src in who
  }

  lemma DeliveriesConcat(a: seq<Step>, b: seq<Step>, who: set<nat>)
    requires Deliveries(a, who) && Deliveries(b, who)
    ensures Deliveries(a + b, who)
  {
  }

  lemma TwoSteps(policy: Policy, s: System, x: Step, y: Step)
    requires Enabled(policy, s, x) && Enabled(policy, Next(s, x), y)
    ensures Run(policy, s, [x, y]) && After(s, [x, y]) == Next(Next(s, x), y)
  {
    hide Enabled;
    hide Next;
    assert [x][..0] == [];
    assert Run(policy, s, [x]) && After(s, [x]) == Next(s, x);
    assert [x, y][..1] == [x];
  }

  lemma {:induction false} SysInvKept(policy: Policy, s: System, steps: seq<Step>)
    requires SysInv(s) && Run(policy, s, steps)
    ensures SysInv(After(s, steps))
  {
    if steps != [] {
      SysInvKept(policy, s, steps[..|steps| - 1]);
      SysInvStep(After(s, steps[..|steps| - 1]), steps[|steps| - 1]);
    }
  }

  // ---------- The read phase ----------

  ghost predicate ReadPhase(s: System, p: nat, id: OpId) {
    Pending(s, p, id) && !s.procs[p].mem.writePhase
  }

  /** Process `q` answers READ_PROC, and `p` receives the answer. */
  function ReadRound(s: System, p: nat, id: OpId, q: nat, pick: Entry): (r: seq<Step>)
    requires q in s.procs
  {
    [Deliver(q, ReadProc(p, id), pick, false), Deliver(p, Value(q, p, id, s.procs[q].store), pick, false)]
  }

  /** The answer of `q` ends the read phase of `p`. */
  predicate EndsReading(s: System, p: nat, id: OpId, q: nat)
    requires p in s.procs && q in s.procs
  {
    Closes(s.n, s.procs[p].mem, q, id, s.procs[q].store)
  }

  /** `t` is `s` after `p` has collected more answers. */
  ghost predicate Collected(s: System, t: System, p: nat)
    requires p in s.procs
  {
    && p in t.procs && s.net <= t.net && s.clock <= t.clock
    && t == s.(procs := s.procs[p := s.procs[p].(mem := s.procs[p].mem.(readlist := t.procs[p].mem.readlist))],
               net := t.net, clock := t.clock)
  }

  /** State after the round when it does not end the phase, or ends it with `pick`. */
  lemma ReadRoundRuns(policy: Policy, s: System, p: nat, id: OpId, q: nat, pick: Entry)
    requires SysInv(s) && ReadPhase(s, p, id) && q in s.procs && s.procs[q].up
    requires EndsReading(s, p, id, q) ==> Selects(policy, Candidates(p, s.procs[p].mem, q, s.procs[q].store), pick)
    ensures Run(policy, s, ReadRound(s, p, id, q, pick))
    ensures After(s, ReadRound(s, p, id, q, pick)) ==
            Delivered(Delivered(s, q, ReadProc(p, id), pick, false), p, Value(q, p, id, s.procs[q].store), pick, false)
  {
    assert ProcOk(s, p) && ProcOk(s, q);
    var x, y := ReadRound(s, p, id, q, pick)[0], ReadRound(s, p, id, q, pick)[1];
    assert Enabled(policy, s, x);
    var t := Next(s, x);
    assert t.procs[p] == s.procs[p];
    TwoSteps(policy, s, x, y);
  }

  lemma RoundState(s: System, p: nat, id: OpId, q: nat)
    requires SysInv(s) && ReadPhase(s, p, id) && q in s.procs && s.procs[q].up && !EndsReading(s, p, id, q)
    ensures var t := Delivered(Delivered(s, q, ReadProc(p, id), ZERO_ENTRY, false),
                               p, Value(q, p, id, s.procs[q].store), ZERO_ENTRY, false);
            Collected(s, t, p) && t.procs[p].mem.readlist == s.procs[p].mem.readlist[q := s.procs[q].store]
  {
    assert ProcOk(s, p) && ProcOk(s, q);
    assert s.procs[q := s.procs[q]] == s.procs;
  }

  lemma CollectedKeeps(s: System, t: System, p: nat, id: OpId, quorum: set<nat>)
    requires ReadPhase(s, p, id) && Quorum(s, quorum) && Collected(s, t, p)
    ensures ReadPhase(t, p, id) && Quorum(t, quorum)
  {
  }

  lemma CollectOne(policy: Policy, s: System, p: nat, id: OpId, q: nat, quorum: set<nat>)
    returns (round: seq<Step>, t: System)
    requires SysInv(s) && ReadPhase(s, p, id) && Quorum(s, quorum) && q in quorum && !EndsReading(s, p, id, q)
    ensures Run(policy, s, round) && t == After(s, round) && Deliveries(round, quorum + {p})
    ensures Collected(s, t, p) && t.procs[p].mem.readlist == s.procs[p].mem.readlist[q := s.procs[q].store]
    ensures SysInv(t) && ReadPhase(t, p, id) && Quorum(t, quorum)
  {
    round := ReadRound(s, p, id, q, ZERO_ENTRY);
    assert Deliveries(round, quorum + {p});
    ReadRoundRuns(policy, s, p, id, q, ZERO_ENTRY);
    RoundState(s, p, id, q);
    t := After(s, round);
    SysInvKept(policy, s, round);
    CollectedKeeps(s, t, p, id, quorum);
  }

  /** A quorum either already ends the phase with its next answer, or has a member not heard from. */
  lemma SomeoneMissing(s: System, p: nat, id: OpId, quorum: set<nat>) returns (q: nat)
    requires ReadPhase(s, p, id) && Quorum(s, quorum)
    ensures q in quorum && (EndsReading(s, p, id, q) || q !in s.procs[p].mem.readlist)
  {
    var list := s.procs[p].mem.readlist;
    if quorum <= list.Keys {
      assert quorum != {};
      q :| q in quorum;
      SubsetCount(quorum, list.Keys);
      assert list[q := s.procs[q].store].Keys == list.Keys;
    } else {
      q :| q in quorum && q !in list;
    }
  }

  /** Every new answer is what a member of the quorum has stored. */
  ghost predicate Gathered(s: System, t: System, p: nat, quorum: set<nat>)
    requires p in s.procs && p in t.procs
  {
    var old1, new1 := s.procs[p].mem.readlist, t.procs[p].mem.readlist;
    forall r :: r in new1 && !(r in old1 && old1[r] == new1[r]) ==>
      r in quorum && r in s.procs && new1[r] == s.procs[r].store
  }

  lemma GatheredOne(s: System, t1: System, t: System, p: nat, q: nat, quorum: set<nat>)
    requires p in s.procs && Collected(s, t1, p) && Collected(t1, t, p) && q in quorum && q in s.procs
    requires t1.procs[p].mem.readlist == s.procs[p].mem.readlist[q := s.procs[q].store]
    requires Gathered(t1, t, p, quorum)
    ensures Collected(s, t, p) && Gathered(s, t, p, quorum)
  {
  }

  /** Answers are collected until the next one ends the phase. */
  lemma {:induction false} CollectAnswers(policy: Policy, s: System, p: nat, id: OpId, quorum: set<nat>)
    returns (steps: seq<Step>, t: System, q: nat)
    requires SysInv(s) && ReadPhase(s, p, id) && Quorum(s, quorum)
    ensures Run(policy, s, steps) && After(s, steps) == t && Deliveries(steps, quorum + {p})
    ensures SysInv(t) && Collected(s, t, p) && Gathered(s, t, p, quorum) && q in quorum && EndsReading(t, p, id, q)
    decreases |quorum - s.procs[p].mem.readlist.Keys|
  {
    hide SysInv;
    hide Run;
    hide After;
    q := SomeoneMissing(s, p, id, quorum);
    if EndsReading(s, p, id, q) {
      steps, t := [], s;
      NoSteps(policy, s);
      assert s.procs[p := s.procs[p]] == s.procs;
    } else {
      var q1 := q;
      var round, t1 := CollectOne(policy, s, p, id, q, quorum);
      OneFewer(quorum, s.procs[p].mem.readlist, q, s.procs[q].store);
      var rest;
      rest, t, q := CollectAnswers(policy, t1, p, id, quorum);
      steps := round + rest;
      RunConcat(policy, s, round, rest);
      DeliveriesConcat(round, rest, quorum + {p});
      GatheredOne(s, t1, t, p, q1, quorum);
    }
  }

  lemma OneFewer(quorum: set<nat>, list: map<nat, Entry>, q: nat, e: Entry)
    requires q in quorum && q !in list
    ensures |quorum - list[q := e].Keys| < |quorum - list.Keys|
  {
    assert quorum - list.Keys == (quorum - list[q := e].Keys) + {q};
  }

  /** `t` is `s` after `p` has entered the write phase of `id` carrying `out`. */
  ghost predicate Entered(s: System, t: System, p: nat, id: OpId, out: Entry)
    requires p in s.procs
  {
    && t.n == s.n && t.procs.Keys == s.procs.Keys && t.ops == s.ops && t.chosen == s.chosen[id := out]
    && s.net <= t.net && WriteProc(p, id, out) in t.net && s.clock < t.clock
    && (forall r :: r in s.procs && r != p ==> t.procs[r] == s.procs[r])
    && t.procs[p].up && t.procs[p].store == (if s.procs[p].mem.reading then s.procs[p].store else out)
    && t.procs[p].mem.acklist == {} && t.procs[p].mem.writePhase
    && t.procs[p].mem.reading == s.procs[p].mem.reading && t.procs[p].mem.opId == s.procs[p].mem.opId
  }

  lemma EnterState(s: System, p: nat, id: OpId, q: nat, pick: Entry)
    requires SysInv(s) && ReadPhase(s, p, id) && q in s.procs && s.procs[q].up && EndsReading(s, p, id, q)
    ensures var t := Delivered(Delivered(s, q, ReadProc(p, id), pick, false),
                               p, Value(q, p, id, s.procs[q].store), pick, false);
            Entered(s, t, p, id, Carried(p, s.procs[p].mem, pick))
  {
    assert ProcOk(s, p) && ProcOk(s, q);
    assert s.procs[q := s.procs[q]] == s.procs;
  }

  /** The last answer arrives and `Highest` returns `pick`. */
  lemma Enter(policy: Policy, s: System, p: nat, id: OpId, q: nat, pick: Entry, quorum: set<nat>)
    returns (round: seq<Step>, t: System)
    requires SysInv(s) && ReadPhase(s, p, id) && Quorum(s, quorum) && q in quorum && EndsReading(s, p, id, q)
    requires Selects(policy, Candidates(p, s.procs[p].mem, q, s.procs[q].store), pick)
    ensures Run(policy, s, round) && t == After(s, round) && Deliveries(round, quorum + {p}) && SysInv(t)
    ensures Entered(s, t, p, id, Carried(p, s.procs[p].mem, pick))
  {
    round := ReadRound(s, p, id, q, pick);
    assert Deliveries(round, quorum + {p});
    ReadRoundRuns(policy, s, p, id, q, pick);
    EnterState(s, p, id, q, pick);
    t := After(s, round);
    SysInvKept(policy, s, round);
  }

  /** Every policy finds something to select. */
  lemma {:induction false} SomePick(policy: Policy, list: map<nat, Entry>) returns (pick: Entry)
    requires list != map[]
    ensures Selects(policy, list, pick)
    decreases |list|
  {
    var q :| q in list;
    pick := list[q];
    var rest := list - {q};
    if rest != map[] {
      assert rest.Keys == list.Keys - {q};
      var other := SomePick(policy, rest);
      assert exists r :: r in rest && rest[r] == other;
      var better := match policy
        case Lex => Below(pick.tag, other.tag)
        case RankOnly => pick.tag.wr < other.tag.wr
        case AnyEntry => false;
      pick := if better then other else pick;
      assert forall r :: r in list ==> r == q || (r in rest && rest[r] == list[r]);
    } else {
      assert forall r :: r in list ==> r == q by {
        assert forall r :: r in list && r != q ==> r in rest;
      }
    }
  }

  // ---------- The write phase ----------

  ghost predicate WritePhase(s: System, p: nat, id: OpId, e: Entry) {
    && Pending(s, p, id) && s.procs[p].mem.writePhase
    && id in s.chosen && s.chosen[id] == e && WriteProc(p, id, e) in s.net
  }

  function Merge(x: Entry, e: Entry): Entry {
    if Below(x.tag, e.tag) then e else x
  }

  function WriteRound(p: nat, id: OpId, e: Entry, q: nat): (r: seq<Step>) {
    [Deliver(q, WriteProc(p, id, e), e, false), Deliver(p, Ack(q, p, id), e, false)]
  }

  /** The acknowledgement of `q` completes the operation of `p`. */
  predicate EndsWriting(s: System, p: nat, id: OpId, q: nat)
    requires p in s.procs
  {
    Completes(s.n, s.procs[p].mem, q, id)
  }

  /** `q` has merged `e` into what it stores. */
  function Merged(s: System, q: nat, e: Entry): System
    requires q in s.procs
  {
    var pr := s.procs[q];
    s.(procs := s.procs[q := Proc(pr.up, Merge(pr.store, e), pr.mem.(cur := Merge(pr.store, e)))])
  }

  lemma WriteRoundRuns(policy: Policy, s: System, p: nat, id: OpId, e: Entry, q: nat)
    requires SysInv(s) && WritePhase(s, p, id, e) && q in s.procs && s.procs[q].up
    ensures Run(policy, s, WriteRound(p, id, e, q))
    ensures After(s, WriteRound(p, id, e, q)) ==
            Delivered(Delivered(s, q, WriteProc(p, id, e), e, false), p, Ack(q, p, id), e, false)
    ensures Delivered(s, q, WriteProc(p, id, e), e, false) ==
            Midway(s, p, id, e, q)
  {
    assert ProcOk(s, p) && ProcOk(s, q);
    var x, y := WriteRound(p, id, e, q)[0], WriteRound(p, id, e, q)[1];
    assert Enabled(policy, s, x);
    var t := Next(s, x);
    assert t.procs[p].up;
    TwoSteps(policy, s, x, y);
  }

  /** `t` is `s` after members of `quorum` merged `e` and acknowledged; `p` has noted `acks`. */
  ghost predicate Acknowledged(s: System, t: System, p: nat, e: Entry, quorum: set<nat>)
    requires p in s.procs
  {
    && t.n == s.n && t.procs.Keys == s.procs.Keys && t.ops == s.ops && t.chosen == s.chosen && s.net <= t.net
    && s.clock <= t.clock
    && (forall r :: r in s.procs ==> t.procs[r].up == s.procs[r].up)
    && (forall r :: r in s.procs && r !in quorum ==> t.procs[r].store == s.procs[r].store)
    && (forall r :: r in quorum && r in s.procs ==>
          t.procs[r].store == s.procs[r].store || t.procs[r].store == Merge(s.procs[r].store, e))
    && (forall r :: r in t.procs[p].mem.acklist && r !in s.procs[p].mem.acklist ==>
          r in quorum && r in s.procs && t.procs[r].store == Merge(s.procs[r].store, e))
    && (forall r :: r in s.procs && r != p ==> t.procs[r].mem == s.procs[r].mem.(cur := t.procs[r].mem.cur))
    && t.procs[p].mem == s.procs[p].mem.(cur := t.procs[p].mem.cur, acklist := t.procs[p].mem.acklist)
  }

  /** Process `p` notes the acknowledgement of `q`. */
  function Noted(s: System, p: nat, q: nat): System
    requires p in s.procs
  {
    var pr := s.procs[p];
    s.(procs := s.procs[p := pr.(mem := pr.mem.(acklist := pr.mem.acklist + {q}))], clock := s.clock + 1)
  }

  /** The state between the two deliveries of a round. */
  function Midway(s: System, p: nat, id: OpId, e: Entry, q: nat): System
    requires q in s.procs
  {
    Merged(s, q, e).(net := s.net + {Ack(q, p, id)}, clock := s.clock + 1)
  }

  lemma NotedState(v: System, p: nat, id: OpId, e: Entry, q: nat)
    requires p in v.procs && v.procs[p].up && v.procs[p].mem.opId == Some(id) && v.procs[p].mem.writePhase
    requires !EndsWriting(v, p, id, q)
    ensures Delivered(v, p, Ack(q, p, id), e, false) == Noted(v, p, q)
  {
  }

  lemma NotedAcknowledged(s: System, p: nat, id: OpId, e: Entry, q: nat, quorum: set<nat>)
    requires p in s.procs && q in s.procs && q in quorum
    ensures Acknowledged(s, Noted(Midway(s, p, id, e, q), p, q), p, e, quorum)
  {
    var u := Midway(s, p, id, e, q);
    var t := Noted(u, p, q);
    assert u.procs[q] == Proc(s.procs[q].up, Merge(s.procs[q].store, e), s.procs[q].mem.(cur := Merge(s.procs[q].store, e)));
    hide Merge;
    hide Midway;
    forall r | r in s.procs
      ensures t.procs[r].up == s.procs[r].up && t.procs[r].store == u.procs[r].store
      ensures r != q ==> u.procs[r] == s.procs[r]
    {
    }
  }

  lemma AckState(s: System, p: nat, id: OpId, e: Entry, q: nat, quorum: set<nat>)
    requires WritePhase(s, p, id, e) && q in s.procs && q in quorum && !EndsWriting(s, p, id, q)
    ensures var t := Delivered(Midway(s, p, id, e, q), p, Ack(q, p, id), e, false);
            Acknowledged(s, t, p, e, quorum) && t.procs[p].mem.acklist == s.procs[p].mem.acklist + {q}
  {
    NotedState(Midway(s, p, id, e, q), p, id, e, q);
    NotedAcknowledged(s, p, id, e, q, quorum);
    hide Delivered;
    hide Acknowledged;
  }

  lemma AcknowledgedKeeps(s: System, t: System, p: nat, id: OpId, e: Entry, quorum: set<nat>)
    requires WritePhase(s, p, id, e) && Quorum(s, quorum) && Acknowledged(s, t, p, e, quorum)
    ensures WritePhase(t, p, id, e) && Quorum(t, quorum)
  {
  }

  lemma AckOne(policy: Policy, s: System, p: nat, id: OpId, e: Entry, q: nat, quorum: set<nat>)
    returns (round: seq<Step>, t: System)
    requires SysInv(s) && WritePhase(s, p, id, e) && Quorum(s, quorum) && q in quorum && !EndsWriting(s, p, id, q)
    ensures Run(policy, s, round) && t == After(s, round) && Deliveries(round, quorum + {p}) && SysInv(t)
    ensures Acknowledged(s, t, p, e, quorum) && t.procs[p].mem.acklist == s.procs[p].mem.acklist + {q}
    ensures WritePhase(t, p, id, e) && Quorum(t, quorum)
  {
    round := WriteRound(p, id, e, q);
    assert Deliveries(round, quorum + {p});
    WriteRoundRuns(policy, s, p, id, e, q);
    AckState(s, p, id, e, q, quorum);
    t := After(s, round);
    SysInvKept(policy, s, round);
    AcknowledgedKeeps(s, t, p, id, e, quorum);
  }

  lemma AcknowledgedTwice(s: System, t1: System, t: System, p: nat, e: Entry, quorum: set<nat>)
    requires p in s.procs && Acknowledged(s, t1, p, e, quorum) && Acknowledged(t1, t, p, e, quorum)
    ensures Acknowledged(s, t, p, e, quorum)
  {
  }

  lemma NextAck(s: System, p: nat, id: OpId, e: Entry, quorum: set<nat>) returns (q: nat)
    requires WritePhase(s, p, id, e) && Quorum(s, quorum)
    ensures q in quorum && (EndsWriting(s, p, id, q) || q !in s.procs[p].mem.acklist)
  {
    var acks := s.procs[p].mem.acklist;
    if quorum <= acks {
      assert quorum != {};
      q :| q in quorum;
      SubsetCount(quorum, acks);
      assert acks + {q} == acks;
    } else {
      q :| q in quorum && q !in acks;
    }
  }

  lemma AcknowledgedNone(s: System, p: nat, e: Entry, quorum: set<nat>)
    requires p in s.procs
    ensures Acknowledged(s, s, p, e, quorum)
  {
  }

  lemma OneAckFewer(quorum: set<nat>, acks: set<nat>, q: nat)
    requires q in quorum && q !in acks
    ensures |quorum - (acks + {q})| < |quorum - acks|
  {
    assert quorum - acks == (quorum - (acks + {q})) + {q};
  }

  /** Acknowledgements are collected until the next one completes the operation. */
  lemma {:induction false} CollectAcks(policy: Policy, s: System, p: nat, id: OpId, e: Entry, quorum: set<nat>)
    returns (steps: seq<Step>, t: System, q: nat)
    requires SysInv(s) && WritePhase(s, p, id, e) && Quorum(s, quorum)
    ensures Run(policy, s, steps) && After(s, steps) == t && Deliveries(steps, quorum + {p})
    ensures SysInv(t) && Acknowledged(s, t, p, e, quorum) && q in quorum && EndsWriting(t, p, id, q)
    ensures WritePhase(t, p, id, e) && Quorum(t, quorum)
    decreases |quorum - s.procs[p].mem.acklist|
  {
    hide SysInv;
    hide Run;
    hide After;
    q := NextAck(s, p, id, e, quorum);
    if EndsWriting(s, p, id, q) {
      steps, t := [], s;
      NoSteps(policy, s);
      AcknowledgedNone(s, p, e, quorum);
    } else {
      var round, t1 := AckOne(policy, s, p, id, e, q, quorum);
      OneAckFewer(quorum, s.procs[p].mem.acklist, q);
      var rest;
      rest, t, q := CollectAcks(policy, t1, p, id, e, quorum);
      steps := round + rest;
      RunConcat(policy, s, round, rest);
      DeliveriesConcat(round, rest, quorum + {p});
      AcknowledgedTwice(s, t1, t, p, e, quorum);
    }
  }

  /** `t` is `s` after operation `id` of `p` has returned, with members of `quorum` having merged `e`. */
  ghost predicate Finished(s: System, t: System, p: nat, id: OpId, e: Entry, quorum: set<nat>)
    requires p in s.procs && id in s.ops
  {
    && t.n == s.n && t.procs.Keys == s.procs.Keys && t.chosen == s.chosen && s.net <= t.net
    && id in t.ops && t.ops == s.ops[id := s.ops[id].(ret := t.ops[id].ret)] && t.ops[id].ret.Some?
    && s.clock <= t.ops[id].ret.value.at < t.clock
    && t.ops[id].ret.value.result == (if s.procs[p].mem.reading then ReadReturn(e.val) else WriteReturn)
    && (forall r :: r in s.procs ==> t.procs[r].up == s.procs[r].up)
    && (forall r :: r in s.procs && r !in quorum ==> t.procs[r].store == s.procs[r].store)
    && (forall r :: r in s.procs && r != p ==> t.procs[r].mem == s.procs[r].mem.(cur := t.procs[r].mem.cur))
    && Idle(t.procs[p].mem)
  }

  /** Every member of the quorum has merged `e`. */
  ghost predicate AllMerged(s: System, t: System, e: Entry, quorum: set<nat>) {
    forall r :: r in quorum ==> r in s.procs && r in t.procs && t.procs[r].store == Merge(s.procs[r].store, e)
  }

  /** What the last acknowledgement does to `p` and to the history. */
  function Closed(s: System, p: nat, id: OpId, e: Entry): System
    requires p in s.procs && id in s.ops
  {
    var pr := s.procs[p];
    var ret := if pr.mem.reading then ReadReturn(e.val) else WriteReturn;
    s.(procs := s.procs[p := pr.(mem := pr.mem.(acklist := {}, writePhase := false, callback := None,
                                                reading := false, writing := false))],
       ops := s.ops[id := s.ops[id].(ret := Some(Return(s.clock, ret)))], clock := s.clock + 1)
  }

  lemma LastAck(v: System, p: nat, id: OpId, e: Entry, q: nat)
    requires p in v.procs && EndsWriting(v, p, id, q) && id in v.ops
    requires v.procs[p].up && v.procs[p].mem.callback == Some(id) && v.procs[p].mem.rid.Some?
    requires if v.procs[p].mem.reading then !v.procs[p].mem.writing && v.procs[p].mem.readval == e.val
             else v.procs[p].mem.writing
    ensures Delivered(v, p, Ack(q, p, id), e, false) == Closed(v, p, id, e)
  {
  }

  /** The facts about the finishing process that the last acknowledgement relies on. */
  lemma MayClose(s: System, p: nat, id: OpId, e: Entry)
    requires SysInv(s) && WritePhase(s, p, id, e)
    ensures id in s.ops && s.procs[p].mem.callback == Some(id) && s.procs[p].mem.rid.Some?
    ensures if s.procs[p].mem.reading then !s.procs[p].mem.writing && s.procs[p].mem.readval == e.val
            else s.procs[p].mem.writing
  {
  }

  lemma ClosedState(s: System, p: nat, id: OpId, e: Entry, q: nat, quorum: set<nat>)
    requires p in s.procs && id in s.ops && q in s.procs && q in quorum
    ensures var t := Closed(Midway(s, p, id, e, q), p, id, e);
            && Finished(s, t, p, id, e, quorum)
            && t.procs[q].store == Merge(s.procs[q].store, e)
            && forall r :: r in s.procs && r != q ==> t.procs[r].store == s.procs[r].store
  {
    var t := Closed(Midway(s, p, id, e, q), p, id, e);
    assert t.ops == s.ops[id := s.ops[id].(ret := t.ops[id].ret)];
    forall r | r in s.procs && r != p ensures t.procs[r].mem == s.procs[r].mem.(cur := t.procs[r].mem.cur) {
    }
  }

  lemma FinishState(s: System, p: nat, id: OpId, e: Entry, q: nat, quorum: set<nat>)
    requires SysInv(s) && WritePhase(s, p, id, e) && q in s.procs && q in quorum && EndsWriting(s, p, id, q)
    ensures var t := Delivered(Midway(s, p, id, e, q), p, Ack(q, p, id), e, false);
            && id in s.ops && Finished(s, t, p, id, e, quorum)
            && t.procs[q].store == Merge(s.procs[q].store, e)
            && forall r :: r in s.procs && r != q ==> t.procs[r].store == s.procs[r].store
  {
    hide SysInv;
    hide Delivered;
    hide Finished;
    MayClose(s, p, id, e);
    LastAck(Midway(s, p, id, e, q), p, id, e, q);
    ClosedState(s, p, id, e, q, quorum);
  }

  lemma FinishOne(policy: Policy, s: System, p: nat, id: OpId, e: Entry, q: nat, quorum: set<nat>)
    returns (round: seq<Step>, t: System)
    requires SysInv(s) && WritePhase(s, p, id, e) && Quorum(s, quorum) && q in quorum && EndsWriting(s, p, id, q)
    ensures Run(policy, s, round) && t == After(s, round) && Deliveries(round, quorum + {p}) && SysInv(t)
    ensures id in s.ops && Finished(s, t, p, id, e, quorum)
    ensures t.procs[q].store == Merge(s.procs[q].store, e)
    ensures forall r :: r in s.procs && r != q ==> t.procs[r].store == s.procs[r].store
  {
    round := WriteRound(p, id, e, q);
    assert Deliveries(round, quorum + {p});
    WriteRoundRuns(policy, s, p, id, e, q);
    FinishState(s, p, id, e, q, quorum);
    t := After(s, round);
    SysInvKept(policy, s, round);
  }

  lemma FinishedAfter(s: System, t1: System, t: System, p: nat, id: OpId, e: Entry, quorum: set<nat>)
    requires p in s.procs && id in s.ops && Acknowledged(s, t1, p, e, quorum) && Finished(t1, t, p, id, e, quorum)
    ensures Finished(s, t, p, id, e, quorum)
  {
  }

  /** With a quorum of minimal size every member has taken part. */
  lemma WholeQuorum(s: System, t1: System, t: System, p: nat, id: OpId, e: Entry, q: nat, quorum: set<nat>)
    requires p in s.procs && Acknowledged(s, t1, p, e, quorum) && q in quorum && EndsWriting(t1, p, id, q)
    requires s.procs[p].mem.acklist == {} && |quorum| == s.n / 2 + 1
    requires forall r :: r in quorum ==> r in s.procs
    requires t.procs.Keys == s.procs.Keys && t.procs[q].store == Merge(t1.procs[q].store, e)
    requires forall r :: r in s.procs && r != q ==> t.procs[r].store == t1.procs[r].store
    ensures AllMerged(s, t, e, quorum)
  {
    var acks := t1.procs[p].mem.acklist + {q};
    assert acks <= quorum;
    assert |quorum - acks| == |quorum| - |acks|;
    assert quorum == acks;
  }

  /** The write phase runs to the callback. */
  lemma Complete(policy: Policy, s: System, p: nat, id: OpId, e: Entry, quorum: set<nat>)
    returns (steps: seq<Step>, t: System)
    requires SysInv(s) && WritePhase(s, p, id, e) && Quorum(s, quorum)
    ensures Run(policy, s, steps) && t == After(s, steps) && Deliveries(steps, quorum + {p}) && SysInv(t)
    ensures id in s.ops && Finished(s, t, p, id, e, quorum)
    ensures s.procs[p].mem.acklist == {} && |quorum| == s.n / 2 + 1 ==> AllMerged(s, t, e, quorum)
  {
    var front, t1, q := CollectAcks(policy, s, p, id, e, quorum);
    var round;
    round, t := FinishOne(policy, t1, p, id, e, q, quorum);
    steps := front + round;
    RunConcat(policy, s, front, round);
    DeliveriesConcat(front, round, quorum + {p});
    FinishedAfter(s, t1, t, p, id, e, quorum);
    if s.procs[p].mem.acklist == {} && |quorum| == s.n / 2 + 1 {
      WholeQuorum(s, t1, t, p, id, e, q, quorum);
    }
  }

  /** The read phase runs to the point where the operation carries an entry. */
  lemma ReachWritePhase(policy: Policy, s: System, p: nat, id: OpId, quorum: set<nat>)
    returns (steps: seq<Step>, t: System, e: Entry)
    requires SysInv(s) && ReadPhase(s, p, id) && Quorum(s, quorum)
    ensures Run(policy, s, steps) && t == After(s, steps) && Deliveries(steps, quorum + {p}) && SysInv(t)
    ensures WritePhase(t, p, id, e) && Quorum(t, quorum)
  {
    var front, t1, q := CollectAnswers(policy, s, p, id, quorum);
    CollectedKeeps(s, t1, p, id, quorum);
    var all := Candidates(p, t1.procs[p].mem, q, t1.procs[q].store);
    assert p in all;
    var pick := SomePick(policy, all);
    e := Carried(p, t1.procs[p].mem, pick);
    var round;
    round, t := Enter(policy, t1, p, id, q, pick, quorum);
    EnteredKeeps(t1, t, p, id, e, quorum);
    steps := front + round;
    RunConcat(policy, s, front, round);
    DeliveriesConcat(front, round, quorum + {p});
  }

  lemma EnteredKeeps(s: System, t: System, p: nat, id: OpId, e: Entry, quorum: set<nat>)
    requires SysInv(t) && ReadPhase(s, p, id) && Quorum(s, quorum) && Entered(s, t, p, id, e)
    ensures WritePhase(t, p, id, e) && Quorum(t, quorum) && t.n == s.n && t.procs[p].mem.acklist == {}
  {
  }

  /**
   * In every reachable state, a running process with an unfinished operation and any majority of running
   * processes can finish it by deliveries among themselves.
   */
  lemma MajorityFinishes(policy: Policy, n: nat, steps: seq<Step>, p: nat, id: OpId, quorum: set<nat>)
    returns (more: seq<Step>)
    requires Run(policy, Init(n), steps)
    requires Pending(After(Init(n), steps), p, id) && Quorum(After(Init(n), steps), quorum)
    ensures Run(policy, After(Init(n), steps), more) && Deliveries(more, quorum + {p})
    ensures var h := After(After(Init(n), steps), more).ops; id in h && h[id].ret.Some?
  {
    var s := After(Init(n), steps);
    SysInvInit(n);
    SysInvKept(policy, Init(n), steps);
    assert ProcOk(s, p);
    if s.procs[p].mem.writePhase {
      var t;
      more, t := Complete(policy, s, p, id, s.chosen[id], quorum);
    } else {
      var a, t1, e := ReachWritePhase(policy, s, p, id, quorum);
      var b, t := Complete(policy, t1, p, id, e, quorum);
      more := a + b;
      RunConcat(policy, s, a, b);
      DeliveriesConcat(a, b, quorum + {p});
    }
  }
}
