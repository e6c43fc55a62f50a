/** Every action of the protocol keeps the invariant of `QuorumCore`. */
module CoreInvariant {
  import opened Domain
  import opened Histories
  import opened QuorumCore

  /** An operation record only ever gains its return. */
  predicate Continues(r: OpRecord, r': OpRecord) {
    && r'.proc == r.proc && r'.cmd == r.cmd && r'.inv == r.inv
    && (r.ret.Some? ==> r'.ret == r.ret)
  }

  ghost predicate StoresRise(c: Core, d: Core) {
    d.stores.Keys == c.stores.Keys && forall q :: q in c.stores ==> AtMost(c.stores[q].tag, d.stores[q].tag)
  }

  ghost predicate RecordsStay(c: Core, d: Core) {
    && (forall id :: id in c.ops ==> id in d.ops && Continues(c.ops[id], d.ops[id]))
    && (forall id :: id in c.chosen ==> id in d.chosen && d.chosen[id] == c.chosen[id])
  }

  /** Messages stay in the network, and a new report tells what its sender has stored. */
  ghost predicate NetGrows(c: Core, d: Core) {
    && c.net <= d.net
    && (forall m :: m in d.net && m !in c.net && m.Value? ==> m.src in c.stores && m.entry == c.stores[m.src])
  }

  /** Later states only add. */
  ghost predicate Extends(c: Core, d: Core) {
    d.n == c.n && StoresRise(c, d) && RecordsStay(c, d) && NetGrows(c, d)
  }

  // ---------- Shape and messages, for any selection ----------

  lemma BasicStep(c: Core, a: Action)
    requires BasicInv(c) && Can(c, a)
    ensures BasicInv(Do(c, a))
  {
    ShapeStep(c, a);
    NetStep(c, a);
  }

  lemma ShapeStep(c: Core, a: Action)
    requires BasicInv(c) && Can(c, a)
    ensures Shape(Do(c, a))
  {
    var d := Do(c, a);
    assert d.stores.Keys == c.stores.Keys;
    forall id | id in d.ops && d.ops[id].ret.Some?
      ensures id in d.chosen && d.ops[id].inv < d.ops[id].ret.value.at < d.clock && d.ops[id].ret.value.result == ResultOf(d, id)
    {
      assert id in c.ops;
    }
  }

  lemma NetStep(c: Core, a: Action)
    requires BasicInv(c) && Can(c, a)
    ensures NetOk(Do(c, a))
  {
    var d := Do(c, a);
    forall m | m in d.net ensures MessageOk(d, m) {
      if m in c.net {
        assert MessageOk(c, m);
      } else if a.Report? {
        assert MessageOk(c, ReadProc(a.p, a.id));
      } else if a.Adopt? {
        assert MessageOk(c, WriteProc(a.p, a.id, a.e));
      }
    }
  }

  // ---------- Everything already said stays true ----------

  lemma ExtendsStep(c: Core, a: Action)
    requires BasicInv(c) && CanLex(c, a)
    ensures Extends(c, Do(c, a))
  {
    StoresStep(c, a);
    RecordsStep(c, a);
    assert NetGrows(c, Do(c, a));
  }

  /** Stored tags never decrease. */
  lemma StoresStep(c: Core, a: Action)
    requires BasicInv(c) && CanLex(c, a)
    ensures StoresRise(c, Do(c, a))
  {
  }

  lemma RecordsStep(c: Core, a: Action)
    requires BasicInv(c) && Can(c, a)
    ensures RecordsStay(c, Do(c, a))
  {
  }

  lemma GenuineStays(c: Core, d: Core, e: Entry)
    requires Extends(c, d) && Genuine(c, e)
    ensures Genuine(d, e)
  {
  }

  lemma HoldersGrow(c: Core, d: Core, t: Tag)
    requires Extends(c, d)
    ensures Holders(c, t) <= Holders(d, t)
    ensures |Holders(c, t)| <= |Holders(d, t)|
  {
    SubsetCount(Holders(c, t), Holders(d, t));
  }

  lemma FreshGrows(c: Core, d: Core, id: OpId, t: Tag)
    requires Extends(c, d)
    ensures Fresh(c, id, t) <= Fresh(d, id, t)
    ensures |Fresh(c, id, t)| <= |Fresh(d, id, t)|
  {
    HoldersGrow(c, d, t);
    forall q | q in Fresh(c, id, t) ensures !StaleReport(d, q, id, t) {
      forall m | m in d.net && m.Value? && m.src == q && m.id == id ensures !Below(m.entry.tag, t) {
        if m in c.net {
          assert !StaleReport(c, q, id, t);
        }
      }
    }
    SubsetCount(Fresh(c, id, t), Fresh(d, id, t));
  }

  // ---------- Entries are genuine, and tags name their writer ----------

  lemma CarriedGenuine(c: Core, a: Action)
    requires Inv(c) && CanLex(c, a) && a.Choose?
    ensures Genuine(Do(c, a), Do(c, a).chosen[a.id])
  {
  }

  lemma StoresGenuine(c: Core, a: Action)
    requires Inv(c) && CanLex(c, a)
    ensures forall q :: q in Do(c, a).stores ==> Genuine(Do(c, a), Do(c, a).stores[q])
  {
    var d := Do(c, a);
    ExtendsStep(c, a);
    forall q | q in d.stores ensures Genuine(d, d.stores[q]) {
      if d.stores[q] == c.stores[q] {
        GenuineStays(c, d, c.stores[q]);
      } else if a.Choose? {
        CarriedGenuine(c, a);
      } else {
        assert MessageOk(c, WriteProc(a.p, a.id, a.e));
        GenuineStays(c, d, c.chosen[a.id]);
      }
    }
  }

  lemma GenuineStep(c: Core, a: Action)
    requires Inv(c) && CanLex(c, a)
    ensures AllGenuine(Do(c, a))
  {
    var d := Do(c, a);
    ExtendsStep(c, a);
    StoresGenuine(c, a);
    forall m | m in d.net && m.Value? ensures Genuine(d, m.entry) {
      if m in c.net {
        GenuineStays(c, d, m.entry);
      } else {
        GenuineStays(c, d, c.stores[m.src]);
      }
    }
    forall id | id in d.chosen ensures Genuine(d, d.chosen[id]) {
      if id in c.chosen {
        GenuineStays(c, d, c.chosen[id]);
      } else {
        CarriedGenuine(c, a);
      }
    }
  }

  lemma WritesStep(c: Core, a: Action)
    requires Inv(c) && CanLex(c, a)
    ensures WritesOk(Do(c, a))
  {
    var d := Do(c, a);
    ExtendsStep(c, a);
    forall w | IsWrite(d, w) ensures WriteOk(d, w) {
      if w in c.chosen {
        assert IsWrite(c, w);
        assert WriteOk(c, w);
      }
    }
  }

  /** A new write's tag is above everything its process has stored, so it repeats no earlier tag of that process. */
  lemma NewTagDistinct(c: Core, a: Action, v: OpId)
    requires Inv(c) && CanLex(c, a) && a.Choose? && c.ops[a.id].cmd.Write? && IsWrite(c, v)
    ensures c.chosen[v].tag != Do(c, a).chosen[a.id].tag
  {
    assert WriteOk(c, v);
    var p := c.ops[a.id].proc;
    assert c.chosen[v].tag.wr == p ==> AtMost(c.chosen[v].tag, c.stores[p].tag);
    assert AtMost(c.stores[p].tag, a.pick.tag);
  }

  lemma DistinctStep(c: Core, a: Action)
    requires Inv(c) && CanLex(c, a)
    ensures WriteTagsDistinct(Do(c, a))
  {
    var d := Do(c, a);
    ExtendsStep(c, a);
    forall v, w | IsWrite(d, v) && IsWrite(d, w) && d.chosen[v].tag == d.chosen[w].tag ensures v == w {
      if v in c.chosen && w in c.chosen {
        assert IsWrite(c, v) && IsWrite(c, w);
      } else if v in c.chosen {
        assert IsWrite(c, v);
        NewTagDistinct(c, a, v);
      } else if w in c.chosen {
        assert IsWrite(c, w);
        NewTagDistinct(c, a, w);
      }
    }
  }

  // ---------- Majorities ----------

  /** A process acknowledges only what it has stored or outgrown. */
  lemma NewAckKept(c: Core, a: Action)
    requires Inv(c) && CanLex(c, a) && a.Adopt?
    ensures a.id in Do(c, a).chosen && AtMost(Do(c, a).chosen[a.id].tag, Do(c, a).stores[a.q].tag)
  {
  }

  lemma OldAckKept(c: Core, d: Core, m: Message)
    requires NetOk(c) && AcksKept(c) && Extends(c, d) && m in c.net && m.Ack?
    ensures m.src in d.stores && m.id in d.chosen && AtMost(d.chosen[m.id].tag, d.stores[m.src].tag)
  {
    assert MessageOk(c, m);
  }

  lemma NewAckIs(c: Core, a: Action, m: Message)
    requires Can(c, a) && m in Do(c, a).net && m !in c.net && m.Ack?
    ensures a.Adopt? && m.src == a.q && m.id == a.id
  {
  }

  lemma AcksStep(c: Core, a: Action)
    requires Inv(c) && CanLex(c, a)
    ensures AcksKept(Do(c, a))
  {
    var d := Do(c, a);
    ExtendsStep(c, a);
    assert NetOk(c) && AcksKept(c);
    hide Inv;
    hide NetOk;
    hide Extends;
    hide Do;
    hide Can;
    forall m | m in d.net && m.Ack? && m.src in d.stores && m.id in d.chosen
      ensures AtMost(d.chosen[m.id].tag, d.stores[m.src].tag)
    {
      if m in c.net {
        OldAckKept(c, d, m);
      } else {
        NewAckIs(c, a, m);
        NewAckKept(c, a);
      }
    }
  }

  lemma AckersHold(c: Core, id: OpId, acks: set<nat>, result: Result)
    requires Inv(c) && CanFinish(c, id, acks, result)
    ensures Majority(c.n, |Holders(c, c.chosen[id].tag)|)
  {
    var t := c.chosen[id].tag;
    forall q | q in acks ensures q in Holders(c, t) {
      assert MessageOk(c, Ack(q, c.ops[id].proc, id));
    }
    SubsetCount(acks, Holders(c, t));
  }

  lemma DurableStep(c: Core, a: Action)
    requires Inv(c) && CanLex(c, a)
    ensures Durable(Do(c, a))
  {
    var d := Do(c, a);
    ExtendsStep(c, a);
    forall o | Returned(d, o) ensures Majority(d.n, |Holders(d, d.chosen[o].tag)|) {
      if Returned(c, o) {
        HoldersGrow(c, d, c.chosen[o].tag);
      } else {
        AckersHold(c, a.id, a.acks, a.result);
        HoldersGrow(c, d, c.chosen[o].tag);
      }
    }
  }

  /** Nobody has reported to an operation that is only now invoked. */
  lemma NewOpFresh(c: Core, a: Action, t: Tag)
    requires Inv(c) && Can(c, a) && a.Begin?
    ensures Fresh(Do(c, a), a.id, t) == Holders(c, t)
  {
  }

  lemma FreshStep(c: Core, a: Action)
    requires Inv(c) && CanLex(c, a)
    ensures FreshQuorums(Do(c, a))
  {
    var d := Do(c, a);
    ExtendsStep(c, a);
    forall o, id | Precedes(d.ops, o, id) && o in d.chosen ensures Majority(d.n, |Fresh(d, id, d.chosen[o].tag)|) {
      assert o in c.ops;
      if id in c.ops {
        assert Precedes(c.ops, o, id);
        FreshGrows(c, d, id, c.chosen[o].tag);
      } else {
        assert Returned(c, o);
        NewOpFresh(c, a, c.chosen[o].tag);
      }
    }
  }

  /** Quorum intersection: the selected tag has reached that of every operation completed before the invocation. */
  lemma PickReaches(c: Core, a: Action, o: OpId)
    requires Inv(c) && CanLex(c, a) && a.Choose? && Precedes(c.ops, o, a.id)
    ensures o in c.chosen && AtMost(c.chosen[o].tag, a.pick.tag)
  {
    var t := c.chosen[o].tag;
    var holders := Fresh(c, a.id, t);
    forall q | q in a.list ensures q in c.stores {
      assert MessageOk(c, Value(q, c.ops[a.id].proc, a.id, a.list[q]));
    }
    var q := QuorumIntersection(c.n, holders, a.list.Keys);
    var m := Value(q, c.ops[a.id].proc, a.id, a.list[q]);
    assert m in c.net && !StaleReport(c, q, a.id, t);
    assert !Below(m.entry.tag, t);
    assert AtMost(t, c.stores[q].tag);
    assert q != c.ops[a.id].proc ==> AtMost(a.list[q].tag, a.pick.tag);
  }

  lemma ChosenOrdered(c: Core, a: Action, o: OpId)
    requires Inv(c) && CanLex(c, a) && a.Choose? && Precedes(c.ops, o, a.id)
    ensures o in c.chosen && TagOrdered(Do(c, a), o, a.id)
  {
    PickReaches(c, a, o);
  }

  lemma OrderStep(c: Core, a: Action)
    requires Inv(c) && CanLex(c, a)
    ensures RealTimeTags(Do(c, a))
  {
    var d := Do(c, a);
    ExtendsStep(c, a);
    forall o, id | Precedes(d.ops, o, id) && o in d.chosen && id in d.chosen ensures TagOrdered(d, o, id) {
      assert o in c.ops && id in c.ops;
      assert Precedes(c.ops, o, id);
      if id in c.chosen {
        assert TagOrdered(c, o, id);
      } else {
        ChosenOrdered(c, a, o);
      }
    }
  }

  lemma InvInit(n: nat)
    ensures Inv(CoreInit(n))
  {
  }

  /** The invariant survives every action whose selection is lexicographic. */
  lemma InvStep(c: Core, a: Action)
    requires Inv(c) && CanLex(c, a)
    ensures Inv(Do(c, a)) && Extends(c, Do(c, a))
  {
    BasicStep(c, a);
    ExtendsStep(c, a);
    AcksStep(c, a);
    GenuineStep(c, a);
    WritesStep(c, a);
    DistinctStep(c, a);
    DurableStep(c, a);
    FreshStep(c, a);
    OrderStep(c, a);
  }
}
