/** From the invariant to linearizability: operations are put in the order of their tags. */
module Timeline {
  import opened Domain
  import opened Histories
  import opened QuorumCore

  /** The timeline: by tag, a write before the reads that return it, reads by invocation. */
  ghost predicate Before(c: Core, a: OpId, b: OpId)
    requires a in c.chosen && b in c.chosen && a in c.ops && b in c.ops
  {
    var s, t := c.chosen[a].tag, c.chosen[b].tag;
    || Below(s, t)
    || (s == t && c.ops[a].cmd.Write? && c.ops[b].cmd.Read?)
    || (s == t && c.ops[a].cmd.Write? == c.ops[b].cmd.Write? && c.ops[a].inv < c.ops[b].inv)
  }

  lemma {:induction false} First(c: Core, ids: set<OpId>) returns (m: OpId)
    requires Shape(c) && ids != {} && ids <= c.chosen.Keys
    ensures m in ids && forall y :: y in ids ==> !Before(c, y, m)
    decreases |ids|
  {
    m :| m in ids;
    var rest := ids - {m};
    if rest != {} {
      var m' := First(c, rest);
      if Before(c, m, m') {
        assert forall y :: y in rest && Before(c, y, m) ==> Before(c, y, m');
      } else {
        m := m';
      }
    }
  }

  ghost predicate Sorted(c: Core, order: seq<OpId>)
    requires Shape(c)
  {
    && (forall i :: 0 <= i < |order| ==> order[i] in c.chosen)
    && (forall i, j :: 0 <= i < j < |order| ==> order[i] != order[j])
    && (forall i, j :: 0 <= i < j < |order| ==> !Before(c, order[j], order[i]))
  }

  lemma {:induction false} Sort(c: Core, ids: set<OpId>) returns (order: seq<OpId>)
    requires Shape(c) && ids <= c.chosen.Keys
    ensures Sorted(c, order)
    ensures forall id :: id in ids <==> id in order
    decreases |ids|
  {
    if ids == {} {
      order := [];
    } else {
      var m := First(c, ids);
      var rest := Sort(c, ids - {m});
      assert forall i :: 0 <= i < |rest| ==> rest[i] in rest;
      order := [m] + rest;
    }
  }

  /** No operation is placed before one that had returned when it was invoked. */
  lemma RespectsRealTime(c: Core, order: seq<OpId>, i: nat, j: nat)
    requires Inv(c) && Sorted(c, order) && i < j < |order|
    ensures !Precedes(c.ops, order[j], order[i])
  {
    var o, id := order[j], order[i];
    assert Precedes(c.ops, o, id) ==> TagOrdered(c, o, id);
    assert !Before(c, o, id);
  }

  lemma NoWriteBeforeZero(c: Core, order: seq<OpId>, i: nat, j: nat)
    requires Inv(c) && Sorted(c, order) && j < i < |order| && c.chosen[order[i]] == ZERO_ENTRY
    ensures c.ops[order[j]].cmd.Read?
  {
    assert !Before(c, order[i], order[j]);
    assert !IsWrite(c, order[j]);
  }

  /** Between a write and a read of the same tag there is no other write. */
  lemma NoWriteBetween(c: Core, order: seq<OpId>, k: nat, i: nat, j: nat)
    requires Inv(c) && Sorted(c, order) && k < j < i < |order|
    requires c.ops[order[k]].cmd.Write? && c.chosen[order[k]].tag == c.chosen[order[i]].tag
    ensures c.ops[order[j]].cmd.Read?
  {
  }

  lemma ReadsZero(c: Core, order: seq<OpId>, i: nat)
    requires Inv(c) && Sorted(c, order) && i < |order| && c.chosen[order[i]] == ZERO_ENTRY
    ensures Contents(c.ops, order[..i]) == ZeroSector()
  {
    forall j | 0 <= j < i ensures c.ops[order[j]].cmd.Read? {
      NoWriteBeforeZero(c, order, i, j);
    }
    ContentsWithoutWrites(c.ops, order[..i]);
  }

  lemma ReadsWrite(c: Core, order: seq<OpId>, k: nat, i: nat)
    requires Inv(c) && Sorted(c, order) && k < i < |order|
    requires c.ops[order[k]].cmd.Write? && c.chosen[order[k]].tag == c.chosen[order[i]].tag
    ensures Contents(c.ops, order[..i]) == c.ops[order[k]].cmd.data
  {
    forall j | k < j < i ensures c.ops[order[j]].cmd.Read? {
      NoWriteBetween(c, order, k, i, j);
    }
    ContentsOfLastWrite(c.ops, order[..i], k);
  }

  /** A read at position `i` carries what the register holds there. */
  lemma ReadsLatest(c: Core, order: seq<OpId>, i: nat)
    requires Inv(c) && Sorted(c, order) && i < |order|
    requires forall id :: id in c.chosen ==> id in order
    requires c.ops[order[i]].cmd.Read?
    ensures Contents(c.ops, order[..i]) == c.chosen[order[i]].val
  {
    var e := c.chosen[order[i]];
    if e == ZERO_ENTRY {
      ReadsZero(c, order, i);
    } else {
      var w := WriterOf(c, order[i]);
      var k :| 0 <= k < |order| && order[k] == w;
      hide Inv;
      assert Before(c, order[k], order[i]);
      ReadsWrite(c, order, k, i);
    }
  }

  lemma WriterOf(c: Core, id: OpId) returns (w: OpId)
    requires Inv(c) && id in c.chosen && c.chosen[id] != ZERO_ENTRY
    ensures w in c.chosen && w in c.ops && c.ops[w].cmd == Write(c.chosen[id].val) && c.chosen[w] == c.chosen[id]
  {
    assert Genuine(c, c.chosen[id]);
    w :| w in c.chosen && w in c.ops && c.ops[w].cmd == Write(c.chosen[id].val) && c.chosen[w] == c.chosen[id];
  }

  /** A history whose state satisfies the invariant is linearizable. */
  lemma InvLinearizable(c: Core)
    requires Inv(c)
    ensures Linearizable(c.ops)
  {
    var order := Sort(c, c.chosen.Keys);
    forall i, j | 0 <= i < j < |order| ensures !Precedes(c.ops, order[j], order[i]) {
      RespectsRealTime(c, order, i, j);
    }
    forall i | 0 <= i < |order| && c.ops[order[i]].ret.Some?
      ensures c.ops[order[i]].ret.value.result == Answer(c.ops, order, i)
    {
      if c.ops[order[i]].cmd.Read? {
        ReadsLatest(c, order, i);
      }
    }
    assert Linearization(c.ops, order);
  }
}
