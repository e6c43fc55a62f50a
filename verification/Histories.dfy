/** What a client may observe: the sequential register, and linearizability of a history. */
module Histories {
  import opened Domain

  /** Real-time order: `o` had returned when `id` was invoked. */
  predicate Precedes(h: History, o: OpId, id: OpId) {
    o in h && id in h && h[o].ret.Some? && h[o].ret.value.at < h[id].inv
  }

  /** The contents of a sequential register after the operations of `order`. */
  function Contents(h: History, order: seq<OpId>): Data
    requires forall i :: 0 <= i < |order| ==> order[i] in h
  {
    if order == [] then ZeroSector()
    else
      var last := |order| - 1;
      if h[order[last]].cmd.Write? then h[order[last]].cmd.data else Contents(h, order[..last])
  }

  /** What a sequential register answers to the operation at position `i`. */
  function Answer(h: History, order: seq<OpId>, i: nat): Result
    requires i < |order|
    requires forall j :: 0 <= j < |order| ==> order[j] in h
  {
    if h[order[i]].cmd.Read? then ReadReturn(Contents(h, order[..i])) else WriteReturn
  }

  /**
   * `order` puts every completed operation, and any of the unfinished ones, on a single timeline that
   * respects real time and on which every answer is the one a sequential register gives.
   */
  ghost predicate Linearization(h: History, order: seq<OpId>) {
    && (forall i, j :: 0 <= i < j < |order| ==> order[i] != order[j])
    && (forall i :: 0 <= i < |order| ==> order[i] in h)
    && (forall id :: id in h && h[id].ret.Some? ==> id in order)
    && (forall i, j :: 0 <= i < j < |order| ==> !Precedes(h, order[j], order[i]))
    && (forall i :: 0 <= i < |order| && h[order[i]].ret.Some? ==> h[order[i]].ret.value.result == Answer(h, order, i))
  }

  ghost predicate Linearizable(h: History) {
    exists order :: Linearization(h, order)
  }

  lemma {:induction false} ContentsWithoutWrites(h: History, order: seq<OpId>)
    requires forall i :: 0 <= i < |order| ==> order[i] in h && h[order[i]].cmd.Read?
    ensures Contents(h, order) == ZeroSector()
  {
    if order != [] {
      ContentsWithoutWrites(h, order[..|order| - 1]);
    }
  }

  /** The contents are those of the last write. */
  lemma {:induction false} ContentsOfLastWrite(h: History, order: seq<OpId>, k: nat)
    requires k < |order|
    requires forall i :: 0 <= i < |order| ==> order[i] in h
    requires h[order[k]].cmd.Write?
    requires forall i :: k < i < |order| ==> h[order[i]].cmd.Read?
    ensures Contents(h, order) == h[order[k]].cmd.data
  {
    if k < |order| - 1 {
      ContentsOfLastWrite(h, order[..|order| - 1], k);
    }
  }

  /** A register that holds anything but the zero sector holds the data of its last write. */
  lemma {:induction false} LastWriteOf(h: History, order: seq<OpId>) returns (k: nat)
    requires forall i :: 0 <= i < |order| ==> order[i] in h
    requires Contents(h, order) != ZeroSector()
    ensures k < |order| && h[order[k]].cmd == Write(Contents(h, order))
    ensures forall i :: k < i < |order| ==> h[order[i]].cmd.Read?
  {
    var last := |order| - 1;
    if h[order[last]].cmd.Write? {
      k := last;
    } else {
      k := LastWriteOf(h, order[..last]);
    }
  }
}
