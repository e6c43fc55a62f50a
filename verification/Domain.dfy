/** Values shared by every component: sectors, tags, commands and operation records. */
module Domain {

  datatype Option<+T> = None | Some(value: T)

  type Byte = b: int | 0 <= b < 256

  /** The contents of one sector. */
  type Data = seq<Byte>

  const SECTOR_SIZE := 4096

  /** What a sector holds before the first write. */
  function ZeroSector(): (z: Data)
    ensures |z| == SECTOR_SIZE
    ensures forall i :: 0 <= i < |z| ==> z[i] == 0
  {
    seq(SECTOR_SIZE, (_: nat) => 0 as Byte)
  }

  /** A logical timestamp with the rank of the process that issued it. */
  datatype Tag = Tag(ts: nat, wr: nat)

  const ZERO_TAG := Tag(0, 0)

  /** The lexicographic order on (timestamp, write rank). */
  predicate Below(a: Tag, b: Tag) {
    a.ts < b.ts || (a.ts == b.ts && a.wr < b.wr)
  }

  predicate AtMost(a: Tag, b: Tag) {
    !Below(b, a)
  }

  /** A tagged sector: what is stored, reported and written. */
  datatype Entry = Entry(tag: Tag, val: Data)

  const ZERO_ENTRY := Entry(ZERO_TAG, ZeroSector())

  /** Identifier of one client operation; the implementation draws a fresh UUID. */
  type OpId = nat

  datatype Command = Read | Write(data: Data)

  datatype Result = ReadReturn(data: Data) | WriteReturn

  datatype Return = Return(at: nat, result: Result)

  /** One client operation: `inv` and `ret.at` are positions in the run. */
  datatype OpRecord = OpRecord(proc: nat, rid: nat, cmd: Command, inv: nat, ret: Option<Return>)

  /** The history of one sector. */
  type History = map<OpId, OpRecord>

  /** The entry an operation of process `p` carries into its write phase when `Highest` returned `pick`. */
  function Taken(p: nat, cmd: Command, pick: Entry): Entry {
    match cmd
    case Read => pick
    case Write(data) => Entry(Tag(pick.tag.ts + 1, p), data)
  }

  /** Messages between processes. READ_PROC and WRITE_PROC are broadcast, the other two are addressed. */
  datatype Message =
    | ReadProc(src: nat, id: OpId)
    | Value(src: nat, dst: nat, id: OpId, entry: Entry)
    | WriteProc(src: nat, id: OpId, entry: Entry)
    | Ack(src: nat, dst: nat, id: OpId)

  /** More than half of `n` processes; `k > n / 2` in the integer arithmetic of the source. */
  predicate Majority(n: nat, k: nat) {
    k > n / 2
  }

  /** Process identifiers start at 1. */
  function Idents(n: nat): (s: set<nat>)
    ensures forall i: nat :: i in s <==> 1 <= i <= n
    ensures |s| == n
  {
    if n == 0 then {} else Idents(n - 1) + {n}
  }

  lemma SubsetCount<T>(a: set<T>, b: set<T>)
    requires a <= b
    ensures |a| <= |b|
  {
    assert b == a + (b - a);
  }

  /** Any two majorities of the same processes share a member. */
  lemma QuorumIntersection(n: nat, a: set<nat>, b: set<nat>) returns (q: nat)
    requires a <= Idents(n) && b <= Idents(n)
    requires Majority(n, |a|) && Majority(n, |b|)
    ensures q in a && q in b
  {
    SubsetCount(a + b, Idents(n));
    assert |a + b| == |a| + |b| - |a * b|;
    assert a * b != {};
    q :| q in a * b;
  }
}
