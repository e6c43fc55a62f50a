/**
 * The protocol without volatile memory: what is stored, what has been sent, and the operations.
 * The invariants that carry linearizability live here; `Refinement` shows that the full system,
 * with its phases, crashes and recoveries, only ever takes these actions.
 */
module QuorumCore {
  import opened Domain
  import opened Histories

  /** `chosen` records the entry each operation carries into its write phase; `writes` counts those of writes. */
  datatype Core = Core(
    n: nat,
    stores: map<nat, Entry>,
    net: set<Message>,
    ops: History,
    chosen: map<OpId, Entry>,
    writes: nat,
    clock: nat)

  datatype Action =
    | Begin(p: nat, id: OpId, rid: nat, cmd: Command)
    | Report(q: nat, p: nat, id: OpId)
    | Choose(id: OpId, list: map<nat, Entry>, pick: Entry, sent: bool)
    | Adopt(q: nat, p: nat, id: OpId, e: Entry, sent: bool)
    | Finish(id: OpId, acks: set<nat>, result: Result)
    | Skip

  function CoreInit(n: nat): Core {
    Core(n, map p | p in Idents(n) :: ZERO_ENTRY, {}, map[], map[], 0, 0)
  }

  ghost predicate CanBegin(c: Core, p: nat, id: OpId) {
    p in c.stores && id !in c.ops
  }

  ghost predicate CanReport(c: Core, q: nat, p: nat, id: OpId) {
    q in c.stores && ReadProc(p, id) in c.net
  }

  /** `list` is a majority of reports on `id`, and `pick` is one of them or the process's own entry. */
  ghost predicate CanChoose(c: Core, id: OpId, list: map<nat, Entry>, pick: Entry) {
    && id in c.ops && id !in c.chosen && c.ops[id].proc in c.stores
    && Majority(c.n, |list|)
    && (forall q :: q in list ==> Value(q, c.ops[id].proc, id, list[q]) in c.net)
    && (pick in list.Values || pick == c.stores[c.ops[id].proc])
  }

  /**
   * `pick` is the lexicographically highest of the process's own entry and the other reports; the own
   * entry replaces whatever the process had reported to itself.
   */
  ghost predicate PicksHighest(c: Core, id: OpId, list: map<nat, Entry>, pick: Entry)
    requires id in c.ops && c.ops[id].proc in c.stores
  {
    && AtMost(c.stores[c.ops[id].proc].tag, pick.tag)
    && forall q :: q in list && q != c.ops[id].proc ==> AtMost(list[q].tag, pick.tag)
  }

  ghost predicate CanAdopt(c: Core, q: nat, p: nat, id: OpId, e: Entry) {
    q in c.stores && WriteProc(p, id, e) in c.net
  }

  ghost predicate CanFinish(c: Core, id: OpId, acks: set<nat>, result: Result) {
    && id in c.ops && id in c.chosen && c.ops[id].ret.None?
    && Majority(c.n, |acks|)
    && (forall q :: q in acks ==> Ack(q, c.ops[id].proc, id) in c.net)
    && result == ResultOf(c, id)
  }

  function ResultOf(c: Core, id: OpId): Result
    requires id in c.ops && id in c.chosen
  {
    if c.ops[id].cmd.Read? then ReadReturn(c.chosen[id].val) else WriteReturn
  }

  ghost predicate Can(c: Core, a: Action) {
    match a
    case Begin(p, id, _, _) => CanBegin(c, p, id)
    case Report(q, p, id) => CanReport(c, q, p, id)
    case Choose(id, list, pick, _) => CanChoose(c, id, list, pick)
    case Adopt(q, p, id, e, _) => CanAdopt(c, q, p, id, e)
    case Finish(id, acks, result) => CanFinish(c, id, acks, result)
    case Skip => true
  }

  /** Actions allowed when `Highest` is lexicographic. */
  ghost predicate CanLex(c: Core, a: Action) {
    Can(c, a) && (a.Choose? ==> PicksHighest(c, a.id, a.list, a.pick))
  }

  function DoBegin(c: Core, p: nat, id: OpId, rid: nat, cmd: Command): Core {
    c.(ops := c.ops[id := OpRecord(p, rid, cmd, c.clock, None)], net := c.net + {ReadProc(p, id)},
       clock := c.clock + 1)
  }

  function DoReport(c: Core, q: nat, p: nat, id: OpId): Core
    requires q in c.stores
  {
    c.(net := c.net + {Value(q, p, id, c.stores[q])}, clock := c.clock + 1)
  }

  function DoChoose(c: Core, id: OpId, pick: Entry, sent: bool): Core
    requires id in c.ops
  {
    var p := c.ops[id].proc;
    var out := Taken(p, c.ops[id].cmd, pick);
    var isWrite := c.ops[id].cmd.Write?;
    c.(chosen := c.chosen[id := out],
       stores := if isWrite then c.stores[p := out] else c.stores,
       writes := if isWrite then c.writes + 1 else c.writes,
       net := if sent then c.net + {WriteProc(p, id, out)} else c.net,
       clock := c.clock + 1)
  }

  function DoAdopt(c: Core, q: nat, p: nat, id: OpId, e: Entry, sent: bool): Core
    requires q in c.stores
  {
    c.(stores := if Below(c.stores[q].tag, e.tag) then c.stores[q := e] else c.stores,
       net := if sent then c.net + {Ack(q, p, id)} else c.net,
       clock := c.clock + 1)
  }

  function DoFinish(c: Core, id: OpId, result: Result): Core
    requires id in c.ops
  {
    c.(ops := c.ops[id := c.ops[id].(ret := Some(Return(c.clock, result)))], clock := c.clock + 1)
  }

  ghost function Do(c: Core, a: Action): Core
    requires Can(c, a)
  {
    match a
    case Begin(p, id, rid, cmd) => DoBegin(c, p, id, rid, cmd)
    case Report(q, p, id) => DoReport(c, q, p, id)
    case Choose(id, list, pick, sent) => DoChoose(c, id, pick, sent)
    case Adopt(q, p, id, e, sent) => DoAdopt(c, q, p, id, e, sent)
    case Finish(id, acks, result) => DoFinish(c, id, result)
    case Skip => c.(clock := c.clock + 1)
  }

  // ---------- The invariant ----------

  /** Every entry in circulation is the initial one or was carried by a write of the same data. */
  ghost predicate Genuine(c: Core, e: Entry) {
    e == ZERO_ENTRY || exists w :: w in c.chosen && w in c.ops && c.ops[w].cmd == Write(e.val) && c.chosen[w] == e
  }

  /** The processes whose stored tag has reached `t`. */
  ghost function Holders(c: Core, t: Tag): set<nat> {
    set q | q in c.stores && AtMost(t, c.stores[q].tag)
  }

  /** A report by `q` on operation `id` with a tag below `t`. */
  ghost predicate StaleReport(c: Core, q: nat, id: OpId, t: Tag) {
    exists m :: m in c.net && m.Value? && m.src == q && m.id == id && Below(m.entry.tag, t)
  }

  /** The processes that hold `t` and have never reported less than `t` to operation `id`. */
  ghost function Fresh(c: Core, id: OpId, t: Tag): set<nat> {
    set q | q in Holders(c, t) && !StaleReport(c, q, id, t)
  }

  ghost predicate Shape(c: Core) {
    && c.stores.Keys == Idents(c.n)
    && (forall id :: id in c.chosen ==> id in c.ops)
    && (forall id :: id in c.ops ==> c.ops[id].proc in c.stores && c.ops[id].inv < c.clock)
    && (forall id :: id in c.ops && c.ops[id].ret.Some? ==>
          id in c.chosen && c.ops[id].inv < c.ops[id].ret.value.at < c.clock && c.ops[id].ret.value.result == ResultOf(c, id))
  }

  ghost predicate MessageOk(c: Core, m: Message) {
    && m.id in c.ops && m.src in c.stores
    && match m
       case ReadProc(src, id) => src == c.ops[id].proc
       case Value(_, dst, id, e) => dst == c.ops[id].proc
       case WriteProc(src, id, e) => src == c.ops[id].proc && id in c.chosen && c.chosen[id] == e
       case Ack(src, dst, id) =>
         dst == c.ops[id].proc && id in c.chosen
  }

  ghost predicate NetOk(c: Core) {
    forall m :: m in c.net ==> MessageOk(c, m)
  }

  /** An acknowledgement is a promise kept for ever: the sender's stored tag never falls below it. */
  ghost predicate AcksKept(c: Core) {
    forall m :: m in c.net && m.Ack? && m.src in c.stores && m.id in c.chosen ==>
      AtMost(c.chosen[m.id].tag, c.stores[m.src].tag)
  }

  ghost predicate AllGenuine(c: Core) {
    && (forall q :: q in c.stores ==> Genuine(c, c.stores[q]))
    && (forall m :: m in c.net && m.Value? ==> Genuine(c, m.entry))
    && (forall id :: id in c.chosen ==> Genuine(c, c.chosen[id]))
  }

  ghost predicate IsWrite(c: Core, w: OpId) {
    w in c.chosen && w in c.ops && c.ops[w].cmd.Write?
  }

  ghost predicate WriteOk(c: Core, w: OpId)
    requires IsWrite(c, w)
  {
    var p, e := c.ops[w].proc, c.chosen[w];
    && e.tag.wr == p && e.tag.ts > 0 && e.val == c.ops[w].cmd.data
    && p in c.stores && AtMost(e.tag, c.stores[p].tag)
  }

  /** A write's tag names its process, and that process's stored tag has reached it. */
  ghost predicate WritesOk(c: Core) {
    forall w :: IsWrite(c, w) ==> WriteOk(c, w)
  }

  ghost predicate WriteTagsDistinct(c: Core) {
    forall v, w :: IsWrite(c, v) && IsWrite(c, w) && c.chosen[v].tag == c.chosen[w].tag ==> v == w
  }

  ghost predicate Returned(c: Core, o: OpId) {
    o in c.ops && o in c.chosen && c.ops[o].ret.Some?
  }

  /** A majority durably holds the tag of every completed operation. */
  ghost predicate Durable(c: Core) {
    forall o :: Returned(c, o) ==> Majority(c.n, |Holders(c, c.chosen[o].tag)|)
  }

  /** A majority can only report, to a later operation, tags that have reached an earlier completed one. */
  ghost predicate FreshQuorums(c: Core) {
    forall o, id :: Precedes(c.ops, o, id) && o in c.chosen ==> Majority(c.n, |Fresh(c, id, c.chosen[o].tag)|)
  }

  ghost predicate TagOrdered(c: Core, o: OpId, id: OpId)
    requires id in c.ops && o in c.chosen && id in c.chosen
  {
    && AtMost(c.chosen[o].tag, c.chosen[id].tag)
    && (c.ops[id].cmd.Write? ==> Below(c.chosen[o].tag, c.chosen[id].tag))
  }

  ghost predicate RealTimeTags(c: Core) {
    forall o, id :: Precedes(c.ops, o, id) && o in c.chosen && id in c.chosen ==> TagOrdered(c, o, id)
  }

  /** What holds whichever entry `Highest` returns. */
  ghost predicate BasicInv(c: Core) {
    Shape(c) && NetOk(c)
  }

  ghost predicate Inv(c: Core) {
    && BasicInv(c) && AcksKept(c) && AllGenuine(c) && WritesOk(c) && WriteTagsDistinct(c)
    && Durable(c) && FreshQuorums(c) && RealTimeTags(c)
  }
}
