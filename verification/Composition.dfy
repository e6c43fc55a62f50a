/**
 * The register on top of the real store: processes keep a directory of files and an index instead of a stored
 * entry. File operations of different sectors interleave, and a crash may come between any two of them.
 */
module Composition {
  import opened Domain
  import opened Histories
  import opened FileNames
  import opened SectorStore
  import opened SectorWrites
  import opened Register
  import opened Cluster
  import opened Refinement
  import opened Safety
  import opened AnySelection

  /** The register waits for the store to take `e`, which message `m` made it write; `k` file operations are done. */
  datatype Call = Call(m: Message, pick: Entry, e: Entry, k: nat)

  /** A process with its disc. The directory is shared by all sectors; `mem` and `call` belong to one of them. */
  datatype Node = Node(up: bool, dir: Dir, index: map<nat, Tag>, mem: Local, call: Option<Call>)

  datatype Machine = Machine(n: nat, nodes: map<nat, Node>, net: set<Message>, ops: History, clock: nat)

  /**
   * A handler that stores is a `Handle`, four `FileOp`s and a `Back`. `Elsewhere` is any change to the files of
   * other sectors. `Restart` and `RestartCut` are what recovery and a crash during recovery leave behind.
   */
  datatype Event =
    | Ask(p: nat, id: OpId, rid: nat, cmd: Command)
    | Handle(p: nat, m: Message, pick: Entry)
    | FileOp(p: nat, junk: Data)
    | Back(p: nat)
    | Elsewhere(p: nat, dir: Dir, index: map<nat, Tag>)
    | Stop(p: nat)
    | Restart(p: nat, dir: Dir, index: map<nat, Tag>)
    | RestartCut(p: nat, dir: Dir)

  function FreshNode(): Node {
    Node(true, map[], map[], Recovered(ZERO_ENTRY), None)
  }

  function FreshMachine(n: nat): Machine {
    Machine(n, map p | p in Idents(n) :: FreshNode(), {}, map[], 0)
  }

  ghost predicate Picks(policy: Policy, n: nat, p: nat, l: Local, m: Message, pick: Entry) {
    m.Value? && Closes(n, l, m.src, m.id, m.entry) ==> Selects(policy, Candidates(p, l, m.src, m.entry), pick)
  }

  ghost predicate SameAt(index: map<nat, Tag>, index1: map<nat, Tag>, sector: nat) {
    (sector in index1 <==> sector in index) && (sector in index ==> index1[sector] == index[sector])
  }

  ghost predicate Possible(policy: Policy, c: Machine, sector: nat, ev: Event) {
    ev.p in c.nodes &&
    var node := c.nodes[ev.p];
    match ev
    case Ask(_, id, _, _) => node.up && node.call.None? && Idle(node.mem) && id !in c.ops
    case Handle(p, m, pick) =>
      node.up && node.call.None? && m in c.net && Addressed(p, m) && Picks(policy, c.n, p, node.mem, m, pick)
    case FileOp(_, _) => node.up && node.call.Some? && node.call.value.k < 4
    case Back(_) => node.up && node.call.Some? && node.call.value.k == 4
    case Elsewhere(_, dir, index) => node.up && Sane(dir) && Spares(node.dir, dir, sector) && SameAt(node.index, index, sector)
    case Stop(_) => node.up
    case Restart(_, dir, index) => !node.up && IndexOf(node.dir, index) && Trimmed(node.dir, dir) && Settled(dir, index)
    case RestartCut(_, dir) => !node.up && Trimmed(node.dir, dir)
  }

  /** The handler runs to its end: memory, messages and history change. */
  function Ran(c: Machine, p: nat, m: Message, pick: Entry): Machine
    requires p in c.nodes
  {
    var node := c.nodes[p].(call := None);
    match OnMessage(c.n, p, node.mem, m, pick)
    case Halt => c.(nodes := c.nodes[p := node.(up := false)], clock := c.clock + 1)
    case Done(e) =>
      c.(nodes := c.nodes[p := node.(mem := e.mem)], net := c.net + e.sent,
         ops := OpsAfter(c.ops, c.clock, e), clock := c.clock + 1)
  }

  function Operated(node: Node, sector: nat, junk: Data): Node
    requires node.call.Some?
  {
    var call := node.call.value;
    var k := call.k + 1;
    node.(dir := Operation(k, node.dir, sector, call.e, junk, OldTag(node.index, sector)),
          index := if k == 4 then node.index[sector := call.e.tag] else node.index,
          call := Some(call.(k := k)))
  }

  function Follow(c: Machine, sector: nat, ev: Event): Machine {
    if ev.p !in c.nodes then c
    else
      var p, node := ev.p, c.nodes[ev.p];
      match ev
      case Ask(_, id, rid, cmd) =>
        var e := OnClient(p, node.mem, id, rid, cmd);
        c.(nodes := c.nodes[p := node.(mem := e.mem)], net := c.net + e.sent,
           ops := c.ops[id := OpRecord(p, rid, cmd, c.clock, None)], clock := c.clock + 1)
      case Handle(_, m, pick) =>
        (match ToStore(c.n, p, node.mem, m, pick)
         case Some(e) => c.(nodes := c.nodes[p := node.(call := Some(Call(m, pick, e, 0)))])
         case None => Ran(c, p, m, pick))
      case FileOp(_, junk) => if node.call.None? then c else c.(nodes := c.nodes[p := Operated(node, sector, junk)])
      case Back(_) => if node.call.None? then c else Ran(c, p, node.call.value.m, node.call.value.pick)
      case Elsewhere(_, dir, index) => c.(nodes := c.nodes[p := node.(dir := dir, index := index)])
      case Stop(_) => c.(nodes := c.nodes[p := node.(up := false, call := None)], clock := c.clock + 1)
      case Restart(_, dir, index) =>
        if sector in index && FinalName(sector, index[sector]) !in dir then c
        else
          var mem := Recovered(Live(dir, index, sector));
          c.(nodes := c.nodes[p := Node(true, dir, index, mem, None)], clock := c.clock + 1)
      case RestartCut(_, dir) => c.(nodes := c.nodes[p := node.(dir := dir)])
  }

  function Reached(n: nat, sector: nat, evs: seq<Event>): Machine {
    if evs == [] then FreshMachine(n) else Follow(Reached(n, sector, evs[..|evs| - 1]), sector, evs[|evs| - 1])
  }

  ghost predicate Happens(policy: Policy, n: nat, sector: nat, evs: seq<Event>) {
    evs == [] ||
    (Happens(policy, n, sector, evs[..|evs| - 1]) &&
     Possible(policy, Reached(n, sector, evs[..|evs| - 1]), sector, evs[|evs| - 1]))
  }

  /** What the register is about to store has a tag above the indexed one. */
  predicate Rises(c: Machine, sector: nat, ev: Event) {
    ev.Handle? && ev.p in c.nodes && ToStore(c.n, ev.p, c.nodes[ev.p].mem, ev.m, ev.pick).Some? ==>
      Below(OldTag(c.nodes[ev.p].index, sector), ToStore(c.n, ev.p, c.nodes[ev.p].mem, ev.m, ev.pick).value.tag)
  }

  ghost predicate AllRise(n: nat, sector: nat, evs: seq<Event>) {
    evs == [] ||
    (AllRise(n, sector, evs[..|evs| - 1]) && Rises(Reached(n, sector, evs[..|evs| - 1]), sector, evs[|evs| - 1]))
  }

  // ---------- The disc stands for the stored entry ----------

  /** The disc of a register that waits for the store to replace `store`. */
  ghost predicate MidWrite(node: Node, sector: nat, store: Entry, call: Call) {
    var tmp := TmpName(sector, call.e.tag);
    && call.k <= 4 && InRange(sector, call.e.tag) && Below(store.tag, call.e.tag)
    && (call.k <= 2 ==> SettledAt(node.dir, node.index, sector) && Live(node.dir, node.index, sector) == store)
    && (call.k == 2 ==> tmp in node.dir && node.dir[tmp] == call.e.val)
    && (call.k == 3 ==> OldTag(node.index, sector) == store.tag && Superseded(node.dir, sector, call.e, store.tag))
    && (call.k == 4 ==> SettledAt(node.dir, node.index, sector) && Live(node.dir, node.index, sector) == call.e)
  }

  /** The handler that made the call may still run to its end. */
  ghost predicate CallOk(policy: Policy, c: Machine, p: nat, l: Local, call: Call) {
    && call.m in c.net && Addressed(p, call.m) && Picks(policy, c.n, p, l, call.m, call.pick)
    && ToStore(c.n, p, l, call.m, call.pick) == Some(call.e)
  }

  ghost predicate DiscOk(node: Node, sector: nat, pr: Proc) {
    && node.up == pr.up && Sane(node.dir)
    && if !node.up then Shows(node.dir, sector, pr.store)
       else if node.call.Some? then MidWrite(node, sector, pr.store, node.call.value)
       else SettledAt(node.dir, node.index, sector) && Live(node.dir, node.index, sector) == pr.store
  }

  ghost predicate NodeOk(policy: Policy, c: Machine, p: nat, sector: nat, pr: Proc)
    requires p in c.nodes
  {
    var node := c.nodes[p];
    && DiscOk(node, sector, pr)
    && (node.up ==> node.mem == pr.mem && (node.call.Some? ==> CallOk(policy, c, p, node.mem, node.call.value)))
  }

  ghost predicate SameShared(c: Machine, s: System) {
    c.n == s.n && c.net == s.net && c.ops == s.ops && c.clock == s.clock && c.nodes.Keys == s.procs.Keys
  }

  ghost predicate Related(policy: Policy, c: Machine, s: System, sector: nat) {
    SameShared(c, s) && forall p :: p in c.nodes ==> NodeOk(policy, c, p, sector, s.procs[p])
  }

  /** At any moment of a write a crash leaves the old sector before the rename and the new one from it on. */
  lemma MidWriteShows(node: Node, sector: nat, store: Entry, call: Call)
    requires MidWrite(node, sector, store, call)
    ensures Shows(node.dir, sector, if call.k < 3 then store else call.e)
  {
    hide FinalName;
    hide TmpName;
    if call.k == 3 {
      SupersededShows(node.dir, sector, call.e, store.tag);
    } else {
      SettledAtShows(node.dir, node.index, sector);
    }
  }

  lemma OperatedOk(node: Node, sector: nat, store: Entry, junk: Data)
    requires node.call.Some? && node.call.value.k < 4 && Sane(node.dir) && MidWrite(node, sector, store, node.call.value)
    ensures var node1 := Operated(node, sector, junk);
            Sane(node1.dir) && MidWrite(node1, sector, store, node1.call.value)
  {
    hide FinalName;
    hide TmpName;
    hide Superseded;
    hide SettledAt;
    var call := node.call.value;
    if call.k < 2 {
      TmpOperation(call.k + 1, node.dir, node.index, sector, call.e, junk);
    } else if call.k == 2 {
      LiveTag(node.dir, node.index, sector);
      RenameOperation(node.dir, node.index, sector, call.e, junk);
    } else {
      RemoveOperation(node.dir, node.index, sector, call.e, junk);
    }
  }

  lemma LiveTag(dir: Dir, index: map<nat, Tag>, sector: nat)
    requires SettledAt(dir, index, sector)
    ensures Live(dir, index, sector).tag == OldTag(index, sector)
  {
  }

  lemma SparedOk(node: Node, sector: nat, pr: Proc, dir: Dir, index: map<nat, Tag>)
    requires node.up && DiscOk(node, sector, pr)
    requires Sane(dir) && Spares(node.dir, dir, sector) && SameAt(node.index, index, sector)
    ensures DiscOk(node.(dir := dir, index := index), sector, pr)
  {
    hide FinalName;
    hide TmpName;
    hide Superseded;
    hide SettledAt;
    hide Sane;
    hide Spares;
    if node.call.Some? {
      SparedStays(node.dir, dir, node.index, index, sector, node.call.value.e);
    } else {
      SparedSettled(node.dir, dir, node.index, index, sector);
    }
  }

  lemma SparedSettled(d: Dir, d1: Dir, index: map<nat, Tag>, index1: map<nat, Tag>, sector: nat)
    requires Spares(d, d1, sector) && SameAt(index, index1, sector) && SettledAt(d, index, sector)
    ensures SettledAt(d1, index1, sector) && Live(d1, index1, sector) == Live(d, index, sector)
  {
    hide FinalName;
    hide TmpName;
    hide KindOf;
    if sector in index {
      FinalNameRoundTrip(sector, index[sector]);
      assert OfSector(FinalName(sector, index[sector]), sector);
    }
    forall name | Holds(d1, sector, name) ensures Holds(d, sector, name) {
      assert OfSector(name, sector);
    }
  }

  /** Recovery reads back the entry the directory showed. */
  lemma RestartReads(found: Dir, sector: nat, e: Entry, dir: Dir, index: map<nat, Tag>)
    requires Sane(found) && Shows(found, sector, e) && Trimmed(found, dir) && Settled(dir, index)
    ensures Sane(dir) && SettledAt(dir, index, sector) && Live(dir, index, sector) == e
  {
    hide FinalName;
    hide KindOf;
    TrimmedShows(found, dir, sector, e);
    SettledShows(dir, index, sector);
    SettledEach(dir, index, sector);
    ShowsUnique(dir, sector, Live(dir, index, sector), e);
  }

  lemma TrimmedSane(found: Dir, dir: Dir, sector: nat, e: Entry)
    requires Sane(found) && Shows(found, sector, e) && Trimmed(found, dir)
    ensures Sane(dir) && Shows(dir, sector, e)
  {
    TrimmedShows(found, dir, sector, e);
  }

  // ---------- Every event is a step of the cluster, or none ----------

  /** The steps of the cluster that match an event. */
  function Matching(c: Machine, ev: Event): seq<Step>
    requires ev.p in c.nodes
  {
    var node := c.nodes[ev.p];
    match ev
    case Ask(p, id, rid, cmd) => [Invoke(p, id, rid, cmd)]
    case Handle(p, m, pick) => if ToStore(c.n, p, node.mem, m, pick).Some? then [] else [Deliver(p, m, pick, false)]
    case FileOp(_, _) => []
    case Back(p) => if node.call.None? then [] else [Deliver(p, node.call.value.m, node.call.value.pick, false)]
    case Elsewhere(_, _, _) => []
    case Stop(p) =>
      if node.call.Some? && node.call.value.k >= 3
      then [Deliver(p, node.call.value.m, node.call.value.pick, true)] else [Crash(p)]
    case Restart(p, _, _) => [Recover(p)]
    case RestartCut(_, _) => []
  }

  lemma StepPossible(policy: Policy, c: Machine, s: System, sector: nat, ev: Event)
    requires Related(policy, c, s, sector) && Possible(policy, c, sector, ev) && Matching(c, ev) != []
    ensures Enabled(policy, s, Matching(c, ev)[0])
  {
    hide OnMessage;
    hide Selects;
    hide Closes;
    hide DiscOk;
    hide Settled;
    hide Sane;
    hide IndexOf;
    hide Trimmed;
    hide Spares;
    assert NodeOk(policy, c, ev.p, sector, s.procs[ev.p]);
    assert c.nodes[ev.p].up == s.procs[ev.p].up by { UpAgrees(c.nodes[ev.p], sector, s.procs[ev.p]); }
  }

  lemma UpAgrees(node: Node, sector: nat, pr: Proc)
    requires DiscOk(node, sector, pr)
    ensures node.up == pr.up
  {
  }

  /** What is in the machine at large, and the processes an event is not about, stay related. */
  lemma OthersKept(policy: Policy, c: Machine, s: System, d: Machine, t: System, sector: nat, p: nat)
    requires Related(policy, c, s, sector) && SameShared(d, t) && d.n == c.n && c.net <= d.net && d.nodes.Keys == c.nodes.Keys
    requires forall q :: q in c.nodes && q != p ==> d.nodes[q] == c.nodes[q] && t.procs[q] == s.procs[q]
    requires p in c.nodes ==> NodeOk(policy, d, p, sector, t.procs[p])
    ensures Related(policy, d, t, sector)
  {
    hide DiscOk;
    hide Picks;
    hide ToStore;
    hide Addressed;
    forall q | q in d.nodes ensures NodeOk(policy, d, q, sector, t.procs[q]) {
      if q != p {
        assert NodeOk(policy, c, q, sector, s.procs[q]);
      }
    }
  }

  /** Running a handler to its end, in the machine and in the cluster. */
  lemma RanShared(c: Machine, s: System, p: nat, m: Message, pick: Entry)
    requires SameShared(c, s) && p in c.nodes && c.nodes[p].mem == s.procs[p].mem
    ensures var d, t := Ran(c, p, m, pick), Delivered(s, p, m, pick, false);
            && SameShared(d, t) && d.n == c.n && c.net <= d.net && d.nodes.Keys == c.nodes.Keys
            && forall q :: q in c.nodes && q != p ==> d.nodes[q] == c.nodes[q] && t.procs[q] == s.procs[q]
  {
    hide OnMessage;
    hide OpsAfter;
  }

  /** The process itself, when what it stores for its sector is on its disc. */
  lemma RanOwn(policy: Policy, c: Machine, s: System, sector: nat, p: nat, m: Message, pick: Entry)
    requires SameShared(c, s) && p in c.nodes && c.nodes[p].mem == s.procs[p].mem && c.nodes[p].up && Sane(c.nodes[p].dir)
    requires SettledAt(c.nodes[p].dir, c.nodes[p].index, sector)
    requires var stored := ToStore(c.n, p, c.nodes[p].mem, m, pick);
             Live(c.nodes[p].dir, c.nodes[p].index, sector) == if stored.Some? then stored.value else s.procs[p].store
    requires s.procs[p].up
    ensures var d, t := Ran(c, p, m, pick), Delivered(s, p, m, pick, false);
            p in d.nodes && p in t.procs && NodeOk(policy, d, p, sector, t.procs[p])
  {
    hide OnMessage;
    hide OpsAfter;
    hide SettledAt;
    hide Sane;
    SettledAtShows(c.nodes[p].dir, c.nodes[p].index, sector);
  }

  lemma RanKept(policy: Policy, c: Machine, s: System, sector: nat, p: nat, m: Message, pick: Entry)
    requires Related(policy, c, s, sector) && p in c.nodes && c.nodes[p].up && s.procs[p].up
    requires c.nodes[p].mem == s.procs[p].mem && Sane(c.nodes[p].dir) && SettledAt(c.nodes[p].dir, c.nodes[p].index, sector)
    requires var stored := ToStore(c.n, p, c.nodes[p].mem, m, pick);
             Live(c.nodes[p].dir, c.nodes[p].index, sector) == if stored.Some? then stored.value else s.procs[p].store
    ensures Related(policy, Ran(c, p, m, pick), Delivered(s, p, m, pick, false), sector)
  {
    hide ToStore;
    hide NodeOk;
    hide Ran;
    hide Delivered;
    hide Sane;
    hide SettledAt;
    RanShared(c, s, p, m, pick);
    RanOwn(policy, c, s, sector, p, m, pick);
    OthersKept(policy, c, s, Ran(c, p, m, pick), Delivered(s, p, m, pick, false), sector, p);
  }

  lemma HandleKept(policy: Policy, c: Machine, s: System, sector: nat, ev: Event)
    requires Related(policy, c, s, sector) && Possible(policy, c, sector, ev) && ev.Handle?
    requires ToStore(c.n, ev.p, c.nodes[ev.p].mem, ev.m, ev.pick).None?
    ensures Related(policy, Follow(c, sector, ev), Next(s, Matching(c, ev)[0]), sector)
  {
    hide ToStore;
    hide Picks;
    hide Ran;
    hide Delivered;
    hide SettledAt;
    hide Sane;
    assert NodeOk(policy, c, ev.p, sector, s.procs[ev.p]);
    RanKept(policy, c, s, sector, ev.p, ev.m, ev.pick);
  }

  lemma BackKept(policy: Policy, c: Machine, s: System, sector: nat, ev: Event)
    requires Related(policy, c, s, sector) && Possible(policy, c, sector, ev) && ev.Back?
    ensures Related(policy, Follow(c, sector, ev), Next(s, Matching(c, ev)[0]), sector)
  {
    hide ToStore;
    hide Picks;
    hide Ran;
    hide Delivered;
    hide SettledAt;
    hide Superseded;
    hide Sane;
    hide TmpName;
    hide FinalName;
    assert NodeOk(policy, c, ev.p, sector, s.procs[ev.p]);
    RanKept(policy, c, s, sector, ev.p, c.nodes[ev.p].call.value.m, c.nodes[ev.p].call.value.pick);
  }

  /** A store call begins with a tag above the stored one. */
  lemma CallKept(policy: Policy, c: Machine, s: System, sector: nat, ev: Event)
    requires Related(policy, c, s, sector) && Possible(policy, c, sector, ev) && ev.Handle?
    requires var stored := ToStore(c.n, ev.p, c.nodes[ev.p].mem, ev.m, ev.pick);
             stored.Some? && InRange(sector, stored.value.tag) && Below(s.procs[ev.p].store.tag, stored.value.tag)
    ensures Related(policy, Follow(c, sector, ev), s, sector)
  {
    hide ToStore;
    hide SettledAt;
    hide Picks;
    hide FinalName;
    var p := ev.p;
    assert NodeOk(policy, c, p, sector, s.procs[p]);
    OthersKept(policy, c, s, Follow(c, sector, ev), s, sector, p);
  }

  lemma FileOpKept(policy: Policy, c: Machine, s: System, sector: nat, ev: Event)
    requires Related(policy, c, s, sector) && Possible(policy, c, sector, ev) && ev.FileOp?
    ensures Related(policy, Follow(c, sector, ev), s, sector)
  {
    hide ToStore;
    hide Picks;
    hide MidWrite;
    hide Operation;
    hide Sane;
    var p := ev.p;
    assert NodeOk(policy, c, p, sector, s.procs[p]);
    OperatedOk(c.nodes[p], sector, s.procs[p].store, ev.junk);
    OthersKept(policy, c, s, Follow(c, sector, ev), s, sector, p);
  }

  lemma ElsewhereKept(policy: Policy, c: Machine, s: System, sector: nat, ev: Event)
    requires Related(policy, c, s, sector) && Possible(policy, c, sector, ev) && ev.Elsewhere?
    ensures Related(policy, Follow(c, sector, ev), s, sector)
  {
    hide ToStore;
    hide Picks;
    var p := ev.p;
    assert NodeOk(policy, c, p, sector, s.procs[p]);
    SparedOk(c.nodes[p], sector, s.procs[p], ev.dir, ev.index);
    hide DiscOk;
    OthersKept(policy, c, s, Follow(c, sector, ev), s, sector, p);
  }

  /** A crash in the middle of a store call is a crash before it or right after it. */
  lemma StopKept(policy: Policy, c: Machine, s: System, sector: nat, ev: Event)
    requires Related(policy, c, s, sector) && Possible(policy, c, sector, ev) && ev.Stop?
    ensures Related(policy, Follow(c, sector, ev), Next(s, Matching(c, ev)[0]), sector)
  {
    hide OnMessage;
    hide Picks;
    hide SettledAt;
    hide Sane;
    hide Superseded;
    hide FinalName;
    hide TmpName;
    var p, node := ev.p, c.nodes[ev.p];
    assert NodeOk(policy, c, p, sector, s.procs[p]);
    if node.call.Some? {
      MidWriteShows(node, sector, s.procs[p].store, node.call.value);
    } else {
      SettledAtShows(node.dir, node.index, sector);
    }
    OthersKept(policy, c, s, Follow(c, sector, ev), Next(s, Matching(c, ev)[0]), sector, p);
  }

  lemma RestKept(policy: Policy, c: Machine, s: System, sector: nat, ev: Event)
    requires Related(policy, c, s, sector) && Possible(policy, c, sector, ev) && (ev.Ask? || ev.Restart? || ev.RestartCut?)
    ensures Related(policy, Follow(c, sector, ev), if Matching(c, ev) == [] then s else Next(s, Matching(c, ev)[0]), sector)
  {
    hide Settled;
    hide IndexOf;
    hide Trimmed;
    hide SettledAt;
    hide Sane;
    hide Shows;
    hide FinalName;
    hide OnClient;
    var p, node := ev.p, c.nodes[ev.p];
    assert NodeOk(policy, c, p, sector, s.procs[p]);
    if ev.Restart? {
      RestartReads(node.dir, sector, s.procs[p].store, ev.dir, ev.index);
      LiveDefined(ev.dir, ev.index, sector);
    } else if ev.RestartCut? {
      TrimmedSane(node.dir, ev.dir, sector, s.procs[p].store);
    }
    var t := if Matching(c, ev) == [] then s else Next(s, Matching(c, ev)[0]);
    OthersKept(policy, c, s, Follow(c, sector, ev), t, sector, p);
  }

  lemma LiveDefined(dir: Dir, index: map<nat, Tag>, sector: nat)
    requires SettledAt(dir, index, sector)
    ensures sector in index ==> FinalName(sector, index[sector]) in dir
  {
  }

  // ---------- Runs ----------

  /**
   * What a store call needs: a tag in range, and above the stored one. The documented selection provides it; for
   * any other it is what `Rises` says.
   */
  lemma StoreReady(policy: Policy, n: nat, front: seq<Step>, c: Machine, sector: nat, ev: Event)
    requires Run(policy, Init(n), front) && Related(policy, c, After(Init(n), front), sector)
    requires Possible(policy, c, sector, ev) && ev.Handle? && (policy.Lex? || Rises(c, sector, ev))
    requires ToStore(c.n, ev.p, c.nodes[ev.p].mem, ev.m, ev.pick).Some?
    requires n < U8 && sector < U64 && |front| + 1 < U64
    ensures var e := ToStore(c.n, ev.p, c.nodes[ev.p].mem, ev.m, ev.pick).value;
            InRange(sector, e.tag) && Below(After(Init(n), front).procs[ev.p].store.tag, e.tag)
  {
    var s := After(Init(n), front);
    var step := Deliver(ev.p, ev.m, ev.pick, false);
    assert Enabled(policy, s, step) && s.procs[ev.p].mem == c.nodes[ev.p].mem
      && OldTag(c.nodes[ev.p].index, sector) == s.procs[ev.p].store.tag by {
      hide OnMessage;
      hide Run;
      hide After;
      assert NodeOk(policy, c, ev.p, sector, s.procs[ev.p]);
      LiveTag(c.nodes[ev.p].dir, c.nodes[ev.p].index, sector);
    }
    assert s.n == c.n;
    hide Run;
    hide After;
    hide Related;
    hide Possible;
    hide Enabled;
    hide OnMessage;
    StoredTagBounded(policy, n, front, step);
    if policy.Lex? {
      StoreCallsIncrease(n, front, step);
    }
  }

  lemma Matched(policy: Policy, n: nat, front: seq<Step>, c: Machine, sector: nat, ev: Event) returns (more: seq<Step>)
    requires Run(policy, Init(n), front) && Related(policy, c, After(Init(n), front), sector)
    requires Possible(policy, c, sector, ev) && (policy.Lex? || Rises(c, sector, ev))
    requires n < U8 && sector < U64 && |front| + 1 < U64
    ensures Run(policy, After(Init(n), front), more) && |more| <= 1
    ensures Related(policy, Follow(c, sector, ev), After(After(Init(n), front), more), sector)
  {
    hide Run;
    hide After;
    hide Follow;
    hide Related;
    hide Enabled;
    hide Rises;
    hide OnMessage;
    hide InRange;
    var s := After(Init(n), front);
    assert ev.p in c.nodes;
    more := Matching(c, ev);
    if more == [] {
      NoSteps(policy, s);
    } else {
      StepPossible(policy, c, s, sector, ev);
      OneStep(policy, s, more[0]);
      assert more == [more[0]];
    }
    match ev
    case Handle(p, m, pick) =>
      if ToStore(c.n, p, c.nodes[p].mem, m, pick).Some? {
        StoreReady(policy, n, front, c, sector, ev);
        CallKept(policy, c, s, sector, ev);
      } else {
        HandleKept(policy, c, s, sector, ev);
      }
    case FileOp(_, _) => FileOpKept(policy, c, s, sector, ev);
    case Back(_) => BackKept(policy, c, s, sector, ev);
    case Elsewhere(_, _, _) => ElsewhereKept(policy, c, s, sector, ev);
    case Stop(_) => StopKept(policy, c, s, sector, ev);
    case _ => RestKept(policy, c, s, sector, ev);
  }

  lemma FreshRelated(policy: Policy, n: nat, sector: nat)
    ensures Related(policy, FreshMachine(n), Init(n), sector)
  {
    hide FinalName;
    hide KindOf;
    forall p | p in Idents(n) ensures NodeOk(policy, FreshMachine(n), p, sector, Init(n).procs[p]) {
    }
  }

  /**
   * Whatever happens to processes with real discs is a run of the cluster with atomic stores: same messages,
   * same history, and every disc shows the entry the cluster has stored. This holds for the documented
   * selection, and for any selection as long as each store call is made with a tag above the indexed one.
   */
  lemma {:induction false} DiscsRefineStores(policy: Policy, n: nat, sector: nat, evs: seq<Event>) returns (steps: seq<Step>)
    requires Happens(policy, n, sector, evs) && (policy.Lex? || AllRise(n, sector, evs))
    requires n < U8 && sector < U64 && |evs| < U64
    ensures Run(policy, Init(n), steps) && |steps| <= |evs|
    ensures Related(policy, Reached(n, sector, evs), After(Init(n), steps), sector)
  {
    hide Run;
    hide After;
    hide Related;
    hide Possible;
    hide Rises;
    hide Follow;
    if evs == [] {
      steps := [];
      NoSteps(policy, Init(n));
      FreshRelated(policy, n, sector);
    } else {
      var last := |evs| - 1;
      var front := DiscsRefineStores(policy, n, sector, evs[..last]);
      var more := Matched(policy, n, front, Reached(n, sector, evs[..last]), sector, evs[last]);
      steps := front + more;
      RunConcat(policy, Init(n), front, more);
    }
  }

  /** Registers on real discs are linearizable, wherever crashes cut their writes and recoveries off. */
  lemma DiscsLinearizable(n: nat, sector: nat, evs: seq<Event>)
    requires Happens(Lex, n, sector, evs) && n < U8 && sector < U64 && |evs| < U64
    ensures Linearizable(Reached(n, sector, evs).ops)
  {
    hide Run;
    hide After;
    var steps := DiscsRefineStores(Lex, n, sector, evs);
    RunsLinearizable(n, steps);
  }
}
