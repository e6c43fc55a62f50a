/** The driver's window of requests, without positions: what is waiting, what is in flight, what has ended. */
module Ring {

  /** A request with the identifier under which it is sent. */
  datatype Slot = Slot(ident: nat, request: nat)

  /** `window` holds accepted requests, the first `inFlight` of them forwarded. */
  datatype State = State(window: seq<Slot>, inFlight: nat, ended: seq<Slot>, submitted: seq<Slot>)

  datatype Step =
    | Submit(request: nat)
    | Send(count: nat)
    | Complete(ident: nat)
    | Reset

  const CAPACITY := 255
  const THREADS := 10

  /** Identifiers of a thread start at its number and grow by the number of threads. */
  function NextIdent(s: State, thread: nat): nat {
    thread + THREADS * |s.submitted|
  }

  function Submitted(s: State, slot: Slot): State {
    s.(window := s.window + [slot], submitted := s.submitted + [slot])
  }

  /** The completed request changes places with the oldest one, which then leaves the window. */
  function Completed(s: State, k: nat): State
    requires k < |s.window|
  {
    s.(window := s.window[k := s.window[0]][1..],
       inFlight := if s.inFlight > 0 then s.inFlight - 1 else 0,
       ended := s.ended + [s.window[k]])
  }

  function Position(window: seq<Slot>, ident: nat): (k: nat)
    ensures k <= |window| && (k < |window| ==> window[k].ident == ident)
    ensures forall j :: 0 <= j < k ==> window[j].ident != ident
  {
    if window == [] then 0
    else if window[0].ident == ident then 0
    else
      var k := Position(window[1..], ident);
      assert forall j :: 1 <= j < k + 1 ==> window[j] == window[1..][j - 1];
      k + 1
  }

  predicate Enabled(s: State, step: Step) {
    match step
    case Submit(_) => |s.window| < CAPACITY
    case Send(count) => s.inFlight + count <= |s.window|
    case Complete(ident) => Position(s.window, ident) < |s.window| && s.inFlight > 0
    case Reset => true
  }

  function Next(s: State, thread: nat, step: Step): State {
    match step
    case Submit(request) => Submitted(s, Slot(NextIdent(s, thread), request))
    case Send(count) => s.(inFlight := s.inFlight + count)
    case Complete(ident) =>
      if Position(s.window, ident) < |s.window| then Completed(s, Position(s.window, ident)) else s
    case Reset => s.(inFlight := 0)
  }

  /** Identifiers follow the order of submission. */
  ghost predicate Numbered(s: State, thread: nat) {
    forall i :: 0 <= i < |s.submitted| ==> s.submitted[i].ident == thread + THREADS * i
  }

  ghost predicate Inv(s: State, thread: nat) {
    && s.inFlight <= |s.window| <= CAPACITY
    && multiset(s.window) + multiset(s.ended) == multiset(s.submitted)
    && Numbered(s, thread)
  }

  /** Swapping with the oldest request and dropping it removes exactly the completed one. */
  lemma SwapOut(window: seq<Slot>, k: nat)
    requires k < |window|
    ensures multiset(window[k := window[0]][1..]) + multiset{window[k]} == multiset(window)
  {
    var w := window[k := window[0]];
    assert w == [window[0]] + w[1..];
    var all, rest := multiset(window), multiset(w[1..]);
    assert multiset(w) == all - multiset{window[k]} + multiset{window[0]};
    assert multiset(w) == multiset{window[0]} + rest;
    assert window[k] in all;
    forall x ensures (rest + multiset{window[k]})[x] == all[x] {
      assert (multiset{window[0]} + rest)[x] == (all - multiset{window[k]} + multiset{window[0]})[x];
    }
  }

  lemma InvStep(s: State, thread: nat, step: Step)
    requires Inv(s, thread) && Enabled(s, step)
    ensures Inv(Next(s, thread, step), thread)
  {
    match step
    case Submit(request) =>
    case Send(_) =>
    case Complete(ident) => SwapOut(s.window, Position(s.window, ident));
    case Reset =>
  }

  function After(thread: nat, steps: seq<Step>): State {
    if steps == [] then State([], 0, [], []) else Next(After(thread, steps[..|steps| - 1]), thread, steps[|steps| - 1])
  }

  ghost predicate Run(thread: nat, steps: seq<Step>) {
    steps == [] ||
    (Run(thread, steps[..|steps| - 1]) && Enabled(After(thread, steps[..|steps| - 1]), steps[|steps| - 1]))
  }

  lemma {:induction false} InvRun(thread: nat, steps: seq<Step>)
    requires Run(thread, steps)
    ensures Inv(After(thread, steps), thread)
  {
    if steps != [] {
      InvRun(thread, steps[..|steps| - 1]);
      InvStep(After(thread, steps[..|steps| - 1]), thread, steps[|steps| - 1]);
    }
  }

  /** Distinct slots occur once. */
  lemma {:induction false} OnceEach(slots: seq<Slot>, thread: nat, i: nat)
    requires i < |slots| && forall j :: 0 <= j < |slots| ==> slots[j].ident == thread + THREADS * j
    ensures multiset(slots)[slots[i]] == 1
  {
    var front, last := slots[..|slots| - 1], slots[|slots| - 1];
    assert slots == front + [last];
    if i < |front| {
      OnceEach(front, thread, i);
    } else {
      assert last !in front;
    }
  }

  /**
   * In every interleaving of submissions, sends, completions and error resets, each submitted request is in the
   * window once and has not ended, or has ended once and left the window.
   */
  lemma EachRequestOnce(thread: nat, steps: seq<Step>, i: nat)
    requires Run(thread, steps) && i < |After(thread, steps).submitted|
    ensures var s := After(thread, steps); var slot := s.submitted[i];
            multiset(s.window)[slot] + multiset(s.ended)[slot] == 1
  {
    InvRun(thread, steps);
    var s := After(thread, steps);
    OnceEach(s.submitted, thread, i);
    assert (multiset(s.window) + multiset(s.ended))[s.submitted[i]] == 1;
  }

  /** Nothing is in the window or has ended that was not submitted, and the window keeps its bounds. */
  lemma NothingInvented(thread: nat, steps: seq<Step>, slot: Slot)
    requires Run(thread, steps)
    ensures var s := After(thread, steps);
            && s.inFlight <= |s.window| <= CAPACITY && |s.window| + |s.ended| == |s.submitted|
            && (slot in s.window || slot in s.ended ==> slot in s.submitted)
  {
    InvRun(thread, steps);
    var s := After(thread, steps);
    assert |multiset(s.window) + multiset(s.ended)| == |s.window| + |s.ended|;
    assert slot in multiset(s.window) + multiset(s.ended) <==> slot in multiset(s.submitted);
  }

  /** After a reset the whole window waits to be sent again, whatever was in flight. */
  lemma ResetForgets(thread: nat, steps: seq<Step>)
    requires Run(thread, steps)
    ensures var s, t := After(thread, steps), After(thread, steps + [Reset]);
            && Run(thread, steps + [Reset]) && t.inFlight == 0
            && t.window == s.window && t.ended == s.ended && t.submitted == s.submitted
  {
    assert (steps + [Reset])[..|steps|] == steps;
  }

  /** Requests of different threads have different identifiers. */
  lemma IdentsApart(i: nat, j: nat, a: seq<Step>, b: seq<Step>, x: nat, y: nat)
    requires i < 10 && j < 10 && i != j && Run(i, a) && Run(j, b)
    requires x < |After(i, a).submitted| && y < |After(j, b).submitted|
    ensures After(i, a).submitted[x].ident != After(j, b).submitted[y].ident
  {
    InvRun(i, a);
    InvRun(j, b);
  }

  // ---------- The test for a full window as coded ----------

  /** One-byte positions, subtracted as promoted integers. */
  predicate LooksFull(accepted: nat, completed: nat) {
    accepted - completed == 255
  }

  /** One request completed, then `m` more submitted. */
  lemma {:induction false} SubmitMany(thread: nat, m: nat) returns (steps: seq<Step>)
    requires m <= CAPACITY
    ensures Run(thread, steps) && |After(thread, steps).window| == m && |After(thread, steps).ended| == 1
    ensures |After(thread, steps).submitted| == m + 1
  {
    if m == 0 {
      var a := [Submit(0)];
      var b := a + [Send(1)];
      steps := b + [Complete(thread)];
      assert a[..0] == [] && b[..1] == a && steps[..2] == b;
      assert Run(thread, []) && Run(thread, a) && After(thread, a) == Next(After(thread, []), thread, Submit(0));
      assert Run(thread, b) && After(thread, b) == Next(After(thread, a), thread, Send(1));
      assert After(thread, b).window == [Slot(thread, 0)] && Position([Slot(thread, 0)], thread) == 0;
    } else {
      var front := SubmitMany(thread, m - 1);
      steps := front + [Submit(m)];
      assert steps[..|front|] == front;
    }
  }

  /** A reachable full window that the coded test does not notice. */
  lemma FullUnnoticed(thread: nat) returns (steps: seq<Step>)
    ensures var s := After(thread, steps);
            Run(thread, steps) && |s.window| == CAPACITY && !LooksFull(|s.submitted| % 256, |s.ended| % 256)
  {
    steps := SubmitMany(thread, CAPACITY);
  }
}
