/** When a message takes a worker down: the handlers unwrap an operation identifier that recovery does not restore. */
module Halting {
  import opened Domain
  import opened Register
  import opened Cluster
  import opened Refinement
  import opened Progress

  /** Process `p` has been given a command since it last started. */
  predicate Asked(steps: seq<Step>, p: nat) {
    if steps == [] then false
    else
      var last := steps[|steps| - 1];
      if last.p == p && last.Invoke? then true
      else if last.p == p && last.Recover? then false
      else Asked(steps[..|steps| - 1], p)
  }

  /** A message leaves the operation identifier as it is. */
  lemma IdentKept(n: nat, self: nat, l: Local, m: Message, pick: Entry)
    requires OnMessage(n, self, l, m, pick).Done?
    ensures OnMessage(n, self, l, m, pick).effect.mem.opId == l.opId
  {
  }

  lemma StepKeepsIdent(s: System, step: Step, p: nat)
    requires p in s.procs && p in Next(s, step).procs && Next(s, step).procs[p].up
    requires !(step.p == p && (step.Invoke? || step.Recover?))
    ensures s.procs[p].up ==> Next(s, step).procs[p].mem.opId == s.procs[p].mem.opId
    ensures step.p != p ==> Next(s, step).procs[p] == s.procs[p]
    ensures step.p == p && step.Deliver? && s.procs[p].up ==> Next(s, step).procs[p].mem.opId == s.procs[p].mem.opId
  {
    if step.Deliver? && step.p == p && OnMessage(s.n, p, s.procs[p].mem, step.m, step.pick).Done? {
      IdentKept(s.n, p, s.procs[p].mem, step.m, step.pick);
    }
    hide OnMessage;
  }

  /** In every run, a running process has an operation identifier exactly if it has been asked since it started. */
  lemma {:induction false} IdentIff(policy: Policy, n: nat, steps: seq<Step>, p: nat)
    requires Run(policy, Init(n), steps) && p in After(Init(n), steps).procs
    ensures var pr := After(Init(n), steps).procs[p]; pr.up ==> (pr.mem.opId.Some? <==> Asked(steps, p))
  {
    if steps != [] {
      var front, step := steps[..|steps| - 1], steps[|steps| - 1];
      var s := After(Init(n), front);
      StepMembers(s, step);
      IdentIff(policy, n, front, p);
      if !(step.p == p && (step.Invoke? || step.Recover?)) && Next(s, step).procs[p].up {
        StepKeepsIdent(s, step, p);
      }
    }
  }

  lemma StepMembers(s: System, step: Step)
    ensures Next(s, step).procs.Keys == s.procs.Keys
  {
    hide OnMessage;
  }

  lemma HaltsHere(s: System, p: nat, m: Message, pick: Entry)
    requires p in s.procs && s.procs[p].up && Links(View(s), p, s.procs[p].mem)
    ensures OnMessage(s.n, p, s.procs[p].mem, m, pick).Halt? <==> (m.Value? || m.Ack?) && s.procs[p].mem.opId.None?
  {
  }

  /**
   * In every run and under every selection, delivering a message takes the process down if and only if it is a
   * VALUE or an ACK and the process has not been asked anything since it last started. Then nothing is stored or
   * sent and no operation ends.
   */
  lemma HaltsIff(policy: Policy, n: nat, steps: seq<Step>, p: nat, m: Message, pick: Entry)
    requires Run(policy, Init(n), steps) && Enabled(policy, After(Init(n), steps), Deliver(p, m, pick, false))
    ensures var s := After(Init(n), steps); var t := Next(s, Deliver(p, m, pick, false));
            && p in t.procs && (!t.procs[p].up <==> (m.Value? || m.Ack?) && !Asked(steps, p))
            && (!t.procs[p].up ==> t.procs[p].store == s.procs[p].store && t.net == s.net && t.ops == s.ops)
  {
    var s := After(Init(n), steps);
    SysInvInit(n);
    SysInvKept(policy, Init(n), steps);
    assert ProcOk(s, p);
    IdentIff(policy, n, steps, p);
    hide Run;
    hide After;
    hide SysInv;
    HaltsHere(s, p, m, pick);
    hide OnMessage;
    hide Links;
  }

  /** A late answer to a process that has recovered and has not been asked since ends its worker. */
  lemma RecoveredHalts(policy: Policy, n: nat, front: seq<Step>, p: nat, m: Message, pick: Entry)
    requires Run(policy, Init(n), front + [Recover(p)]) && (m.Value? || m.Ack?)
    requires Enabled(policy, After(Init(n), front + [Recover(p)]), Deliver(p, m, pick, false))
    ensures var s := After(Init(n), front + [Recover(p)]); var t := Next(s, Deliver(p, m, pick, false));
            p in t.procs && !t.procs[p].up
  {
    hide Run;
    hide After;
    hide Enabled;
    HaltsIff(policy, n, front + [Recover(p)], p, m, pick);
  }
}
