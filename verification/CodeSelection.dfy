/**
 * The code compares write ranks only. When that agrees with the documented order, runs of the code are
 * runs of the documented protocol; when it does not, a history need not be linearizable.
 */
module CodeSelection {
  import opened Domain
  import opened Histories
  import opened Register
  import opened Cluster
  import opened QuorumCore
  import opened Refinement
  import opened Safety
  import opened Progress

  /** Every entry with an outdated timestamp is outranked by some entry of the list. */
  ghost predicate RanksDecide(list: map<nat, Entry>) {
    forall q, r :: q in list && r in list && list[q].tag.ts < list[r].tag.ts ==> Outranked(list, q)
  }

  ghost predicate Outranked(list: map<nat, Entry>, q: nat)
    requires q in list
  {
    exists x :: x in list && list[q].tag.wr < list[x].tag.wr
  }

  /** For every order of iteration the code returns the documented maximum, exactly when ranks decide. */
  lemma CodeSelectsHighestIff(list: map<nat, Entry>)
    ensures (forall e :: RankHighest(list, e) ==> LexHighest(list, e)) <==> RanksDecide(list)
  {
    if RanksDecide(list) {
      forall e | RankHighest(list, e) ensures LexHighest(list, e) {
        var q :| q in list && list[q] == e;
        forall r | r in list ensures AtMost(list[r].tag, e.tag) {
          assert !Outranked(list, q);
        }
      }
    } else {
      var q, r :| q in list && r in list && list[q].tag.ts < list[r].tag.ts && !Outranked(list, q);
      assert RankHighest(list, list[q]);
      assert !AtMost(list[r].tag, list[q].tag);
    }
  }

  /** If this delivery ends a read phase, ranks decide among what was collected. */
  ghost predicate Faithful(s: System, step: Step) {
    step.Deliver? && step.m.Value? && step.p in s.procs &&
    Closes(s.n, s.procs[step.p].mem, step.m.src, step.m.id, step.m.entry) ==>
      RanksDecide(Candidates(step.p, s.procs[step.p].mem, step.m.src, step.m.entry))
  }

  ghost predicate FaithfulRun(s: System, steps: seq<Step>) {
    forall i :: 0 <= i < |steps| ==> Faithful(After(s, steps[..i]), steps[i])
  }

  lemma {:induction false} FaithfulRunIsLex(s: System, steps: seq<Step>)
    requires Run(RankOnly, s, steps) && FaithfulRun(s, steps)
    ensures Run(Lex, s, steps)
  {
    if steps != [] {
      var last := |steps| - 1;
      var front := steps[..last];
      forall i | 0 <= i < |front| ensures Faithful(After(s, front[..i]), front[i]) {
        assert front[..i] == steps[..i];
      }
      FaithfulRunIsLex(s, front);
      var step := steps[last];
      assert Faithful(After(s, front), step);
      if step.Deliver? && step.m.Value? {
        CodeSelectsHighestIff(Candidates(step.p, After(s, front).procs[step.p].mem, step.m.src, step.m.entry));
      }
    }
  }

  /** A run of the code in which ranks decide every selection is linearizable. */
  lemma FaithfulRunsLinearizable(n: nat, steps: seq<Step>)
    requires Run(RankOnly, Init(n), steps) && FaithfulRun(Init(n), steps)
    ensures Linearizable(After(Init(n), steps).ops)
  {
    FaithfulRunIsLex(Init(n), steps);
    RunsLinearizable(n, steps);
  }

  /** A single process only ever chooses from its own entry. */
  lemma AloneFaithful(s: System, step: Step)
    requires SysInv(s) && s.n <= 1 && Enabled(RankOnly, s, step)
    ensures Faithful(s, step)
  {
  }

  lemma AloneStep(s: System, step: Step)
    requires SysInv(s) && s.n <= 1 && Enabled(RankOnly, s, step)
    ensures Enabled(Lex, s, step)
  {
    AloneFaithful(s, step);
    hide SysInv;
    if step.Deliver? && step.m.Value? {
      CodeSelectsHighestIff(Candidates(step.p, s.procs[step.p].mem, step.m.src, step.m.entry));
    }
  }

  /** With one process, every run of the code is a run of the documented protocol. */
  lemma {:induction false} AloneIsLex(s: System, steps: seq<Step>)
    requires SysInv(s) && s.n <= 1 && Run(RankOnly, s, steps)
    ensures Run(Lex, s, steps)
  {
    if steps != [] {
      var front := steps[..|steps| - 1];
      AloneIsLex(s, front);
      SysInvKept(RankOnly, s, front);
      SizeKept(s, front);
      AloneStep(After(s, front), steps[|steps| - 1]);
    }
  }

  lemma AloneLinearizable(n: nat, steps: seq<Step>)
    requires n <= 1 && Run(RankOnly, Init(n), steps)
    ensures Linearizable(After(Init(n), steps).ops)
  {
    SysInvInit(n);
    AloneIsLex(Init(n), steps);
    RunsLinearizable(n, steps);
  }
}
