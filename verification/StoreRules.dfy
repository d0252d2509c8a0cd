/** The rule of the latest snapshot holds in every state that the store's own operations lead to. */
module StoreRules {
  import opened Histories
  import opened Snapshots
  import opened Mvcc
  import opened MvccSteps
  import opened MvccRuns
  import opened Latest
  import opened CommitStages
  import S = Store

  lemma {:induction false} NoTakesCalm(s: State, steps: seq<Step>)
    requires WF(s) && Legal(s, steps) && forall step :: step in steps ==> !step.Take?
    ensures AllCalm(s, steps)
    decreases |steps|
  {
    if |steps| > 0 {
      assert steps[0] in steps;
      NoTakesCalm(Apply(s, steps[0]), steps[1..]);
    }
  }

  /** A whole commit, refused or not, keeps the rule. */
  lemma CommitKeepsRule(m: State, n: Snap, order: seq<Obj>, through: bool, stale: nat)
    requires Inv(m) && Strong(m) && Legal(m, CommitSteps(n, order, through, stale))
    ensures Inv(Run(m, CommitSteps(n, order, through, stale))) && Strong(Run(m, CommitSteps(n, order, through, stale)))
  {
    NoTakesCalm(m, CommitSteps(n, order, through, stale));
    RunStrong(m, CommitSteps(n, order, through, stale));
  }

  lemma {:induction false} CleaningKeepsRule(s: State, ts: seq<Token>)
    requires Inv(s) && Strong(s) && multiset(ts) <= s.inflight
    ensures Strong(S.CleanAll(s, ts))
    decreases |ts|
  {
    if |ts| > 0 {
      var n := |ts| - 1;
      assert ts == ts[..n] + [ts[n]];
      CleaningKeepsRule(s, ts[..n]);
      CleanStrong(S.CleanAll(s, ts[..n]), ts[n]);
    }
  }

  /** Removing a snapshot, with all the cleaning up it leads to, keeps the rule. */
  lemma RemovalKeepsRule(m: State, n: Snap)
    requires Inv(m) && Strong(m) && m.phase.Idle? && m.inflight == multiset{} && n in m.epochOf
    ensures IndexOf(m.info.entries, m.epochOf[n]) < |m.info.entries|
    ensures var s, ts := ApplyDrop(m, n), Leave(m.info, n, IndexOf(m.info.entries, m.epochOf[n])).1;
            Inv(s) && multiset(ts) <= s.inflight && Strong(S.CleanAll(s, ts))
  {
    var k := SnapEntry(m, n);
    DropKeeps(m, n);
    StepStrong(m, Drop(n));
    CleaningKeepsRule(ApplyDrop(m, n), Leave(m.info, n, k).1);
  }

  lemma TakingKeepsRule(m: State, n: Snap)
    requires Inv(m) && Strong(m) && m.phase.Idle? && n !in m.epochOf
    ensures Strong(ApplyTake(m, n))
  {
    StepStrong(m, Take(n));
  }
}
