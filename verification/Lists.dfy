/** What the cleanup lists satisfy in every run, races or not: no version is listed by an entry past its end, and a
    list that names two versions of one object names the earlier one first. */
module Lists {
  import opened Histories
  import opened Snapshots
  import opened Mvcc
  import opened MvccSteps
  import opened MvccRuns
  import opened Latest

  /** Two cleanups of one object are in the order of the versions they name. */
  ghost predicate InOrder(cs: seq<Token>) {
    forall a, b :: 0 <= a < b < |cs| && cs[a].obj == cs[b].obj ==> cs[a].validFrom < cs[b].validFrom
  }

  ghost predicate ListsInOrder(es: seq<Entry>) {
    forall k :: 0 <= k < |es| ==> InOrder(es[k].cleanups)
  }

  ghost predicate ListsOk(s: State)
    requires WF(s)
  {
    && Pending(s)
    && ListedWithin(s.info.entries, s.hist, s.firstKey)
    && ListsInOrder(s.info.entries)
  }

  // ---------------------------------------------------------------------------------------------
  // Each step keeps it
  // ---------------------------------------------------------------------------------------------

  lemma {:induction false} NeededInOrder(cs: seq<Token>, p: Epoch)
    requires InOrder(cs)
    ensures InOrder(Needed(cs, p))
  {
    if |cs| > 0 {
      var n := |cs| - 1;
      NeededInOrder(cs[..n], p);
      NeededSplits(cs[..n], p);
      forall t | t in Needed(cs[..n], p) && t.obj == cs[n].obj ensures t.validFrom < cs[n].validFrom {
        var i :| 0 <= i < n && cs[i] == t;
      }
    }
  }

  /** What one entry lists of an object comes before what a later one lists of it. */
  lemma EarlierFirst(s: State, k: nat, m: nat, t: Token, u: Token)
    requires Inv(s) && ListedWithin(s.info.entries, s.hist, s.firstKey) && k < m < |s.info.entries| && t.obj == u.obj
    requires t in s.info.entries[k].cleanups && u in s.info.entries[m].cleanups
    ensures t.validFrom < u.validFrom
  {
    var es, x := s.info.entries, t.obj;
    var i := ListedNamesOne(s, k, t);
    var j := ListedNamesOne(s, m, u);
    NewestIs(s, x);
    assert Beyond(s.hist, s.firstKey, t, es[m].epoch);
    assert s.hist[x].past[i].validTo <= es[m].epoch <= s.hist[x].past[j].validTo;
    KeysIncrease(s.hist[x], s.firstKey[x], i, j);
    if i == j {
      ListedTwice(s, k, m, t);
    }
  }

  lemma ListedTwice(s: State, k: nat, m: nat, t: Token)
    requires Inv(s) && k < m < |s.info.entries|
    requires t in s.info.entries[k].cleanups
    ensures t !in s.info.entries[m].cleanups
  {
    var es := s.info.entries;
    ListedSplit(es, m);
    ListedHas(es[..m], k, t);
    ListedHas(es, k, t);
    OutstandingExpected(s, t);
  }

  lemma MovedInOrder(cs: seq<Token>, more: seq<Token>)
    requires InOrder(cs) && InOrder(more)
    requires forall t, u :: t in cs && u in more && t.obj == u.obj ==> t.validFrom < u.validFrom
    ensures InOrder(cs + more)
  {
  }

  lemma LeaveInOrder(s: State, n: Snap, k: nat)
    requires Inv(s) && ListedWithin(s.info.entries, s.hist, s.firstKey) && ListsInOrder(s.info.entries)
    requires k < |s.info.entries|
    ensures ListsInOrder(Leave(s.info, n, k).0.entries)
  {
    var es := s.info.entries;
    var gone := s.info.(entries := es[k := es[k].(snapshots := es[k].snapshots - {n})]);
    if es[k].snapshots - {n} == {} {
      DropEntries(gone, k);
      if k > 0 {
        var more := Needed(es[k].cleanups, es[k - 1].epoch);
        NeededInOrder(es[k].cleanups, es[k - 1].epoch);
        NeededSplits(es[k].cleanups, es[k - 1].epoch);
        forall t, u | t in es[k - 1].cleanups && u in more && t.obj == u.obj ensures t.validFrom < u.validFrom {
          EarlierFirst(s, k - 1, k, t, u);
        }
        MovedInOrder(es[k - 1].cleanups, more);
      }
    }
  }

  /** The version listed last is the newest obsolete one. */
  lemma RegisterLast(s: State, t: Token)
    requires Inv(s) && Enabled(s, RegisterNext) && t in Listed(s.info.entries) && t.obj == NextObj(s)
    ensures |s.hist[t.obj].past| > 0 && t.validFrom < PreviousFrom(s.hist[t.obj])
  {
    RegisterPhase(s);
    var x := t.obj;
    var h, first := s.hist[x], s.firstKey[x];
    assert t in Outstanding(s);
    OutstandingExpected(s, t);
    NewestIs(s, x);
    var i :| 0 <= i < |h.past| - 1 && Key(h, first, i) == t.validFrom;
    KeysIncrease(h, first, i, |h.past| - 1);
  }

  lemma RegisterInOrder(s: State)
    requires Inv(s) && ListsInOrder(s.info.entries) && Enabled(s, RegisterNext)
    ensures ListsInOrder(ApplyRegister(s).info.entries)
  {
    RegisterPhase(s);
    var es, n := s.info.entries, |s.info.entries| - 1;
    var added := Token(NextObj(s), PreviousFrom(s.hist[NextObj(s)]));
    forall t, u | t in es[n].cleanups && u in [added] && t.obj == u.obj ensures t.validFrom < u.validFrom {
      ListedHas(es, n, t);
      RegisterLast(s, t);
    }
    MovedInOrder(es[n].cleanups, [added]);
  }

  lemma OtherInOrder(s: State, step: Step)
    requires WF(s) && ListsInOrder(s.info.entries) && Enabled(s, step) && !step.Drop? && !step.RegisterNext?
    ensures ListsInOrder(Apply(s, step).info.entries)
  {
  }

  lemma StepInOrder(s: State, step: Step)
    requires Inv(s) && ListedWithin(s.info.entries, s.hist, s.firstKey) && ListsInOrder(s.info.entries)
    requires Enabled(s, step)
    ensures ListsInOrder(Apply(s, step).info.entries)
  {
    match step
    case Drop(n) =>
      var k := SnapEntry(s, n);
      LeaveInOrder(s, n, k);
    case RegisterNext => RegisterInOrder(s);
    case _ => OtherInOrder(s, step);
  }

  /** Every step, racing or not, keeps the lists within their versions and in order. */
  lemma StepListsOk(s: State, step: Step)
    requires Inv(s) && ListsOk(s) && Enabled(s, step)
    ensures ListsOk(Apply(s, step))
  {
    StepPending(s, step);
    StepSeen(s, step, 1);
    StepInOrder(s, step);
  }

  lemma {:induction false} RunListsOk(s: State, steps: seq<Step>)
    requires Inv(s) && ListsOk(s) && Legal(s, steps)
    ensures Inv(Run(s, steps)) && ListsOk(Run(s, steps))
    decreases |steps|
  {
    if |steps| > 0 {
      StepKeeps(s, steps[0]);
      StepListsOk(s, steps[0]);
      RunListsOk(Apply(s, steps[0]), steps[1..]);
    }
  }

  lemma InitListsOk(values: seq<int>, epoch: Epoch)
    requires epoch >= 1
    ensures Inv(Init(values, epoch)) && ListsOk(Init(values, epoch))
  {
  }

  /** So it is in every reachable state. */
  lemma ReachedListsOk(values: seq<int>, epoch: Epoch, steps: seq<Step>)
    requires epoch >= 1 && Legal(Init(values, epoch), steps)
    ensures Inv(Run(Init(values, epoch), steps)) && ListsOk(Run(Init(values, epoch), steps))
  {
    InitListsOk(values, epoch);
    RunListsOk(Init(values, epoch), steps);
  }
}
