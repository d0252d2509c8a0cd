/** The rule the cleanup lists are meant to keep: an obsolete version is on the list of the latest
    registered snapshot that sees it.  It holds as long as no cleanup is registered when a snapshot has been
    taken since the epoch was bumped; the weaker invariant of the store needs no such condition. */
module Latest {
  import opened Histories
  import opened Snapshots
  import opened Mvcc
  import opened MvccSteps
  import opened MvccRuns

  /** Epoch `e` is before the end of the version that `t` names. */
  ghost predicate Before(hist: seq<History<int>>, firstKey: seq<nat>, t: Token, e: int)
    requires |hist| == |firstKey|
  {
    t.obj < |hist| ==>
      forall i :: 0 <= i < |hist[t.obj].past| && Key(hist[t.obj], firstKey[t.obj], i) == t.validFrom ==>
        e < hist[t.obj].past[i].validTo
  }

  /** Every listed version has begun by the epoch of the entry that lists it, and ends after that epoch, or up to
      `slack` before it. */
  ghost predicate ListedBefore(es: seq<Entry>, hist: seq<History<int>>, firstKey: seq<nat>, slack: nat)
    requires |hist| == |firstKey|
  {
    forall k, t :: 0 <= k < |es| && t in es[k].cleanups ==>
      t.validFrom <= es[k].epoch && Before(hist, firstKey, t, es[k].epoch - slack)
  }

  /** The rule: every listed version is seen by the snapshots of the entry that lists it. */
  ghost predicate ListedSeen(es: seq<Entry>, hist: seq<History<int>>, firstKey: seq<nat>)
    requires |hist| == |firstKey|
  {
    ListedBefore(es, hist, firstKey, 0)
  }

  /** What holds without the rule: no version is listed by an entry past its end. */
  ghost predicate ListedWithin(es: seq<Entry>, hist: seq<History<int>>, firstKey: seq<nat>)
    requires |hist| == |firstKey|
  {
    ListedBefore(es, hist, firstKey, 1)
  }

  /** The version before the newest one ended at epoch `to` and began no later than `e`. */
  ghost predicate EndedAt(h: History<int>, to: Epoch, e: Epoch) {
    |h.past| > 0 && h.past[|h.past| - 1].validTo == to && PreviousFrom(h) <= e
  }

  /** What a commit that is registering cleanups still has to register was seen by its own snapshot
      and ended with the commit. */
  ghost predicate Pending(s: State)
    requires WF(s)
  {
    s.phase.Registering? ==>
      forall x :: x in Ahead(s.phase) ==> EndedAt(s.hist[x], s.info.current, s.epochOf[s.phase.snap])
  }

  /** A snapshot has been taken since the last bump. */
  ghost predicate TakenSince(info: Info) {
    |info.entries| > 0 && info.entries[|info.entries| - 1].epoch >= info.current
  }

  ghost predicate NoneTaken(s: State) {
    s.phase.Registering? ==> !TakenSince(s.info)
  }

  /** A cleanup is registered when a snapshot has been taken since the bump. */
  ghost predicate Races(s: State, step: Step) {
    step.RegisterNext? && TakenSince(s.info)
  }

  ghost predicate Strong(s: State)
    requires WF(s)
  {
    ListedSeen(s.info.entries, s.hist, s.firstKey) && Pending(s) && NoneTaken(s)
  }

  /** The step does not take a snapshot between a bump and its last registration.  Taking one keeps the rule; it is the
      registration after it that breaks the rule, so without one there is nothing to break it. */
  ghost predicate Calm(s: State, step: Step) {
    step.Take? ==> !s.phase.Registering?
  }

  // ---------------------------------------------------------------------------------------------
  // Preservation
  // ---------------------------------------------------------------------------------------------

  lemma TakeSeen(s: State, n: Snap, slack: nat)
    requires WF(s) && ListedBefore(s.info.entries, s.hist, s.firstKey, slack) && n !in s.epochOf
    ensures ListedBefore(ApplyTake(s, n).info.entries, s.hist, s.firstKey, slack)
  {
  }

  lemma LeaveSeen(info: Info, n: Snap, k: nat, hist: seq<History<int>>, firstKey: seq<nat>, slack: nat)
    requires |hist| == |firstKey| && Increasing(info.entries) && k < |info.entries|
    requires ListedBefore(info.entries, hist, firstKey, slack)
    ensures ListedBefore(Leave(info, n, k).0.entries, hist, firstKey, slack)
  {
    var es, es' := info.entries, Leave(info, n, k).0.entries;
    forall m, t | 0 <= m < |es'| && t in es'[m].cleanups
      ensures t.validFrom <= es'[m].epoch && Before(hist, firstKey, t, es'[m].epoch - slack)
    {
      LeaveEntries(info, n, k, m);
      var o := OldIndex(info, n, k, m);
      if t !in es[o].cleanups {
        assert o + 1 == k && t in es[k].cleanups && es[o].epoch < es[k].epoch;
        LeaveMoves(info, n, k, t);
      }
    }
  }

  /** Only cleanups that the entry before still needs are moved to it. */
  lemma LeaveMoves(info: Info, n: Snap, k: nat, t: Token)
    requires 0 < k < |info.entries| && info.entries[k].snapshots - {n} == {}
    requires t in Leave(info, n, k).0.entries[k - 1].cleanups && t !in info.entries[k - 1].cleanups
    ensures t.validFrom <= info.entries[k - 1].epoch
  {
    NeededSplits(info.entries[k].cleanups, info.entries[k - 1].epoch);
  }

  lemma LeaveLast(info: Info, n: Snap, k: nat)
    requires Increasing(info.entries) && k < |info.entries|
    ensures var es' := Leave(info, n, k).0.entries;
            |es'| > 0 ==> es'[|es'| - 1].epoch <= info.entries[|info.entries| - 1].epoch
  {
  }

  lemma DropSeen(s: State, n: Snap, slack: nat)
    requires WF(s) && ListedBefore(s.info.entries, s.hist, s.firstKey, slack) && Increasing(s.info.entries)
    requires n in s.epochOf && (s.phase.Idle? || s.phase.snap != n)
    ensures ListedBefore(ApplyDrop(s, n).info.entries, s.hist, s.firstKey, slack)
  {
    var k := IndexOf(s.info.entries, s.epochOf[n]);
    if k < |s.info.entries| {
      LeaveSeen(s.info, n, k, s.hist, s.firstKey, slack);
    }
  }

  lemma PushSeen(es: seq<Entry>, hist: seq<History<int>>, firstKey: seq<nat>, x: Obj, to: nat, v: int, slack: nat)
    requires |hist| == |firstKey| && x < |hist| && ListedBefore(es, hist, firstKey, slack)
    requires OlderOnly(Listed(es), hist, firstKey)
    ensures ListedBefore(es, hist[x := Push(hist[x], to, v)], firstKey, slack)
  {
    var hist' := hist[x := Push(hist[x], to, v)];
    forall k, t | 0 <= k < |es| && t in es[k].cleanups
      ensures Before(hist', firstKey, t, es[k].epoch - slack)
    {
      ListedHas(es, k, t);
      if t.obj == x {
        forall i | 0 <= i < |hist'[x].past| && Key(hist'[x], firstKey[x], i) == t.validFrom
          ensures es[k].epoch - slack < hist'[x].past[i].validTo
        {
          assert Key(hist[x], firstKey[x], i) == t.validFrom;
        }
      }
    }
  }

  lemma SetupSeen(s: State, slack: nat)
    requires WF(s) && ListedBefore(s.info.entries, s.hist, s.firstKey, slack) && Enabled(s, SetupNext)
    requires OlderOnly(Listed(s.info.entries), s.hist, s.firstKey)
    ensures ListedBefore(s.info.entries, ApplySetup(s).hist, s.firstKey, slack)
  {
    var x := NextObj(s);
    PushSeen(s.info.entries, s.hist, s.firstKey, x, s.phase.to, s.phase.box[x].value, slack);
  }

  /** The version that a commit makes obsolete was seen by the committing snapshot. */
  lemma BumpObsoletes(s: State, x: Obj)
    requires Inv(s) && Enabled(s, Bump) && x in s.phase.order
    ensures x < |s.hist| && EndedAt(s.hist[x], s.info.current + 1, s.epochOf[s.phase.snap])
  {
    var k := SnapEntry(s, s.phase.snap);
    assert x in Prefix(s.phase.order, s.phase.done);
    NewestIs(s, x);
    assert PreviousFrom(s.hist[x]) == NewestFrom(Pop(s.hist[x]));
  }

  lemma BumpPending(s: State)
    requires Inv(s) && Enabled(s, Bump)
    ensures Pending(ApplyBump(s))
  {
    assert Ahead(ApplyBump(s).phase) == s.phase.order;
    forall x | x in s.phase.order
      ensures x < |s.hist| && EndedAt(s.hist[x], s.info.current + 1, s.epochOf[s.phase.snap])
    {
      BumpObsoletes(s, x);
    }
  }

  lemma PopBefore(hist: seq<History<int>>, firstKey: seq<nat>, x: Obj, t: Token, e: int)
    requires |hist| == |firstKey| && x < |hist| && |hist[x].past| > 0 && Before(hist, firstKey, t, e)
    ensures Before(hist[x := Pop(hist[x])], firstKey, t, e)
  {
  }

  lemma RollbackSeen(s: State, slack: nat)
    requires WF(s) && ListedBefore(s.info.entries, s.hist, s.firstKey, slack) && Enabled(s, RollbackNext)
    ensures ListedBefore(s.info.entries, ApplyRollback(s).hist, s.firstKey, slack)
  {
    var x, es := NextObj(s), s.info.entries;
    if |s.hist[x].past| > 0 {
      forall k, t | 0 <= k < |es| && t in es[k].cleanups
        ensures Before(ApplyRollback(s).hist, s.firstKey, t, es[k].epoch - slack)
      {
        PopBefore(s.hist, s.firstKey, x, t, es[k].epoch - slack);
      }
    }
  }

  lemma RegisterBefore(h: History<int>, hist: seq<History<int>>, firstKey: seq<nat>, x: Obj, e: int)
    requires |hist| == |firstKey| && x < |hist| && hist[x] == h && Sorted(h) && |h.past| > 0
    requires firstKey[x] < h.past[0].validTo && PreviousFrom(h) == Key(h, firstKey[x], |h.past| - 1)
    requires e < h.past[|h.past| - 1].validTo
    ensures Before(hist, firstKey, Token(x, PreviousFrom(h)), e)
  {
  }

  /** The newly listed version is seen by the last entry. */
  lemma RegisterSeen(s: State, slack: nat)
    requires Inv(s) && Pending(s) && Enabled(s, RegisterNext) && (slack > 0 || !TakenSince(s.info))
    ensures |s.info.entries| > 0 && |s.hist[NextObj(s)].past| > 0
    ensures var e := s.info.entries[|s.info.entries| - 1].epoch;
            var t := Token(NextObj(s), PreviousFrom(s.hist[NextObj(s)]));
            t.validFrom <= e && Before(s.hist, ApplyRegister(s).firstKey, t, e - slack)
  {
    RegisterPhase(s);
    var x := NextObj(s);
    NewestIs(s, x);
    var k := SnapEntry(s, s.phase.snap);
    RegisterSeenAt(s, k, slack);
  }

  lemma RegisterSeenAt(s: State, k: nat, slack: nat)
    requires WF(s) && Pending(s) && Increasing(s.info.entries) && Enabled(s, RegisterNext)
    requires slack > 0 || !TakenSince(s.info)
    requires k < |s.info.entries| && s.info.entries[k].epoch == s.epochOf[s.phase.snap]
    requires s.info.entries[|s.info.entries| - 1].epoch <= s.info.current
    requires NextObj(s) in Ahead(s.phase) && |s.hist[NextObj(s)].past| > 0 && Sorted(s.hist[NextObj(s)])
    requires s.firstKey[NextObj(s)] < s.hist[NextObj(s)].past[0].validTo
    ensures var e := s.info.entries[|s.info.entries| - 1].epoch;
            var t := Token(NextObj(s), PreviousFrom(s.hist[NextObj(s)]));
            t.validFrom <= e && Before(s.hist, ApplyRegister(s).firstKey, t, e - slack)
  {
    var x := NextObj(s);
    RegisterName(s);
    RegisterBefore(s.hist[x], s.hist, ApplyRegister(s).firstKey, x, s.info.entries[|s.info.entries| - 1].epoch - slack);
  }

  /** Naming the first version anew does not concern any cleanup that is listed. */
  lemma RegisterOthers(s: State, t: Token, e: int)
    requires Inv(s) && Enabled(s, RegisterNext) && t in Listed(s.info.entries) && Before(s.hist, s.firstKey, t, e)
    ensures Before(s.hist, ApplyRegister(s).firstKey, t, e)
  {
    RegisterPhase(s);
    RegisterName(s);
    if t.obj == NextObj(s) {
      assert t in Outstanding(s);
      OutstandingExpected(s, t);
      assert |s.hist[t.obj].past| > 1;
    }
  }

  lemma RegisterSeenListed(s: State, k: nat, t: Token, slack: nat)
    requires Inv(s) && ListedBefore(s.info.entries, s.hist, s.firstKey, slack) && Enabled(s, RegisterNext)
    requires k < |s.info.entries| && t in s.info.entries[k].cleanups
    ensures t.validFrom <= s.info.entries[k].epoch
    ensures Before(s.hist, ApplyRegister(s).firstKey, t, s.info.entries[k].epoch - slack)
  {
    ListedHas(s.info.entries, k, t);
    RegisterOthers(s, t, s.info.entries[k].epoch - slack);
  }

  lemma AddedCleanups(info: Info, t: Token, k: nat)
    requires |info.entries| > 0 && k < |info.entries|
    ensures AddCleanup(info, t).entries[k].epoch == info.entries[k].epoch
    ensures forall u :: u in AddCleanup(info, t).entries[k].cleanups ==>
              u in info.entries[k].cleanups || (k == |info.entries| - 1 && u == t)
  {
  }

  lemma RegisterListedAt(s: State, k: nat, t: Token, slack: nat)
    requires Inv(s) && ListedBefore(s.info.entries, s.hist, s.firstKey, slack) && Pending(s) && Enabled(s, RegisterNext)
    requires slack > 0 || !TakenSince(s.info)
    requires k < |s.info.entries| && t in ApplyRegister(s).info.entries[k].cleanups
    ensures t.validFrom <= s.info.entries[k].epoch
    ensures Before(s.hist, ApplyRegister(s).firstKey, t, s.info.entries[k].epoch - slack)
  {
    RegisterSeen(s, slack);
    AddedCleanups(s.info, Token(NextObj(s), PreviousFrom(s.hist[NextObj(s)])), k);
    if t in s.info.entries[k].cleanups {
      RegisterSeenListed(s, k, t, slack);
    }
  }

  lemma RegisterEpochs(s: State, k: nat)
    requires WF(s) && Enabled(s, RegisterNext) && k < |s.info.entries|
    ensures |ApplyRegister(s).info.entries| == |s.info.entries|
    ensures ApplyRegister(s).info.entries[k].epoch == s.info.entries[k].epoch
  {
  }

  lemma RegisterListedSeen(s: State, slack: nat)
    requires Inv(s) && ListedBefore(s.info.entries, s.hist, s.firstKey, slack) && Pending(s) && Enabled(s, RegisterNext)
    requires slack > 0 || !TakenSince(s.info)
    ensures ListedBefore(ApplyRegister(s).info.entries, s.hist, ApplyRegister(s).firstKey, slack)
  {
    var es, s' := s.info.entries, ApplyRegister(s);
    forall k, t | 0 <= k < |s'.info.entries| && t in s'.info.entries[k].cleanups
      ensures t.validFrom <= s'.info.entries[k].epoch
      ensures Before(s.hist, s'.firstKey, t, s'.info.entries[k].epoch - slack)
    {
      RegisterPhase(s);
      RegisterEpochs(s, k);
      RegisterListedAt(s, k, t, slack);
    }
  }

  lemma RegisterPending(s: State)
    requires Inv(s) && Pending(s) && Enabled(s, RegisterNext)
    ensures Pending(ApplyRegister(s))
  {
    RegisterPhase(s);
    assert ApplyRegister(s).hist == s.hist;
  }

  /** Removing another version can only lengthen the version that a listed cleanup names. */
  lemma RemoveBefore(hist: seq<History<int>>, firstKey: seq<nat>, x: Obj, i: nat, u: Token, e: int)
    requires |hist| == |firstKey| && x < |hist| && i < |hist[x].past| && Sorted(hist[x])
    requires u != Token(x, Key(hist[x], firstKey[x], i)) && Before(hist, firstKey, u, e)
    ensures Before(hist[x := RemoveAt(hist[x], i)], firstKey[x := FirstAfter(hist[x], firstKey[x], i)], u, e)
  {
    var h, first := hist[x], firstKey[x];
    var r, first' := RemoveAt(h, i), FirstAfter(h, first, i);
    if u.obj == x {
      forall j | 0 <= j < |r.past| && Key(r, first', j) == u.validFrom
        ensures e < r.past[j].validTo
      {
        RemoveKeepsOthers(h, first, i, j);
        var o := if j < i then j else j + 1;
        assert Key(h, first, o) == u.validFrom;
        assert e < h.past[o].validTo <= r.past[j].validTo;
      }
    }
  }

  lemma CleanListedSeen(s: State, t: Token, slack: nat)
    requires Inv(s) && ListedBefore(s.info.entries, s.hist, s.firstKey, slack) && t in s.inflight
    ensures t.obj < |s.hist| && ListedBefore(s.info.entries, ApplyClean(s, t).hist, ApplyClean(s, t).firstKey, slack)
  {
    var i := CleanDenotes(s, t);
    NewestIs(s, t.obj);
    var es, s' := s.info.entries, ApplyClean(s, t);
    assert Outstanding(s)[t] == 1;
    forall k, u | 0 <= k < |es| && u in es[k].cleanups
      ensures Before(s'.hist, s'.firstKey, u, es[k].epoch - slack)
    {
      ListedHas(es, k, u);
      RemoveBefore(s.hist, s.firstKey, t.obj, i, u, es[k].epoch - slack);
    }
  }

  lemma RemoveEnded(h: History<int>, i: nat, to: Epoch, e: Epoch)
    requires EndedAt(h, to, e) && i + 1 < |h.past| && e >= 1
    ensures EndedAt(RemoveAt(h, i), to, e)
  {
  }

  lemma CleanPendingAt(s: State, t: Token, i: nat)
    requires WF(s) && Pending(s) && t in s.inflight && s.phase.Registering? && t.obj < |s.hist|
    requires i + (if t.obj in Ahead(s.phase) then 1 else 0) < |s.hist[t.obj].past|
    requires Find(s.hist[t.obj], t.validFrom) == Some(i) && s.epochOf[s.phase.snap] >= 1
    ensures Pending(ApplyClean(s, t))
  {
    var s' := ApplyClean(s, t);
    assert s'.phase == s.phase;
    forall x | x in Ahead(s.phase)
      ensures EndedAt(s'.hist[x], s.info.current, s.epochOf[s.phase.snap])
    {
      if x == t.obj {
        RemoveEnded(s.hist[x], i, s.info.current, s.epochOf[s.phase.snap]);
      }
    }
  }

  lemma CleanPending(s: State, t: Token)
    requires Inv(s) && Pending(s) && t in s.inflight
    ensures t.obj < |s.hist| && Pending(ApplyClean(s, t))
  {
    var i := CleanDenotes(s, t);
    if s.phase.Registering? {
      var k := SnapEntry(s, s.phase.snap);
      CleanPendingAt(s, t, i);
    }
  }

  lemma CleanStrong(s: State, t: Token)
    requires Inv(s) && Strong(s) && t in s.inflight
    ensures t.obj < |s.hist| && Strong(ApplyClean(s, t))
  {
    var i := CleanDenotes(s, t);
    CleanListedSeen(s, t, 0);
    CleanPending(s, t);
  }

  lemma OtherPending(s: State, step: Step)
    requires WF(s) && Pending(s) && Enabled(s, step) && !step.Bump? && !step.RegisterNext? && !step.Clean?
    ensures Pending(Apply(s, step))
  {
  }

  /** What a commit has yet to register was seen by its snapshot, whatever else goes on. */
  lemma StepPending(s: State, step: Step)
    requires Inv(s) && Pending(s) && Enabled(s, step)
    ensures Pending(Apply(s, step))
  {
    match step
    case Bump => BumpPending(s);
    case RegisterNext => RegisterPending(s);
    case Clean(t) => CleanPending(s, t);
    case _ => OtherPending(s, step);
  }

  lemma {:induction false} RunPending(s: State, steps: seq<Step>)
    requires Inv(s) && Pending(s) && Legal(s, steps)
    ensures Inv(Run(s, steps)) && Pending(Run(s, steps))
    decreases |steps|
  {
    if |steps| > 0 {
      StepKeeps(s, steps[0]);
      StepPending(s, steps[0]);
      RunPending(Apply(s, steps[0]), steps[1..]);
    }
  }

  lemma LocalSeen(s: State, step: Step, slack: nat)
    requires WF(s) && ListedBefore(s.info.entries, s.hist, s.firstKey, slack) && Enabled(s, step)
    requires step.Clear? || step.Mutate? || step.Assign? || step.Begin? || step.Bump? || step.Finish?
    ensures var s' := Apply(s, step); ListedBefore(s'.info.entries, s'.hist, s'.firstKey, slack)
  {
  }

  /** Every step that does not race keeps the rule. */
  lemma StepSeen(s: State, step: Step, slack: nat)
    requires Inv(s) && ListedBefore(s.info.entries, s.hist, s.firstKey, slack) && Pending(s) && Enabled(s, step)
    requires slack > 0 || !Races(s, step)
    ensures var s' := Apply(s, step); ListedBefore(s'.info.entries, s'.hist, s'.firstKey, slack)
  {
    match step
    case Take(n) => TakeSeen(s, n, slack);
    case Drop(n) => DropSeen(s, n, slack);
    case SetupNext =>
      AllOlder(s);
      SetupSeen(s, slack);
    case RollbackNext => RollbackSeen(s, slack);
    case RegisterNext => RegisterListedSeen(s, slack);
    case Clean(t) => CleanListedSeen(s, t, slack);
    case _ => LocalSeen(s, step, slack);
  }

  lemma AddedLast(info: Info, t: Token)
    requires |info.entries| > 0
    ensures TakenSince(AddCleanup(info, t)) == TakenSince(info)
  {
    AddCleanupEpochs(info, t, |info.entries| - 1);
  }

  lemma DropNoneTaken(s: State, n: Snap)
    requires WF(s) && NoneTaken(s) && Increasing(s.info.entries) && n in s.epochOf
    requires s.phase.Idle? || s.phase.snap != n
    ensures NoneTaken(ApplyDrop(s, n))
  {
    var k := IndexOf(s.info.entries, s.epochOf[n]);
    if k < |s.info.entries| {
      LeaveLast(s.info, n, k);
    }
  }

  lemma RegisterNoneTaken(s: State)
    requires WF(s) && NoneTaken(s) && Enabled(s, RegisterNext)
    ensures NoneTaken(ApplyRegister(s))
  {
    if |s.hist[NextObj(s)].past| > 0 && |s.info.entries| > 0 {
      AddedLast(s.info, Token(NextObj(s), PreviousFrom(s.hist[NextObj(s)])));
    }
  }

  lemma OtherNoneTaken(s: State, step: Step)
    requires WF(s) && NextEpoch(s) && InfoOk(s.info) && NoneTaken(s) && Enabled(s, step) && Calm(s, step)
    requires !step.Drop? && !step.RegisterNext?
    ensures NoneTaken(Apply(s, step))
  {
  }

  lemma StepNoneTaken(s: State, step: Step)
    requires Inv(s) && NoneTaken(s) && Enabled(s, step) && Calm(s, step)
    ensures NoneTaken(Apply(s, step))
  {
    match step
    case Drop(n) => DropNoneTaken(s, n);
    case RegisterNext => RegisterNoneTaken(s);
    case _ => OtherNoneTaken(s, step);
  }

  /** Such a step keeps the rule, and that no snapshot has been taken while cleanups are being registered. */
  lemma StepStrong(s: State, step: Step)
    requires Inv(s) && Strong(s) && Enabled(s, step) && Calm(s, step)
    ensures Strong(Apply(s, step))
  {
    StepSeen(s, step, 0);
    StepPending(s, step);
    StepNoneTaken(s, step);
  }

  ghost predicate AllCalm(s: State, steps: seq<Step>)
    requires WF(s) && Legal(s, steps)
    decreases |steps|
  {
    |steps| > 0 ==> Calm(s, steps[0]) && AllCalm(Apply(s, steps[0]), steps[1..])
  }

  lemma {:induction false} RunStrong(s: State, steps: seq<Step>)
    requires Inv(s) && Strong(s) && Legal(s, steps) && AllCalm(s, steps)
    ensures Inv(Run(s, steps)) && Strong(Run(s, steps))
    decreases |steps|
  {
    if |steps| > 0 {
      StepKeeps(s, steps[0]);
      StepStrong(s, steps[0]);
      RunStrong(Apply(s, steps[0]), steps[1..]);
    }
  }

  // ---------------------------------------------------------------------------------------------
  // The rule itself
  // ---------------------------------------------------------------------------------------------

  /** Entry `k` is the latest registered epoch that sees version `i`. */
  ghost predicate IsLatestSeer(es: seq<Entry>, h: History<int>, first: nat, i: nat, k: nat)
    requires i < |h.past|
  {
    && k < |es|
    && Key(h, first, i) <= es[k].epoch < h.past[i].validTo
    && forall m :: k < m < |es| ==> es[m].epoch >= h.past[i].validTo
  }

  lemma SeenLatest(es: seq<Entry>, hist: seq<History<int>>, firstKey: seq<nat>, x: Obj, i: nat, k: nat)
    requires |hist| == |firstKey| && x < |hist| && i < |hist[x].past| && k < |es|
    requires ListedAt(es, hist, firstKey) && ListedSeen(es, hist, firstKey)
    requires Token(x, Key(hist[x], firstKey[x], i)) in es[k].cleanups
    ensures IsLatestSeer(es, hist[x], firstKey[x], i, k)
  {
  }

  lemma ObsoleteOutstanding(s: State, x: Obj, i: nat)
    requires WF(s) && TokensOk(s) && s.phase.Idle? && x < |s.hist| && i < |s.hist[x].past|
    ensures Outstanding(s)[Token(x, Key(s.hist[x], s.firstKey[x], i))] == 1
  {
  }

  /** Between commits and with no cleanup under way, every obsolete version of every object is on
      exactly one list, once, and that list belongs to the latest registered epoch that sees it. */
  lemma OnLatestList(s: State, x: Obj, i: nat) returns (k: nat)
    requires Inv(s) && Strong(s) && s.phase.Idle? && s.inflight == multiset{}
    requires x < |s.hist| && i < |s.hist[x].past|
    ensures IsLatestSeer(s.info.entries, s.hist[x], s.firstKey[x], i, k)
    ensures Token(x, Key(s.hist[x], s.firstKey[x], i)) in s.info.entries[k].cleanups
    ensures Listed(s.info.entries)[Token(x, Key(s.hist[x], s.firstKey[x], i))] == 1
  {
    ObsoleteOutstanding(s, x, i);
    k := ListedWhere(s.info.entries, Token(x, Key(s.hist[x], s.firstKey[x], i)));
    SeenLatest(s.info.entries, s.hist, s.firstKey, x, i, k);
  }

  /** And every listed cleanup names exactly one obsolete version. */
  lemma ListedNamesOne(s: State, k: nat, t: Token) returns (i: nat)
    requires Inv(s) && k < |s.info.entries| && t in s.info.entries[k].cleanups
    ensures t.obj < |s.hist| && i < |s.hist[t.obj].past| && Key(s.hist[t.obj], s.firstKey[t.obj], i) == t.validFrom
    ensures Find(s.hist[t.obj], t.validFrom) == Some(i)
    ensures forall j ::
              0 <= j <= |s.hist[t.obj].past| && Key(s.hist[t.obj], s.firstKey[t.obj], j) == t.validFrom ==> j == i
  {
    ListedHas(s.info.entries, k, t);
    assert t in Outstanding(s);
    OutstandingExpected(s, t);
    var h, first := s.hist[t.obj], s.firstKey[t.obj];
    NewestIs(s, t.obj);
    i :| 0 <= i < |h.past| - (if t.obj in Ahead(s.phase) then 1 else 0) && Key(h, first, i) == t.validFrom;
    FindDenotes(h, t.validFrom, i);
    forall j | 0 <= j <= |h.past| && Key(h, first, j) == t.validFrom ensures j == i {
      KeysIncrease(h, first, i, j);
    }
  }
}
