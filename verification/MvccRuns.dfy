/** What holds in every run of the store: snapshots are frozen, nothing throws, commits are atomic, the first
    committer wins and obsolete versions all go away. */
module MvccRuns {
  import opened Histories
  import opened Snapshots
  import opened Mvcc
  import opened MvccSteps

  /** A fresh store: one version per object, no snapshots, epoch `epoch`. */
  function Init(values: seq<int>, epoch: Epoch): (s: State)
    requires epoch >= 1
    ensures WF(s)
  {
    var hs := seq(|values|, x requires 0 <= x < |values| => History([], values[x]));
    State(Info(epoch, epoch, []), hs, map[], map[], multiset{}, Idle, hs, seq(|values|, x => 1), [], epoch)
  }

  lemma InitHolds(values: seq<int>, epoch: Epoch)
    requires epoch >= 1
    ensures Inv(Init(values, epoch))
  {
  }

  lemma StepKeeps(s: State, step: Step)
    requires Inv(s) && Enabled(s, step)
    ensures Inv(Apply(s, step))
  {
    match step
    case Take(n) => TakeKeeps(s, n);
    case Drop(n) => DropKeeps(s, n);
    case Clear(n) => ClearKeeps(s, n);
    case Mutate(n, x) => MutateKeeps(s, n, x);
    case Assign(n, x, v) => AssignKeeps(s, n, x, v);
    case Begin(n, order) => BeginKeeps(s, n, order);
    case SetupNext => SetupKeeps(s);
    case Bump => BumpKeeps(s);
    case RollbackNext => RollbackKeeps(s);
    case RegisterNext => RegisterKeeps(s);
    case Finish => FinishKeeps(s);
    case Clean(t) => CleanKeeps(s, t);
  }

  /** None of the source's exceptions can occur. */
  lemma NeverThrows(s: State, step: Step)
    requires Inv(s) && Enabled(s, step)
    ensures !Throws(s, step)
  {
    match step
    case Take(n) =>
    case Drop(n) =>
      var k := SnapEntry(s, n);
      EarliestAdvances(s.info, n, k);
    case RollbackNext => RollbackObjs(s);
    case RegisterNext => RegisterPhase(s);
    case Clean(t) => var i := CleanDenotes(s, t);
    case _ =>
  }

  // ---------------------------------------------------------------------------------------------
  // Runs
  // ---------------------------------------------------------------------------------------------

  ghost predicate Legal(s: State, steps: seq<Step>)
    requires WF(s)
    decreases |steps|
  {
    |steps| == 0 || (Enabled(s, steps[0]) && Legal(Apply(s, steps[0]), steps[1..]))
  }

  ghost function Run(s: State, steps: seq<Step>): (s': State)
    requires WF(s) && Legal(s, steps)
    ensures WF(s') && |s'.hist| == |s.hist|
    decreases |steps|
  {
    if |steps| == 0 then s else Run(Apply(s, steps[0]), steps[1..])
  }

  lemma {:induction false} RunKeeps(s: State, steps: seq<Step>)
    requires Inv(s) && Legal(s, steps)
    ensures Inv(Run(s, steps))
    decreases |steps|
  {
    if |steps| > 0 {
      StepKeeps(s, steps[0]);
      RunKeeps(Apply(s, steps[0]), steps[1..]);
    }
  }

  lemma RunCons(s: State, step: Step, steps: seq<Step>)
    requires WF(s) && Enabled(s, step) && Legal(Apply(s, step), steps)
    ensures Legal(s, [step] + steps) && Run(s, [step] + steps) == Run(Apply(s, step), steps)
  {
    assert ([step] + steps)[1..] == steps;
  }

  lemma HeadFirst<T>(a: seq<T>, b: seq<T>)
    requires |a| > 0
    ensures a + b == [a[0]] + (a[1..] + b)
  {
  }

  lemma {:induction false} RunAppend(s: State, a: seq<Step>, b: seq<Step>)
    requires WF(s) && Legal(s, a) && Legal(Run(s, a), b)
    ensures Legal(s, a + b) && Run(s, a + b) == Run(Run(s, a), b)
    decreases |a|
  {
    if |a| == 0 {
      assert a + b == b;
    } else {
      var s1, rest := Apply(s, a[0]), a[1..];
      RunAppend(s1, rest, b);
      RunCons(s, a[0], rest + b);
      HeadFirst(a, b);
    }
  }

  // ---------------------------------------------------------------------------------------------
  // Snapshots read the ideal histories
  // ---------------------------------------------------------------------------------------------

  /** What snapshot `n` reads, object by object. */
  function View(hist: seq<History<int>>, e: Epoch): seq<int> {
    seq(|hist|, x requires 0 <= x < |hist| => ValueAt(hist[x], e))
  }

  lemma ViewIsIdeal(s: State, n: Snap)
    requires Inv(s) && n in s.epochOf
    ensures View(s.hist, s.epochOf[n]) == View(s.ideal, s.epochOf[n])
  {
    var k := SnapEntry(s, n);
    forall x | 0 <= x < |s.hist|
      ensures ValueAt(s.hist[x], s.epochOf[n]) == ValueAt(s.ideal[x], s.epochOf[n])
    {
      NewestIs(s, x);
    }
  }

  /** In every reachable state, every registered snapshot reads from the cleaned-up histories exactly
      what histories that are never cleaned up hold at its epoch. */
  lemma RefinesIdeal(values: seq<int>, epoch: Epoch, steps: seq<Step>, n: Snap)
    requires epoch >= 1 && Legal(Init(values, epoch), steps)
    requires n in Run(Init(values, epoch), steps).epochOf
    ensures var s := Run(Init(values, epoch), steps);
            View(s.hist, s.epochOf[n]) == View(s.ideal, s.epochOf[n])
  {
    InitHolds(values, epoch);
    RunKeeps(Init(values, epoch), steps);
    ViewIsIdeal(Run(Init(values, epoch), steps), n);
  }

  lemma BumpFinal(s: State, e: Epoch)
    requires Inv(s) && Enabled(s, Bump) && e <= s.info.current
    ensures View(ApplyBump(s).ideal, e) == View(s.ideal, e)
  {
    forall x | 0 <= x < |s.ideal|
      ensures ValueAt(ApplyBump(s).ideal[x], e) == ValueAt(s.ideal[x], e)
    {
      NewestIs(s, x);
      BumpReads(s, x, e);
    }
  }

  /** The ideal histories only ever grow at the end: what they hold up to the current epoch is final. */
  lemma IdealFinal(s: State, step: Step, e: Epoch)
    requires Inv(s) && Enabled(s, step) && e <= s.info.current
    ensures View(Apply(s, step).ideal, e) == View(s.ideal, e)
  {
    if step.Bump? {
      BumpFinal(s, e);
    } else {
      assert Apply(s, step).ideal == s.ideal;
    }
  }

  lemma StepFrozen(s: State, step: Step, n: Snap)
    requires Inv(s) && Enabled(s, step) && n in s.epochOf && step != Drop(n)
    ensures var s' := Apply(s, step);
            && n in s'.epochOf && s'.epochOf[n] == s.epochOf[n]
            && View(s'.hist, s'.epochOf[n]) == View(s.hist, s.epochOf[n])
  {
    assert n in Apply(s, step).epochOf && Apply(s, step).epochOf[n] == s.epochOf[n];
    var k := SnapEntry(s, n);
    StepKeeps(s, step);
    IdealFinal(s, step, s.epochOf[n]);
    ViewIsIdeal(s, n);
    ViewIsIdeal(Apply(s, step), n);
  }

  /** A snapshot sees one and the same store for as long as it stays registered. */
  lemma {:induction false} ViewFrozen(s: State, steps: seq<Step>, n: Snap)
    requires Inv(s) && Legal(s, steps) && n in s.epochOf && Drop(n) !in steps
    ensures var s' := Run(s, steps);
            && n in s'.epochOf && s'.epochOf[n] == s.epochOf[n]
            && View(s'.hist, s'.epochOf[n]) == View(s.hist, s.epochOf[n])
    decreases |steps|
  {
    if |steps| > 0 {
      assert steps[0] in steps;
      StepFrozen(s, steps[0], n);
      StepKeeps(s, steps[0]);
      ViewFrozen(Apply(s, steps[0]), steps[1..], n);
    }
  }

  /** A snapshot starts out seeing the newest committed version of every object. */
  lemma ViewFresh(s: State, n: Snap)
    requires Inv(s) && n !in s.epochOf
    ensures var s' := ApplyTake(s, n);
            forall x :: 0 <= x < |s.hist| ==>
                View(s'.hist, s'.epochOf[n])[x] == Settled(s.hist[x], Open(s.phase, x)).current
  {
    forall x | 0 <= x < |s.hist|
      ensures ValueAt(s.hist[x], s.info.current) == Settled(s.hist[x], Open(s.phase, x)).current
    {
      NewestIs(s, x);
      CurrentReads(s.hist[x], s.ideal[x], s.firstKey[x], x in Ahead(s.phase), Open(s.phase, x), s.info);
    }
  }

  // ---------------------------------------------------------------------------------------------
  // Commits are atomic
  // ---------------------------------------------------------------------------------------------

  /** What a reader at the current epoch finds in the histories as they are. */
  function Now(s: State): seq<int> {
    View(s.hist, s.info.current)
  }

  lemma NowIsNewest(s: State)
    requires Inv(s)
    ensures forall x :: 0 <= x < |s.hist| ==> Now(s)[x] == s.ideal[x].current
  {
    forall x | 0 <= x < |s.hist|
      ensures ValueAt(s.hist[x], s.info.current) == s.ideal[x].current
    {
      NewestIs(s, x);
      CurrentReads(s.hist[x], s.ideal[x], s.firstKey[x], x in Ahead(s.phase), Open(s.phase, x), s.info);
    }
  }

  lemma OnlyBumpMoves(s: State, step: Step)
    requires WF(s) && Enabled(s, step) && !step.Bump?
    ensures Apply(s, step).ideal == s.ideal && Apply(s, step).info.current == s.info.current
  {
  }

  lemma SameNow(s: State, s': State)
    requires Inv(s) && Inv(s') && s'.ideal == s.ideal
    ensures Now(s') == Now(s)
  {
    NowIsNewest(s);
    NowIsNewest(s');
  }

  lemma NowKept(s: State, step: Step)
    requires Inv(s) && Enabled(s, step) && !step.Bump?
    ensures Now(Apply(s, step)) == Now(s) && Apply(s, step).info.current == s.info.current
  {
    OnlyBumpMoves(s, step);
    StepKeeps(s, step);
    SameNow(s, Apply(s, step));
  }

  /** Whatever happens, setting up, rolling back, cleaning up and listing included, a reader at the current epoch
      finds the same store until an epoch is bumped. */
  lemma {:induction false} NowUnmoved(s: State, steps: seq<Step>)
    requires Inv(s) && Legal(s, steps) && Bump !in steps
    ensures Now(Run(s, steps)) == Now(s) && Run(s, steps).info.current == s.info.current
    decreases |steps|
  {
    if |steps| > 0 {
      assert steps[0] in steps;
      NowKept(s, steps[0]);
      StepKeeps(s, steps[0]);
      NowUnmoved(Apply(s, steps[0]), steps[1..]);
    }
  }

  lemma NowBumped(s: State)
    requires Inv(s) && Enabled(s, Bump)
    ensures var s' := Apply(s, Bump);
            && s'.info.current == s.info.current + 1
            && forall x :: 0 <= x < |s.hist| ==>
                 Now(s')[x] == if x in s.phase.order then s.phase.box[x].value else Now(s)[x]
  {
    BumpKeeps(s);
    NowIsNewest(s);
    NowIsNewest(ApplyBump(s));
    forall x | 0 <= x < |s.hist|
      ensures ApplyBump(s).ideal[x].current == if x in s.phase.order then s.phase.box[x].value else s.ideal[x].current
    {
      BumpPhase(s, x);
    }
  }

  /** A commit that is setting up is the one that was begun. */
  lemma {:induction false} SetUpFromBegin(s: State, steps: seq<Step>)
    requires WF(s) && Legal(s, steps) && (forall step :: step in steps ==> !step.Begin?)
    requires Run(s, steps).phase.SettingUp?
    ensures s.phase.SettingUp? && Run(s, steps).phase.order == s.phase.order && Run(s, steps).phase.box == s.phase.box
    decreases |steps|
  {
    if |steps| > 0 {
      assert steps[0] in steps;
      SetUpFromBegin(Apply(s, steps[0]), steps[1..]);
    }
  }

  /** All objects of a commit change at once.  Whatever else goes on between its beginning and its bump, a reader at
      the current epoch finds none of its writes; after the bump a reader at the new epoch finds all of them, and of
      every other object what there was before. */
  lemma CommitIsAtomic(s: State, n: Snap, order: seq<Obj>, steps: seq<Step>)
    requires Inv(s) && Enabled(s, Begin(n, order)) && Legal(Apply(s, Begin(n, order)), steps)
    requires Bump !in steps && (forall step :: step in steps ==> !step.Begin?)
    requires Enabled(Run(Apply(s, Begin(n, order)), steps), Bump)
    ensures var p := Run(Apply(s, Begin(n, order)), steps);
            var s' := Apply(p, Bump);
            && Now(p) == Now(s)
            && s'.info.current == s.info.current + 1
            && forall x :: 0 <= x < |s.hist| ==>
                 Now(s')[x] == if x in s.boxes[n] then s.boxes[n][x].value else Now(s)[x]
  {
    var b := Apply(s, Begin(n, order));
    NowKept(s, Begin(n, order));
    StepKeeps(s, Begin(n, order));
    NowUnmoved(b, steps);
    RunKeeps(b, steps);
    SetUpFromBegin(b, steps);
    NowBumped(Run(b, steps));
  }

  // ---------------------------------------------------------------------------------------------
  // First committer wins
  // ---------------------------------------------------------------------------------------------

  lemma {:induction false} LogGrows(s: State, steps: seq<Step>)
    requires WF(s) && Legal(s, steps)
    ensures s.log <= Run(s, steps).log
    decreases |steps|
  {
    if |steps| > 0 {
      LogGrows(Apply(s, steps[0]), steps[1..]);
      assert s.log <= Apply(s, steps[0]).log;
    }
  }

  /** Of two commits that wrote the same object, neither took effect strictly between the other's
      snapshot and the other's commit. */
  lemma FirstCommitterWins(values: seq<int>, epoch: Epoch, steps: seq<Step>, i: nat, j: nat, x: Obj)
    requires epoch >= 1 && Legal(Init(values, epoch), steps)
    requires var log := Run(Init(values, epoch), steps).log;
             i < |log| && j < |log| && x in log[i].objs && x in log[j].objs
    ensures var log := Run(Init(values, epoch), steps).log;
            !(log[j].base < log[i].at < log[j].at)
  {
    InitHolds(values, epoch);
    RunKeeps(Init(values, epoch), steps);
    LogOrders(Run(Init(values, epoch), steps), i, j, x);
  }

  lemma LogOrders(s: State, i: nat, j: nat, x: Obj)
    requires LogOk(s) && i < |s.log| && j < |s.log| && x in s.log[i].objs && x in s.log[j].objs
    ensures !(s.log[j].base < s.log[i].at < s.log[j].at)
  {
    assert Wrote(s.log, i, x) && Wrote(s.log, j, x);
  }

  /** A logged commit wrote `x` after epoch `e`. */
  ghost predicate WrittenSince(log: seq<Commit>, x: Obj, e: Epoch) {
    exists i: nat :: Wrote(log, i, x) && log[i].at > e
  }

  /** The set-up of an object is refused exactly when a logged commit wrote it after the snapshot was taken, or
      a commit from before the log that the snapshot does not see did. */
  lemma ConflictAt(s: State)
    requires Inv(s) && Enabled(s, SetupNext)
    ensures var x, e := NextObj(s), s.epochOf[s.phase.snap];
            Apply(s, SetupNext).phase.RollingBack? <==>
              WrittenSince(s.log, x, e) || e < NewestFrom(s.ideal[x]) <= s.since
  {
    SetupPhase(s);
    var x := NextObj(s);
    SetupCheck(s, s.phase.snap, x);
    assert WrittenBy(s.log, s.ideal[x], x, s.since);
  }

  /** No registered epoch is older than the log. */
  ghost predicate Rooted(s: State) {
    s.since <= s.info.current && forall n :: n in s.epochOf ==> s.since <= s.epochOf[n]
  }

  lemma {:induction false} RunRooted(s: State, steps: seq<Step>)
    requires Inv(s) && Rooted(s) && Legal(s, steps)
    ensures Inv(Run(s, steps)) && Rooted(Run(s, steps))
    decreases |steps|
  {
    if |steps| > 0 {
      StepKeeps(s, steps[0]);
      StepRooted(s, steps[0]);
      RunRooted(Apply(s, steps[0]), steps[1..]);
    }
  }

  lemma StepRooted(s: State, step: Step)
    requires Inv(s) && Rooted(s) && Enabled(s, step)
    ensures Rooted(Apply(s, step))
  {
  }

  /** In every run, the set-up of an object is refused exactly when some commit of the run wrote it after the
      snapshot was taken. */
  lemma ConflictIsExact(values: seq<int>, epoch: Epoch, steps: seq<Step>)
    requires epoch >= 1 && Legal(Init(values, epoch), steps) && Enabled(Run(Init(values, epoch), steps), SetupNext)
    ensures var s := Run(Init(values, epoch), steps);
            Apply(s, SetupNext).phase.RollingBack? <==> WrittenSince(s.log, NextObj(s), s.epochOf[s.phase.snap])
  {
    InitHolds(values, epoch);
    RunRooted(Init(values, epoch), steps);
    ConflictAt(Run(Init(values, epoch), steps));
  }

  // ---------------------------------------------------------------------------------------------
  // Quiescence
  // ---------------------------------------------------------------------------------------------

  lemma NoSnapshotsNoEntries(info: Info, epochOf: map<Snap, Epoch>)
    requires InfoOk(info) && SnapsOk(info, epochOf) && epochOf == map[]
    ensures |info.entries| == 0
  {
    assert |info.entries| > 0 && info.entries[0].snapshots != {} ==>
        exists n :: n in info.entries[0].snapshots && n in epochOf;
  }

  /** With no snapshot registered, no commit in progress and no cleanup under way, every object has
      exactly one version, holding its newest committed value. */
  lemma Quiescence(s: State)
    requires Inv(s) && s.epochOf == map[] && s.phase.Idle? && s.inflight == multiset{}
    ensures forall x :: 0 <= x < |s.hist| ==> s.hist[x] == History([], s.ideal[x].current)
  {
    assert |s.info.entries| == 0 by {
      NoSnapshotsNoEntries(s.info, s.epochOf);
    }
    forall x | 0 <= x < |s.hist|
      ensures s.hist[x] == History([], s.ideal[x].current)
    {
      NewestIs(s, x);
      if |s.hist[x].past| > 0 {
        assert Expected(s, Token(x, Key(s.hist[x], s.firstKey[x], 0)));
      }
    }
  }
}
