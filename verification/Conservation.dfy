/** Transactions that move amounts between objects: exactly which commits keep the total that readers see, and
    which runs keep it throughout. */
module Conservation {
  import opened Histories
  import opened Snapshots
  import opened Mvcc
  import opened MvccSteps
  import opened MvccRuns

  function Sum(v: seq<int>): int {
    if |v| == 0 then 0 else Sum(v[..|v| - 1]) + v[|v| - 1]
  }

  /** How much a transaction's local values differ in sum from what it copied, over the first `n` objects. */
  ghost function Net(box: Box, n: nat): int {
    if n == 0 then 0 else Net(box, n - 1) + if n - 1 in box then box[n - 1].value - box[n - 1].base else 0
  }

  /** How much a transaction's local values differ in sum from what a reader finds. */
  ghost function Gain(box: Box, view: seq<int>, n: nat): int
    requires n <= |view|
  {
    if n == 0 then 0 else Gain(box, view, n - 1) + if n - 1 in box then box[n - 1].value - view[n - 1] else 0
  }

  /** What the snapshot of the commit in progress sees. */
  function OwnView(s: State): seq<int>
    requires !s.phase.Idle? && s.phase.snap in s.epochOf
  {
    View(s.hist, s.epochOf[s.phase.snap])
  }

  // ---------------------------------------------------------------------------------------------
  // One commit
  // ---------------------------------------------------------------------------------------------

  lemma {:induction false} SumOfWrites(now: seq<int>, now': seq<int>, box: Box, n: nat)
    requires n <= |now| == |now'|
    requires forall x :: 0 <= x < n ==> now'[x] == if x in box then box[x].value else now[x]
    ensures Sum(now'[..n]) == Sum(now[..n]) + Gain(box, now, n)
  {
    if n > 0 {
      SumOfWrites(now, now', box, n - 1);
      assert now'[..n][..n - 1] == now'[..n - 1] && now[..n][..n - 1] == now[..n - 1];
    }
  }

  lemma {:induction false} SameGain(box: Box, view: seq<int>, view': seq<int>, n: nat)
    requires n <= |view| && n <= |view'| && forall x :: 0 <= x < n && x in box ==> view[x] == view'[x]
    ensures Gain(box, view, n) == Gain(box, view', n)
  {
    if n > 0 {
      SameGain(box, view, view', n - 1);
    }
  }

  /** What a commit that has passed every check is about to overwrite is what its own snapshot sees. */
  lemma OverwritesOwn(s: State, x: Obj)
    requires Inv(s) && Enabled(s, Bump) && x < |s.hist| && x in s.phase.box
    ensures OwnView(s)[x] == Now(s)[x]
  {
    assert x in Prefix(s.phase.order, s.phase.done);
    NewestIs(s, x);
    NewestReads(s.ideal[x], s.epochOf[s.phase.snap]);
    ViewIsIdeal(s, s.phase.snap);
    assert View(s.ideal, s.epochOf[s.phase.snap])[x] == s.ideal[x].current;
    NowIsNewest(s);
  }

  /** A commit moves the total by what its transaction gains on its own snapshot. */
  lemma BumpMovesTotal(s: State)
    requires Inv(s) && Enabled(s, Bump)
    ensures Sum(Now(Apply(s, Bump))) == Sum(Now(s)) + Gain(s.phase.box, OwnView(s), |s.hist|)
  {
    var now, now' := Now(s), Now(Apply(s, Bump));
    NowBumped(s);
    SumOfWrites(now, now', s.phase.box, |s.hist|);
    assert now[..|s.hist|] == now && now'[..|s.hist|] == now';
    forall x | 0 <= x < |s.hist| && x in s.phase.box ensures OwnView(s)[x] == now[x] {
      OverwritesOwn(s, x);
    }
    SameGain(s.phase.box, OwnView(s), now, |s.hist|);
  }

  lemma SnapStays(s: State, step: Step)
    requires WF(s) && Enabled(s, step) && !step.Begin? && Apply(s, step).phase.SettingUp?
    ensures s.phase.SettingUp? && Apply(s, step).phase.snap == s.phase.snap && step != Drop(s.phase.snap)
    ensures Apply(s, step).epochOf[s.phase.snap] == s.epochOf[s.phase.snap]
  {
  }

  /** The snapshot of a commit that is setting up is the one it was begun with, at the same epoch. */
  lemma {:induction false} SnapFromBegin(s: State, steps: seq<Step>)
    requires WF(s) && Legal(s, steps) && (forall step :: step in steps ==> !step.Begin?)
    requires Run(s, steps).phase.SettingUp?
    ensures s.phase.SettingUp? && Run(s, steps).phase.snap == s.phase.snap
    ensures Run(s, steps).epochOf[s.phase.snap] == s.epochOf[s.phase.snap] && Drop(s.phase.snap) !in steps
    decreases |steps|
  {
    if |steps| > 0 {
      assert steps[0] in steps;
      SnapFromBegin(Apply(s, steps[0]), steps[1..]);
      SnapStays(s, steps[0]);
      assert steps == [steps[0]] + steps[1..];
    }
  }

  /** Whatever goes on between its beginning and its bump, a commit moves the total by what its local values gain, when
      it begins, on what its own snapshot sees: it keeps the total if and only if that is nothing. */
  lemma CommitMovesTotal(s: State, n: Snap, order: seq<Obj>, steps: seq<Step>)
    requires Inv(s) && Enabled(s, Begin(n, order)) && Legal(Apply(s, Begin(n, order)), steps)
    requires Bump !in steps && (forall step :: step in steps ==> !step.Begin?)
    requires Enabled(Run(Apply(s, Begin(n, order)), steps), Bump)
    ensures var p := Run(Apply(s, Begin(n, order)), steps);
            && Sum(Now(p)) == Sum(Now(s))
            && Sum(Now(Apply(p, Bump))) == Sum(Now(s)) + Gain(s.boxes[n], View(s.hist, s.epochOf[n]), |s.hist|)
  {
    var b := Apply(s, Begin(n, order));
    var p := Run(b, steps);
    CommitIsAtomic(s, n, order, steps);
    SetUpFromBegin(b, steps);
    SnapFromBegin(b, steps);
    StepKeeps(s, Begin(n, order));
    RunKeeps(b, steps);
    ViewFrozen(b, steps, n);
    BumpMovesTotal(p);
  }

  /** So a commit is even, and keeps the total, if and only if it gains nothing. */
  ghost predicate Even(s: State, step: Step)
    requires WF(s) && Enabled(s, step)
  {
    step.Bump? ==> Gain(s.phase.box, OwnView(s), |s.hist|) == 0
  }

  lemma StepKeepsTotalExactly(s: State, step: Step)
    requires Inv(s) && Enabled(s, step)
    ensures Sum(Now(Apply(s, step))) == Sum(Now(s)) <==> Even(s, step)
  {
    if step.Bump? {
      BumpMovesTotal(s);
    } else {
      NowKept(s, step);
    }
  }

  // ---------------------------------------------------------------------------------------------
  // Whole runs
  // ---------------------------------------------------------------------------------------------

  ghost predicate AllEven(s: State, steps: seq<Step>)
    requires WF(s) && Legal(s, steps)
    decreases |steps|
  {
    |steps| > 0 ==> Even(s, steps[0]) && AllEven(Apply(s, steps[0]), steps[1..])
  }

  /** A reader at the current epoch finds total `sum` in every state of the run. */
  ghost predicate TotalThroughout(s: State, steps: seq<Step>, sum: int)
    requires WF(s) && Legal(s, steps)
    decreases |steps|
  {
    Sum(Now(s)) == sum && (|steps| > 0 ==> TotalThroughout(Apply(s, steps[0]), steps[1..], sum))
  }

  /** A run keeps the total in every state if and only if every commit of it is even. */
  lemma {:induction false} TotalKeptExactly(s: State, steps: seq<Step>)
    requires Inv(s) && Legal(s, steps)
    ensures TotalThroughout(s, steps, Sum(Now(s))) <==> AllEven(s, steps)
    decreases |steps|
  {
    if |steps| > 0 {
      var s' := Apply(s, steps[0]);
      StepKeeps(s, steps[0]);
      StepKeepsTotalExactly(s, steps[0]);
      TotalKeptExactly(s', steps[1..]);
      if Sum(Now(s')) != Sum(Now(s)) {
        assert !TotalThroughout(s', steps[1..], Sum(Now(s)));
      }
    }
  }

  /** Every registered snapshot, and a new one, sees total `sum`. */
  ghost predicate Conserved(s: State, sum: int) {
    Sum(Now(s)) == sum && forall n :: n in s.epochOf ==> Sum(View(s.hist, s.epochOf[n])) == sum
  }

  lemma StepConserves(s: State, step: Step, sum: int)
    requires Inv(s) && Enabled(s, step) && Even(s, step) && Conserved(s, sum)
    ensures Conserved(Apply(s, step), sum)
  {
    var s' := Apply(s, step);
    StepKeepsTotalExactly(s, step);
    forall n | n in s'.epochOf
      ensures Sum(View(s'.hist, s'.epochOf[n])) == sum
    {
      if n in s.epochOf && step != Drop(n) {
        StepFrozen(s, step, n);
      } else {
        StillRegistered(s, step, n);
      }
    }
  }

  /** Only taking a snapshot registers it, and it then sees the store as it is now. */
  lemma StillRegistered(s: State, step: Step, n: Snap)
    requires Inv(s) && Enabled(s, step) && n in Apply(s, step).epochOf && (n in s.epochOf ==> step == Drop(n))
    ensures step == Take(n) && View(Apply(s, step).hist, Apply(s, step).epochOf[n]) == Now(s)
  {
    if step == Drop(n) {
      var k := SnapEntry(s, n);
    }
  }

  lemma {:induction false} RunConserves(s: State, steps: seq<Step>, sum: int)
    requires Inv(s) && Legal(s, steps) && AllEven(s, steps) && Conserved(s, sum)
    ensures Conserved(Run(s, steps), sum)
    decreases |steps|
  {
    if |steps| > 0 {
      StepKeeps(s, steps[0]);
      StepConserves(s, steps[0], sum);
      RunConserves(Apply(s, steps[0]), steps[1..], sum);
    }
  }

  // ---------------------------------------------------------------------------------------------
  // What a caller can see to
  // ---------------------------------------------------------------------------------------------

  /** A commit adds nothing in sum to what its transaction copied. */
  ghost predicate Balanced(s: State, step: Step)
    requires WF(s) && Enabled(s, step)
  {
    step.Bump? ==> Net(s.phase.box, |s.hist|) == 0
  }

  /** No snapshot is taken, and so no transaction is restarted, with local values at hand. */
  ghost predicate TakenEmpty(s: State, step: Step) {
    step.Take? && step.snap in s.boxes ==> s.boxes[step.snap] == map[]
  }

  ghost predicate AllCareful(s: State, steps: seq<Step>)
    requires WF(s) && Legal(s, steps)
    decreases |steps|
  {
    |steps| > 0 ==>
      Balanced(s, steps[0]) && TakenEmpty(s, steps[0]) && AllCareful(Apply(s, steps[0]), steps[1..])
  }

  /** Every local value was copied from the snapshot that its transaction has. */
  ghost predicate AllLive(s: State)
    requires WF(s)
  {
    && (forall n, x :: n in s.epochOf && x in s.boxes[n] ==> s.boxes[n][x].live)
    && (s.phase.SettingUp? ==> forall x :: x in s.phase.box ==> s.phase.box[x].live)
  }

  lemma StepLive(s: State, step: Step)
    requires WF(s) && Enabled(s, step) && AllLive(s) && TakenEmpty(s, step)
    ensures AllLive(Apply(s, step))
  {
  }

  lemma {:induction false} NetGain(box: Box, view: seq<int>, n: nat)
    requires n <= |view| && forall x :: 0 <= x < n && x in box ==> box[x].base == view[x]
    ensures Gain(box, view, n) == Net(box, n)
  {
    if n > 0 {
      NetGain(box, view, n - 1);
    }
  }

  lemma CopiedOwn(s: State, x: Obj)
    requires Inv(s) && Enabled(s, Bump) && AllLive(s) && x < |s.hist| && x in s.phase.box
    ensures s.phase.box[x].base == OwnView(s)[x]
  {
    ViewIsIdeal(s, s.phase.snap);
    assert View(s.ideal, s.epochOf[s.phase.snap])[x] == ValueAt(s.ideal[x], s.epochOf[s.phase.snap]);
  }

  /** A transaction that brought no local values along overwrites only what it read, so its commit is even exactly
      when it is balanced. */
  lemma LiveEven(s: State, step: Step)
    requires Inv(s) && Enabled(s, step) && AllLive(s)
    ensures Even(s, step) <==> Balanced(s, step)
  {
    if step.Bump? {
      forall x | 0 <= x < |s.hist| && x in s.phase.box ensures s.phase.box[x].base == OwnView(s)[x] {
        CopiedOwn(s, x);
      }
      NetGain(s.phase.box, OwnView(s), |s.hist|);
    }
  }

  lemma {:induction false} CarefulEven(s: State, steps: seq<Step>)
    requires Inv(s) && Legal(s, steps) && AllLive(s) && AllCareful(s, steps)
    ensures AllEven(s, steps)
    decreases |steps|
  {
    if |steps| > 0 {
      StepKeeps(s, steps[0]);
      StepLive(s, steps[0]);
      LiveEven(s, steps[0]);
      CarefulEven(Apply(s, steps[0]), steps[1..]);
    }
  }

  /** When every transaction's writes sum to zero against what it copied, and none is restarted with local values
      at hand, every registered snapshot in every reachable state sees the initial total. */
  lemma TotalIsConserved(values: seq<int>, epoch: Epoch, steps: seq<Step>, n: Snap)
    requires epoch >= 1 && Legal(Init(values, epoch), steps) && AllCareful(Init(values, epoch), steps)
    requires n in Run(Init(values, epoch), steps).epochOf
    ensures var s := Run(Init(values, epoch), steps);
            Sum(View(s.hist, s.epochOf[n])) == Sum(values)
  {
    var s0 := Init(values, epoch);
    InitHolds(values, epoch);
    assert Now(s0) == values;
    CarefulEven(s0, steps);
    RunConserves(s0, steps, Sum(values));
  }
}
