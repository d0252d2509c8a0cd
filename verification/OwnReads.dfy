/** What a transaction reads: its own writes, or else what its snapshot sees; and what becomes of what it wrote. */
module OwnReads {
  import opened Histories
  import opened Snapshots
  import opened Mvcc
  import opened MvccSteps
  import opened MvccRuns

  /** What transaction `n` reads of object `x`. */
  ghost function Reads(s: State, n: Snap, x: Obj): int
    requires WF(s) && n in s.epochOf && x < |s.hist|
  {
    if x in s.boxes[n] then s.boxes[n][x].value else ValueAt(s.hist[x], s.epochOf[n])
  }

  /** The step neither writes object `x` for transaction `n` nor takes the local values away. */
  predicate KeepsLocal(step: Step, n: Snap, x: Obj) {
    && step != Clear(n)
    && !(step.Begin? && step.snap == n)
    && !(step.Assign? && step.snap == n && step.obj == x)
  }

  lemma BoxStep(s: State, step: Step, n: Snap, x: Obj)
    requires WF(s) && Enabled(s, step) && n in s.boxes && KeepsLocal(step, n, x)
    ensures n in Apply(s, step).boxes
    ensures x in s.boxes[n] ==>
              && x in Apply(s, step).boxes[n]
              && Apply(s, step).boxes[n][x].value == s.boxes[n][x].value
              && Apply(s, step).boxes[n][x].base == s.boxes[n][x].base
    ensures x !in s.boxes[n] && step != Mutate(n, x) ==> x !in Apply(s, step).boxes[n]
  {
  }

  lemma StepReads(s: State, step: Step, n: Snap, x: Obj)
    requires Inv(s) && Enabled(s, step) && n in s.epochOf && x < |s.hist| && KeepsLocal(step, n, x) && step != Drop(n)
    ensures n in Apply(s, step).epochOf && Reads(Apply(s, step), n, x) == Reads(s, n, x)
  {
    var s' := Apply(s, step);
    StepFrozen(s, step, n);
    BoxStep(s, step, n, x);
    assert View(s'.hist, s'.epochOf[n])[x] == View(s.hist, s.epochOf[n])[x];
    if step == Mutate(n, x) {
      assert s'.boxes[n][x].value == Reads(s, n, x);
    }
  }

  /** Whatever other transactions do, and whatever it mutates or writes elsewhere itself, a transaction reads the same
      of an object until it writes it, commits, clears its local values or drops its snapshot. */
  lemma {:induction false} ReadsUnmoved(s: State, steps: seq<Step>, n: Snap, x: Obj)
    requires Inv(s) && Legal(s, steps) && n in s.epochOf && x < |s.hist|
    requires Drop(n) !in steps && forall step :: step in steps ==> KeepsLocal(step, n, x)
    ensures n in Run(s, steps).epochOf && Reads(Run(s, steps), n, x) == Reads(s, n, x)
    decreases |steps|
  {
    if |steps| > 0 {
      assert steps[0] in steps;
      StepReads(s, steps[0], n, x);
      StepKeeps(s, steps[0]);
      ReadsUnmoved(Apply(s, steps[0]), steps[1..], n, x);
    }
  }

  /** A local value stays what it is, and so does what it was copied from, for as long, and through restarts besides. */
  lemma {:induction false} LocalStays(s: State, steps: seq<Step>, n: Snap, x: Obj)
    requires WF(s) && Legal(s, steps) && n in s.boxes && x in s.boxes[n]
    requires forall step :: step in steps ==> KeepsLocal(step, n, x)
    ensures n in Run(s, steps).boxes && x in Run(s, steps).boxes[n]
    ensures Run(s, steps).boxes[n][x].value == s.boxes[n][x].value
    ensures Run(s, steps).boxes[n][x].base == s.boxes[n][x].base
    decreases |steps|
  {
    if |steps| > 0 {
      assert steps[0] in steps;
      BoxStep(s, steps[0], n, x);
      LocalStays(Apply(s, steps[0]), steps[1..], n, x);
    }
  }

  /** A transaction reads what it wrote last, restarted or not. */
  lemma ReadsOwnWrite(s: State, n: Snap, x: Obj, v: int, steps: seq<Step>)
    requires WF(s) && Enabled(s, Assign(n, x, v)) && Legal(Apply(s, Assign(n, x, v)), steps)
    requires forall step :: step in steps ==> KeepsLocal(step, n, x)
    ensures var s' := Run(Apply(s, Assign(n, x, v)), steps);
            && n in s'.boxes && x in s'.boxes[n] && s'.boxes[n][x].value == v && x < |s'.hist|
            && (n in s'.epochOf ==> Reads(s', n, x) == v)
  {
    LocalStays(Apply(s, Assign(n, x, v)), steps, n, x);
  }

  /** And when it commits, that is what every new snapshot sees from the bump on. */
  lemma LastWriteCommits(s: State, n: Snap, x: Obj, v: int, steps: seq<Step>, order: seq<Obj>, more: seq<Step>)
    requires Inv(s) && Enabled(s, Assign(n, x, v)) && Legal(Apply(s, Assign(n, x, v)), steps)
    requires forall step :: step in steps ==> KeepsLocal(step, n, x)
    requires var p := Run(Apply(s, Assign(n, x, v)), steps);
             && Enabled(p, Begin(n, order)) && Legal(Apply(p, Begin(n, order)), more)
             && Bump !in more && (forall step :: step in more ==> !step.Begin?)
             && Enabled(Run(Apply(p, Begin(n, order)), more), Bump)
    ensures x < |s.hist|
    ensures var p := Run(Apply(s, Assign(n, x, v)), steps);
            Now(Apply(Run(Apply(p, Begin(n, order)), more), Bump))[x] == v
  {
    var a := Apply(s, Assign(n, x, v));
    StepKeeps(s, Assign(n, x, v));
    RunKeeps(a, steps);
    ReadsOwnWrite(s, n, x, v, steps);
    CommitIsAtomic(Run(a, steps), n, order, more);
  }
}
