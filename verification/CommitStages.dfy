/** The stages that one undisturbed commit goes through, in closed form. */
module CommitStages {
  import opened Histories
  import opened Snapshots
  import opened Mvcc
  import opened MvccSteps
  import opened MvccRuns

  /** The commit has begun and set up nothing yet. */
  ghost predicate Begun(s: State) {
    WF(s) && NextEpoch(s) && s.phase.SettingUp? && s.phase.done == 0
  }

  /** The first `i` objects of the commit see no version newer than the transaction's snapshot. */
  ghost predicate Passes(s: State, i: nat)
    requires Begun(s) && i <= |s.phase.order|
  {
    forall k :: 0 <= k < i ==>
        s.phase.order[k] < |s.hist| && NewestFrom(s.hist[s.phase.order[k]]) <= s.epochOf[s.phase.snap]
  }

  ghost function Pushed(s: State, from: nat, to: nat): (r: seq<History<int>>)
    requires Begun(s) && from <= to <= |s.phase.order|
    ensures |r| == |s.hist|
  {
    PushAll(s.hist, s.phase.order[from..to], s.phase.box, s.info.current + 1)
  }

  ghost function AtSetup(s: State, i: nat): (r: State)
    requires Begun(s) && i <= |s.phase.order|
    ensures WF(r) && |r.hist| == |s.hist|
  {
    s.(hist := Pushed(s, 0, i), phase := SettingUp(s.phase.snap, s.phase.order, s.phase.box, i, s.phase.to))
  }

  ghost function AtRollback(s: State, i: nat, j: nat): (r: State)
    requires Begun(s) && j <= i <= |s.phase.order|
    ensures WF(r) && |r.hist| == |s.hist|
  {
    s.(hist := Pushed(s, j, i), phase := RollingBack(s.phase.snap, s.phase.order, s.phase.box, i, j))
  }

  lemma SetupStage(s: State, i: nat)
    requires Begun(s) && i < |s.phase.order|
    ensures var x, p := s.phase.order[i], AtSetup(s, i);
            && x < |s.hist| && x in s.phase.box && x == NextObj(p) && p.hist[x] == s.hist[x]
            && ApplySetup(p) ==
              (if NewestFrom(s.hist[x]) <= s.epochOf[s.phase.snap] then AtSetup(s, i + 1) else AtRollback(s, i, 0))
  {
    var order, p := s.phase.order, AtSetup(s, i);
    var x := order[i];
    assert x in order && x !in order[0..i];
    assert order[0..i + 1] == order[0..i] + [x];
    if NewestFrom(s.hist[x]) <= s.epochOf[s.phase.snap] {
      assert ApplySetup(p).hist == AtSetup(s, i + 1).hist;
    }
  }

  lemma PushedNext(s: State, i: nat, c: nat)
    requires Begun(s) && i < |s.phase.order| && c == i + 1
    ensures var x := s.phase.order[i];
            && x < |s.hist| && x in s.phase.box && Pushed(s, 0, i)[x] == s.hist[x]
            && Pushed(s, 0, c) == Pushed(s, 0, i)[x := Push(s.hist[x], s.info.current + 1, s.phase.box[x].value)]
  {
    var order := s.phase.order;
    var x := order[i];
    assert x in order && x !in order[0..i];
    assert order[0..i + 1] == order[0..i] + [x];
  }

  lemma PoppedNext(s: State, i: nat, j: nat, c: nat)
    requires Begun(s) && j < i <= |s.phase.order| && c == j + 1
    ensures var x := s.phase.order[j];
            && x < |s.hist| && |Pushed(s, j, i)[x].past| > 0
            && Pushed(s, c, i) == Pushed(s, j, i)[x := Pop(Pushed(s, j, i)[x])]
  {
    RollbackStage(s, i, j);
  }

  lemma RollbackStage(s: State, i: nat, j: nat)
    requires Begun(s) && j < i <= |s.phase.order|
    ensures var x, p := s.phase.order[j], AtRollback(s, i, j);
            && x < |s.hist| && x == NextObj(p) && |p.hist[x].past| > 0 && Pop(p.hist[x]) == s.hist[x]
            && ApplyRollback(p) == AtRollback(s, i, j + 1)
  {
    var order, p := s.phase.order, AtRollback(s, i, j);
    var x := order[j];
    assert order[j..i] == [x] + order[j + 1..i];
    assert x in order && x !in order[j + 1..i];
    PopUndoesPush(s.hist[x], s.info.current + 1, s.phase.box[x].value);
    assert ApplyRollback(p).hist == AtRollback(s, i, j + 1).hist;
  }

  lemma RunThen(s: State, a: seq<Step>, step: Step)
    requires WF(s) && Legal(s, a) && Enabled(Run(s, a), step)
    ensures Legal(s, a + [step]) && Run(s, a + [step]) == Apply(Run(s, a), step)
  {
    var p := Run(s, a);
    RunCons(p, step, []);
    assert [step] + [] == [step];
    RunAppend(s, a, [step]);
  }

  function Times(step: Step, k: nat): seq<Step> {
    seq(k, _ => step)
  }

  lemma TimesNext(step: Step, k: nat)
    ensures Times(step, k + 1) == Times(step, k) + [step]
  {
  }

  lemma {:induction false} SetupRun(s: State, i: nat)
    requires Begun(s) && i <= |s.phase.order| && Passes(s, i)
    ensures Legal(s, Times(SetupNext, i)) && Run(s, Times(SetupNext, i)) == AtSetup(s, i)
  {
    if i == 0 {
      assert AtSetup(s, 0).hist == s.hist;
    } else {
      SetupRun(s, i - 1);
      SetupStage(s, i - 1);
      TimesNext(SetupNext, i - 1);
      RunThen(s, Times(SetupNext, i - 1), SetupNext);
    }
  }

  lemma {:induction false} RollbackRun(s: State, i: nat, j: nat)
    requires Begun(s) && j <= i <= |s.phase.order|
    ensures Legal(AtRollback(s, i, 0), Times(RollbackNext, j))
    ensures Run(AtRollback(s, i, 0), Times(RollbackNext, j)) == AtRollback(s, i, j)
  {
    if j > 0 {
      RollbackRun(s, i, j - 1);
      RollbackStage(s, i, j - 1);
      TimesNext(RollbackNext, j - 1);
      RunThen(AtRollback(s, i, 0), Times(RollbackNext, j - 1), RollbackNext);
    }
  }

  // ---------------------------------------------------------------------------------------------
  // Listing what a commit made obsolete
  // ---------------------------------------------------------------------------------------------

  /** The versions before the newest ones, in the order of the commit. */
  function Obsolete(hist: seq<History<int>>, order: seq<Obj>): (r: seq<Token>)
    requires forall x :: x in order ==> x < |hist| && |hist[x].past| > 0
    ensures |r| == |order|
  {
    seq(|order|, k requires 0 <= k < |order| =>
      assert order[k] in order; Token(order[k], PreviousFrom(hist[order[k]])))
  }

  function ListAll(info: Info, ts: seq<Token>): Info
    requires |info.entries| > 0
  {
    var n := |info.entries|;
    var e := info.entries[n - 1];
    info.(entries := info.entries[n - 1 := e.(cleanups := e.cleanups + ts)])
  }

  function FirstKeys(firstKey: seq<nat>, hist: seq<History<int>>, order: seq<Obj>): (r: seq<nat>)
    requires |hist| == |firstKey|
    ensures |r| == |firstKey|
  {
    seq(|firstKey|, x requires 0 <= x < |firstKey| => if x in order && |hist[x].past| == 1 then 1 else firstKey[x])
  }

  /** The epoch has been bumped, with every object of the commit set up and none listed. */
  ghost predicate Bumped(b: State) {
    && WF(b) && b.phase.Registering? && b.phase.done == 0 && |b.info.entries| > 0
    && (forall x :: x in b.phase.order ==> x < |b.hist| && |b.hist[x].past| > 0)
  }

  ghost function AtRegister(b: State, j: nat): (r: State)
    requires Bumped(b) && j <= |b.phase.order|
    ensures WF(r) && |r.hist| == |b.hist|
  {
    var done := Prefix(b.phase.order, j);
    b.(info := ListAll(b.info, Obsolete(b.hist, done)),
       firstKey := FirstKeys(b.firstKey, b.hist, done),
       phase := Registering(b.phase.snap, b.phase.order, b.phase.box, j))
  }

  lemma RegisterStage(b: State, j: nat)
    requires Bumped(b) && j < |b.phase.order|
    ensures var x, p := b.phase.order[j], AtRegister(b, j);
            && x < |b.hist| && |b.hist[x].past| > 0 && x == NextObj(p) && |p.info.entries| > 0
            && ApplyRegister(p) == AtRegister(b, j + 1)
  {
    var order, p := b.phase.order, AtRegister(b, j);
    var x := order[j];
    assert x in order;
    assert order[..j + 1] == order[..j] + [x];
    assert Obsolete(b.hist, order[..j + 1]) == Obsolete(b.hist, order[..j]) + [Token(x, PreviousFrom(b.hist[x]))];
    var n := |b.info.entries| - 1;
    var ts := Obsolete(b.hist, order[..j]);
    assert b.info.entries[n].cleanups + (ts + [Token(x, PreviousFrom(b.hist[x]))])
           == b.info.entries[n].cleanups + ts + [Token(x, PreviousFrom(b.hist[x]))];
    assert ApplyRegister(p).firstKey == FirstKeys(b.firstKey, b.hist, order[..j + 1]);
  }

  /** Registering the next object takes the table to the next stage. */
  lemma RegisterInfo(b: State, j: nat, c: nat)
    requires Bumped(b) && j < |b.phase.order| && c == j + 1
    ensures var x := b.phase.order[j];
            && x < |b.hist| && |b.hist[x].past| > 0 && |AtRegister(b, j).info.entries| > 0
            && AddCleanup(AtRegister(b, j).info, Token(x, PreviousFrom(b.hist[x]))) == AtRegister(b, c).info
  {
    RegisterStage(b, j);
  }

  lemma RegisterStep(b: State, j: nat, c: nat)
    requires Bumped(b) && j < |b.phase.order| && c == j + 1
    ensures Enabled(AtRegister(b, j), RegisterNext) && Apply(AtRegister(b, j), RegisterNext) == AtRegister(b, c)
  {
    RegisterStage(b, j);
  }

  lemma RegisterNone(b: State)
    requires Bumped(b)
    ensures AtRegister(b, 0) == b
  {
    var n := |b.info.entries| - 1;
    assert b.info.entries[n].cleanups + [] == b.info.entries[n].cleanups;
    assert AtRegister(b, 0).info.entries == b.info.entries;
    assert AtRegister(b, 0).firstKey == b.firstKey;
  }

  lemma {:induction false} RegisterRun(b: State, j: nat)
    requires Bumped(b) && j <= |b.phase.order|
    ensures Legal(b, Times(RegisterNext, j)) && Run(b, Times(RegisterNext, j)) == AtRegister(b, j)
  {
    if j == 0 {
      RegisterNone(b);
    } else {
      var i := j - 1;
      RegisterRun(b, i);
      RegisterStep(b, i, j);
      TimesNext(RegisterNext, i);
      RunThen(b, Times(RegisterNext, i), RegisterNext);
    }
  }

  ghost function BumpedFrom(s: State): State
    requires Begun(s)
  {
    ApplyBump(AtSetup(s, |s.phase.order|))
  }

  lemma BumpedIs(s: State)
    requires Begun(s) && |s.info.entries| > 0
    ensures Bumped(BumpedFrom(s))
  {
  }

  // ---------------------------------------------------------------------------------------------
  // A whole commit
  // ---------------------------------------------------------------------------------------------

  /** Where snapshot `n` may commit its local values in the given order. */
  ghost predicate CanCommit(m: State, n: Snap, order: seq<Obj>) {
    WF(m) && Enabled(m, Begin(n, order)) && |m.info.entries| > 0
  }

  /** No object of the commit has a version that the snapshot does not see. */
  ghost predicate Current(m: State, n: Snap, order: seq<Obj>)
    requires n in m.epochOf
  {
    forall x :: x in order ==> x < |m.hist| && NewestFrom(m.hist[x]) <= m.epochOf[n]
  }

  /** The first object of the commit that has a version the snapshot does not see. */
  ghost predicate FirstStale(m: State, n: Snap, order: seq<Obj>, i: nat)
    requires CanCommit(m, n, order)
  {
    && i < |order| && Passes(ApplyBegin(m, n, order), i)
    && order[i] < |m.hist| && NewestFrom(m.hist[order[i]]) > m.epochOf[n]
  }

  lemma CurrentPasses(m: State, n: Snap, order: seq<Obj>)
    requires CanCommit(m, n, order)
    ensures Current(m, n, order) <==> Passes(ApplyBegin(m, n, order), |order|)
    ensures forall i :: FirstStale(m, n, order, i) ==> !Current(m, n, order)
  {
    forall k | 0 <= k < |order| ensures order[k] in order {
    }
  }

  function ThroughSteps(n: Snap, order: seq<Obj>): seq<Step> {
    [Begin(n, order)] + (Times(SetupNext, |order|) + [Bump] + Times(RegisterNext, |order|) + [Finish])
  }

  /** A commit that is refused at object `i`. */
  function RefusedSteps(n: Snap, order: seq<Obj>, i: nat): seq<Step> {
    [Begin(n, order)] + (Times(SetupNext, i) + [SetupNext] + Times(RollbackNext, i) + [Finish])
  }

  /** Everything that a commit that goes through changes. */
  ghost predicate WentThrough(m: State, m': State, n: Snap, order: seq<Obj>)
    requires CanCommit(m, n, order)
  {
    var to := m.info.current + 1;
    && m'.hist == PushAll(m.hist, order, m.boxes[n], to)
    && (forall x :: x in order ==> x < |m'.hist| && |m'.hist[x].past| > 0)
    && m'.info == ListAll(m.info.(current := to), Obsolete(m'.hist, order))
    && m'.ideal == PushAll(m.ideal, order, m.boxes[n], to)
    && m'.log == m.log + [Commit(m.epochOf[n], to, order)]
    && m'.epochOf == m.epochOf
    && m'.firstKey == FirstKeys(m.firstKey, m'.hist, order)
    && m'.boxes == m.boxes[n := map[]]
    && m'.inflight == m.inflight
    && m'.phase == Idle
  }

  /** All or nothing, the one way: a commit whose objects are all current is set up, made visible and listed for
      every object. */
  lemma CommitGoesThrough(m: State, n: Snap, order: seq<Obj>)
    requires CanCommit(m, n, order) && Current(m, n, order)
    ensures Legal(m, ThroughSteps(n, order)) && WentThrough(m, Run(m, ThroughSteps(n, order)), n, order)
  {
    var s, k := ApplyBegin(m, n, order), |order|;
    CurrentPasses(m, n, order);
    SetupRun(s, k);
    RunThen(s, Times(SetupNext, k), Bump);
    var b := BumpedFrom(s);
    BumpedIs(s);
    RegisterRun(b, k);
    var a := Times(SetupNext, k) + [Bump];
    RunAppend(s, a, Times(RegisterNext, k));
    RunThen(s, a + Times(RegisterNext, k), Finish);
    RunCons(m, Begin(n, order), a + Times(RegisterNext, k) + [Finish]);
    ThroughFields(m, n, order);
  }

  lemma ThroughFields(m: State, n: Snap, order: seq<Obj>)
    requires CanCommit(m, n, order) && Bumped(BumpedFrom(ApplyBegin(m, n, order)))
    ensures WentThrough(m, AtRegister(BumpedFrom(ApplyBegin(m, n, order)), |order|).(phase := Idle), n, order)
  {
    assert order[0..|order|] == order && order[..|order|] == order;
  }

  /** All or nothing, the other way: a commit that is refused at one object leaves everything as it was but for
      the transaction's local values, which are gone. */
  lemma CommitIsRefused(m: State, n: Snap, order: seq<Obj>, i: nat)
    requires CanCommit(m, n, order) && FirstStale(m, n, order, i)
    ensures Legal(m, RefusedSteps(n, order, i))
    ensures Run(m, RefusedSteps(n, order, i)) == m.(boxes := m.boxes[n := map[]])
  {
    var s := ApplyBegin(m, n, order);
    SetupRun(s, i);
    SetupStage(s, i);
    RunThen(s, Times(SetupNext, i), SetupNext);
    RollbackRun(s, i, i);
    var a := Times(SetupNext, i) + [SetupNext];
    RunAppend(s, a, Times(RollbackNext, i));
    RunThen(s, a + Times(RollbackNext, i), Finish);
    RunCons(m, Begin(n, order), a + Times(RollbackNext, i) + [Finish]);
    RefusedFields(m, n, order, i);
  }

  lemma RefusedFields(m: State, n: Snap, order: seq<Obj>, i: nat)
    requires CanCommit(m, n, order) && i <= |order|
    ensures AtRollback(ApplyBegin(m, n, order), i, i).(phase := Idle) == m.(boxes := m.boxes[n := map[]])
  {
    assert AtRollback(ApplyBegin(m, n, order), i, i).hist == m.hist;
  }

  // ---------------------------------------------------------------------------------------------
  // Either way
  // ---------------------------------------------------------------------------------------------

  function CommitSteps(n: Snap, order: seq<Obj>, through: bool, stale: nat): seq<Step> {
    if through then ThroughSteps(n, order) else RefusedSteps(n, order, stale)
  }

  /** What becomes of the objects and the table of snapshots. */
  ghost predicate Outcome(m: State, n: Snap, order: seq<Obj>, through: bool, info: Info, hist: seq<History<int>>)
    requires CanCommit(m, n, order)
  {
    if through then
      && hist == PushAll(m.hist, order, m.boxes[n], m.info.current + 1)
      && (forall x :: x in order ==> x < |hist| && |hist[x].past| > 0)
      && info == ListAll(m.info.(current := m.info.current + 1), Obsolete(hist, order))
    else
      hist == m.hist && info == m.info
  }

  lemma MayCommit(m: State, n: Snap, order: seq<Obj>)
    requires Inv(m) && Enabled(m, Begin(n, order))
    ensures CanCommit(m, n, order)
  {
    var k := SnapEntry(m, n);
  }

  /** Whatever shows the outcome of a commit shows the end of the machine's run. */
  lemma CommitEnds(m: State, n: Snap, order: seq<Obj>, through: bool, stale: nat, info: Info, hist: seq<History<int>>)
    requires CanCommit(m, n, order) && Outcome(m, n, order, through, info, hist)
    requires through <==> Current(m, n, order)
    requires !through ==> FirstStale(m, n, order, stale)
    ensures Legal(m, CommitSteps(n, order, through, stale))
    ensures var r := Run(m, CommitSteps(n, order, through, stale));
            && r.info == info && r.hist == hist && r.epochOf == m.epochOf && r.boxes == m.boxes[n := map[]]
            && r.inflight == m.inflight && r.phase == Idle
  {
    if through {
      CommitGoesThrough(m, n, order);
    } else {
      CommitIsRefused(m, n, order, stale);
    }
  }

  lemma PublishedOutcome(m: State, n: Snap, order: seq<Obj>, info: Info, hist: seq<History<int>>)
    requires CanCommit(m, n, order) && Bumped(BumpedFrom(ApplyBegin(m, n, order)))
    requires hist == Pushed(ApplyBegin(m, n, order), 0, |order|)
    requires info == ListAll(BumpedFrom(ApplyBegin(m, n, order)).info, Obsolete(hist, order))
    ensures Outcome(m, n, order, true, info, hist)
  {
    assert order[0..|order|] == order;
  }
}
