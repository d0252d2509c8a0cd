/** Runs of a store with one object, put together from whole transactions. */
module OneObject {
  import opened Histories
  import opened Snapshots
  import opened Mvcc
  import opened MvccSteps
  import opened MvccRuns
  import opened Lists
  import opened CommitStages

  /** What matters of such a store between transactions. */
  datatype Shape = Shape(current: Epoch, earliest: Epoch, es: seq<Entry>, epochOf: map<Snap, Epoch>, h: History<int>)

  ghost predicate Has(s: State, p: Shape) {
    && WF(s) && s.info == Info(p.current, p.earliest, p.es) && s.epochOf == p.epochOf && s.hist == [p.h]
    && s.firstKey == [1] && s.phase.Idle? && s.inflight == multiset{}
    && forall n :: n in s.boxes ==> s.boxes[n] == map[]
  }

  datatype Move =
    | Opens(snap: Snap)                                   // a snapshot is taken
    | Writes(snap: Snap, value: int)                      // it writes the object and commits
    | Overtaken(snap: Snap, value: int, other: Snap)          // another is taken between the bump and the listing
    | Advances(snap: Snap)                                // it commits nothing, which moves the epoch on
    | Leaves(snap: Snap)                                  // it is dropped, and others stay at its epoch

  function StepsOf(move: Move): seq<Step> {
    match move
    case Opens(n) => [Take(n)]
    case Writes(n, v) => [Mutate(n, 0), Assign(n, 0, v)] + ThroughSteps(n, [0])
    case Overtaken(n, v, m) =>
      [Mutate(n, 0), Assign(n, 0, v), Begin(n, [0]), SetupNext, Bump, Take(m), RegisterNext, Finish]
    case Advances(n) => ThroughSteps(n, [])
    case Leaves(n) => [Drop(n)]
  }

  function AllSteps(moves: seq<Move>): seq<Step> {
    if |moves| == 0 then [] else AllSteps(moves[..|moves| - 1]) + StepsOf(moves[|moves| - 1])
  }

  predicate Can(p: Shape, move: Move) {
    match move
    case Opens(n) => n !in p.epochOf
    case Writes(n, _) => n in p.epochOf && |p.es| > 0 && NewestFrom(p.h) <= p.epochOf[n]
    case Overtaken(n, _, m) =>
      && n in p.epochOf && |p.es| > 0 && NewestFrom(p.h) <= p.epochOf[n] && m !in p.epochOf
      && p.es[|p.es| - 1].epoch <= p.current
    case Advances(n) => n in p.epochOf && |p.es| > 0
    case Leaves(n) =>
      && n in p.epochOf && IndexOf(p.es, p.epochOf[n]) < |p.es|
      && p.es[IndexOf(p.es, p.epochOf[n])].snapshots - {n} != {}
  }

  function Opened(p: Shape, n: Snap): Shape {
    p.(es := Register(Info(p.current, p.earliest, p.es), n).entries, epochOf := p.epochOf[n := p.current])
  }

  /** The obsolete version goes on the last list. */
  function ListedIn(es: seq<Entry>, h: History<int>): seq<Entry>
    requires |es| > 0
  {
    var n := |es| - 1;
    es[n := es[n].(cleanups := es[n].cleanups + [Token(0, NewestFrom(h))])]
  }

  function After(p: Shape, move: Move): Shape
    requires Can(p, move)
  {
    var to := p.current + 1;
    match move
    case Opens(n) => Opened(p, n)
    case Writes(_, v) => p.(current := to, es := ListedIn(p.es, p.h), h := Push(p.h, to, v))
    case Overtaken(_, v, m) =>
      p.(current := to, h := Push(p.h, to, v), epochOf := p.epochOf[m := to],
         es := p.es + [Entry(to, {m}, [Token(0, NewestFrom(p.h))])])
    case Advances(_) => p.(current := to)
    case Leaves(n) =>
      var k := IndexOf(p.es, p.epochOf[n]);
      p.(es := p.es[k := p.es[k].(snapshots := p.es[k].snapshots - {n})], epochOf := p.epochOf - {n})
  }

  // ---------------------------------------------------------------------------------------------
  // What each transaction does
  // ---------------------------------------------------------------------------------------------

  ghost predicate Does(s: State, move: Move, p: Shape) {
    WF(s) && Legal(s, StepsOf(move)) && Has(Run(s, StepsOf(move)), p)
  }

  lemma RunOne(s: State, step: Step)
    requires WF(s) && Enabled(s, step)
    ensures Legal(s, [step]) && Run(s, [step]) == Apply(s, step)
  {
    RunCons(s, step, []);
    assert [step] + [] == [step];
  }

  lemma RunTwo(s: State, a: Step, b: Step, rest: seq<Step>)
    requires WF(s) && Enabled(s, a) && Enabled(Apply(s, a), b) && Legal(Apply(Apply(s, a), b), rest)
    ensures Legal(s, [a, b] + rest) && Run(s, [a, b] + rest) == Run(Apply(Apply(s, a), b), rest)
  {
    RunCons(Apply(s, a), b, rest);
    RunCons(s, a, [b] + rest);
    assert [a] + ([b] + rest) == [a, b] + rest;
  }

  lemma RunTwoThen(s: State, a: Step, b: Step, first: seq<Step>, rest: seq<Step>)
    requires WF(s) && Enabled(s, a) && Enabled(Apply(s, a), b)
    requires Legal(Apply(Apply(s, a), b), first) && Legal(Run(Apply(Apply(s, a), b), first), rest)
    ensures Legal(s, [a, b] + (first + rest))
    ensures Run(s, [a, b] + (first + rest)) == Run(Run(Apply(Apply(s, a), b), first), rest)
  {
    RunAppend(Apply(Apply(s, a), b), first, rest);
    RunTwo(s, a, b, first + rest);
  }

  lemma RunThree(s: State, a: Step, b: Step, c: Step)
    requires WF(s) && Enabled(s, a) && Enabled(Apply(s, a), b) && Enabled(Apply(Apply(s, a), b), c)
    ensures Legal(s, [a, b, c]) && Run(s, [a, b, c]) == Apply(Apply(Apply(s, a), b), c)
  {
    RunOne(Apply(Apply(s, a), b), c);
    RunTwo(s, a, b, [c]);
    assert [a, b] + [c] == [a, b, c];
  }

  lemma DoesOpen(s: State, p: Shape, n: Snap)
    requires Has(s, p) && Can(p, Opens(n))
    ensures Does(s, Opens(n), After(p, Opens(n)))
  {
    RunOne(s, Take(n));
  }

  lemma DoesLeave(s: State, p: Shape, n: Snap)
    requires Has(s, p) && Can(p, Leaves(n))
    ensures Does(s, Leaves(n), After(p, Leaves(n)))
  {
    var nothing: seq<Token> := [];
    assert multiset{} + multiset(nothing) == multiset{};
    RunOne(s, Drop(n));
  }

  lemma ListsNothing(info: Info)
    requires |info.entries| > 0
    ensures ListAll(info, []) == info
  {
    var n := |info.entries| - 1;
    assert info.entries[n].cleanups + [] == info.entries[n].cleanups;
    assert ListAll(info, []).entries == info.entries;
  }

  lemma DoesAdvance(s: State, p: Shape, n: Snap)
    requires Has(s, p) && Can(p, Advances(n))
    ensures Does(s, Advances(n), After(p, Advances(n)))
  {
    CommitGoesThrough(s, n, []);
    var s' := Run(s, ThroughSteps(n, []));
    assert s'.hist == s.hist;
    assert s'.firstKey == s.firstKey;
    assert Obsolete(s'.hist, []) == [];
    ListsNothing(s.info.(current := p.current + 1));
  }

  /** The store with a local value to commit. */
  lemma Assigned(s: State, p: Shape, n: Snap, v: int) returns (b: State)
    requires Has(s, p) && n in p.epochOf
    ensures WF(s) && Enabled(s, Mutate(n, 0)) && Enabled(Apply(s, Mutate(n, 0)), Assign(n, 0, v))
    ensures b == Apply(Apply(s, Mutate(n, 0)), Assign(n, 0, v))
    ensures b == s.(boxes := b.boxes) && b.boxes.Keys == s.boxes.Keys
    ensures b.boxes[n].Keys == {0} && b.boxes[n][0].value == v
    ensures forall m :: m in b.boxes && m != n ==> b.boxes[m] == map[]
  {
    var a := Apply(s, Mutate(n, 0));
    b := Apply(a, Assign(n, 0, v));
  }

  lemma Commits(b: State, p: Shape, n: Snap, v: int)
    requires WF(b) && b.info == Info(p.current, p.earliest, p.es) && b.epochOf == p.epochOf && b.hist == [p.h]
    requires b.firstKey == [1] && b.phase.Idle? && b.inflight == multiset{}
    requires n in p.epochOf && |p.es| > 0 && NewestFrom(p.h) <= p.epochOf[n]
    requires b.boxes[n].Keys == {0} && b.boxes[n][0].value == v
    requires forall m :: m in b.boxes && m != n ==> b.boxes[m] == map[]
    ensures Legal(b, ThroughSteps(n, [0])) && Has(Run(b, ThroughSteps(n, [0])), After(p, Writes(n, v)))
  {
    CommitGoesThrough(b, n, [0]);
    var s' := Run(b, ThroughSteps(n, [0]));
    assert s'.hist == [Push(p.h, p.current + 1, v)];
    assert Obsolete(s'.hist, [0]) == [Token(0, NewestFrom(p.h))];
    assert s'.firstKey == [1];
  }

  lemma DoesWrite(s: State, p: Shape, n: Snap, v: int)
    requires Has(s, p) && Can(p, Writes(n, v))
    ensures Does(s, Writes(n, v), After(p, Writes(n, v)))
  {
    var b := Assigned(s, p, n, v);
    Commits(b, p, n, v);
    RunTwo(s, Mutate(n, 0), Assign(n, 0, v), ThroughSteps(n, [0]));
  }

  /** The commit has bumped the epoch and listed nothing yet. */
  lemma Bumps(b: State, p: Shape, n: Snap, v: int) returns (e: State)
    requires WF(b) && b.info == Info(p.current, p.earliest, p.es) && b.epochOf == p.epochOf && b.hist == [p.h]
    requires b.phase.Idle?
    requires n in p.epochOf && NewestFrom(p.h) <= p.epochOf[n] && b.boxes[n].Keys == {0} && b.boxes[n][0].value == v
    ensures Legal(b, [Begin(n, [0]), SetupNext, Bump]) && e == Run(b, [Begin(n, [0]), SetupNext, Bump])
    ensures e == b.(info := Info(p.current + 1, p.earliest, p.es), hist := [Push(p.h, p.current + 1, v)],
                    ideal := e.ideal, log := e.log, boxes := b.boxes[n := map[]],
                    phase := Registering(n, [0], b.boxes[n], 0))
  {
    var c := Apply(b, Begin(n, [0]));
    var d := Apply(c, SetupNext);
    assert d.hist == [Push(p.h, p.current + 1, v)];
    e := Apply(d, Bump);
    RunThree(b, Begin(n, [0]), SetupNext, Bump);
  }

  lemma ListsLate(e: State, p: Shape, n: Snap, v: int, m: Snap)
    requires WF(e) && e.info == Info(p.current + 1, p.earliest, p.es) && e.hist == [Push(p.h, p.current + 1, v)]
    requires e.epochOf == p.epochOf && e.firstKey == [1] && e.inflight == multiset{} && Can(p, Overtaken(n, v, m))
    requires e.phase.Registering? && e.phase.order == [0] && e.phase.done == 0
    requires forall n :: n in e.boxes ==> e.boxes[n] == map[]
    ensures Legal(e, [Take(m), RegisterNext, Finish])
    ensures Has(Run(e, [Take(m), RegisterNext, Finish]), After(p, Overtaken(n, v, m)))
  {
    var f := Apply(e, Take(m));
    assert f.info.entries == p.es + [Entry(p.current + 1, {m}, [])];
    var g := Apply(f, RegisterNext);
    assert PreviousFrom(f.hist[0]) == NewestFrom(p.h);
    assert [] + [Token(0, NewestFrom(p.h))] == [Token(0, NewestFrom(p.h))];
    assert g.info.entries == p.es + [Entry(p.current + 1, {m}, [Token(0, NewestFrom(p.h))])];
    assert g.firstKey == [1];
    RunThree(e, Take(m), RegisterNext, Finish);
  }

  lemma DoesRace(s: State, p: Shape, n: Snap, v: int, m: Snap)
    requires Has(s, p) && Can(p, Overtaken(n, v, m))
    ensures Does(s, Overtaken(n, v, m), After(p, Overtaken(n, v, m)))
  {
    var b := Assigned(s, p, n, v);
    var e := Bumps(b, p, n, v);
    ListsLate(e, p, n, v, m);
    RaceJoined(n, v, m);
    RunTwoThen(s, Mutate(n, 0), Assign(n, 0, v), [Begin(n, [0]), SetupNext, Bump], [Take(m), RegisterNext, Finish]);
  }

  lemma RaceJoined(n: Snap, v: int, m: Snap)
    ensures StepsOf(Overtaken(n, v, m)) ==
            [Mutate(n, 0), Assign(n, 0, v)] + ([Begin(n, [0]), SetupNext, Bump] + [Take(m), RegisterNext, Finish])
  {
  }

  lemma DoesMove(s: State, p: Shape, move: Move)
    requires Has(s, p) && Can(p, move)
    ensures Does(s, move, After(p, move))
  {
    match move
    case Opens(n) => DoesOpen(s, p, n);
    case Writes(n, v) => DoesWrite(s, p, n, v);
    case Overtaken(n, v, m) => DoesRace(s, p, n, v, m);
    case Advances(n) => DoesAdvance(s, p, n);
    case Leaves(n) => DoesLeave(s, p, n);
  }

  // ---------------------------------------------------------------------------------------------
  // Whole runs
  // ---------------------------------------------------------------------------------------------

  /** The moves, made from the initial store, are a legal run, and lead to a store of this shape. */
  ghost predicate LeadsTo(value: int, epoch: Epoch, moves: seq<Move>, p: Shape) {
    epoch >= 1 && Legal(Init([value], epoch), AllSteps(moves)) && Has(Run(Init([value], epoch), AllSteps(moves)), p)
  }

  lemma Starts(value: int, epoch: Epoch)
    requires epoch >= 1
    ensures LeadsTo(value, epoch, [], Shape(epoch, epoch, [], map[], History([], value)))
  {
    assert Init([value], epoch).hist == [History([], value)];
  }

  lemma Then(value: int, epoch: Epoch, moves: seq<Move>, p: Shape, move: Move)
    requires LeadsTo(value, epoch, moves, p) && Can(p, move)
    ensures LeadsTo(value, epoch, moves + [move], After(p, move))
  {
    var s0 := Init([value], epoch);
    DoesMove(Run(s0, AllSteps(moves)), p, move);
    RunAppend(s0, AllSteps(moves), StepsOf(move));
    assert (moves + [move])[..|moves|] == moves;
    assert AllSteps(moves + [move]) == AllSteps(moves) + StepsOf(move);
  }

  /** Move number `i` leads from one shape to the next. */
  predicate LeadsOn(moves: seq<Move>, shapes: seq<Shape>, i: nat)
    requires i < |moves| && |shapes| == |moves| + 1
  {
    Can(shapes[i], moves[i]) && After(shapes[i], moves[i]) == shapes[i + 1]
  }

  lemma {:induction false} Path(value: int, epoch: Epoch, moves: seq<Move>, shapes: seq<Shape>, m: nat)
    requires epoch >= 1 && |shapes| == |moves| + 1 && m <= |moves|
    requires shapes[0] == Shape(epoch, epoch, [], map[], History([], value))
    requires forall i :: 0 <= i < |moves| ==> LeadsOn(moves, shapes, i)
    ensures LeadsTo(value, epoch, moves[..m], shapes[m])
  {
    if m == 0 {
      Starts(value, epoch);
    } else {
      var k := m - 1;
      Path(value, epoch, moves, shapes, k);
      PathNext(value, epoch, moves, shapes, k, m);
    }
  }

  lemma PathNext(value: int, epoch: Epoch, moves: seq<Move>, shapes: seq<Shape>, k: nat, m: nat)
    requires m == k + 1 <= |moves| && |shapes| == |moves| + 1
    requires LeadsOn(moves, shapes, k) && LeadsTo(value, epoch, moves[..k], shapes[k])
    ensures LeadsTo(value, epoch, moves[..m], shapes[m])
  {
    Then(value, epoch, moves[..k], shapes[k], moves[k]);
    assert moves[..m] == moves[..k] + [moves[k]];
  }

  /** A run given move by move, with every shape on the way: it leads to the last one, and keeps what every run
      keeps. */
  lemma WholePath(value: int, epoch: Epoch, moves: seq<Move>, shapes: seq<Shape>)
    requires epoch >= 1 && |shapes| == |moves| + 1
    requires shapes[0] == Shape(epoch, epoch, [], map[], History([], value))
    requires forall i :: 0 <= i < |moves| ==> LeadsOn(moves, shapes, i)
    ensures LeadsTo(value, epoch, moves, shapes[|moves|])
    ensures Inv(Run(Init([value], epoch), AllSteps(moves))) && ListsOk(Run(Init([value], epoch), AllSteps(moves)))
  {
    Path(value, epoch, moves, shapes, |moves|);
    assert moves[..|moves|] == moves;
    ReachedListsOk([value], epoch, AllSteps(moves));
  }
}
