/** Stores that the renumbering of epochs gets wrong.  Each is the end of a run, keeps the rule of the latest snapshot,
    is between commits and has no cleanup under way. */
module CompressFailures {
  import opened Histories
  import opened Snapshots
  import opened Mvcc
  import opened MvccSteps
  import opened MvccRuns
  import opened Latest
  import opened Lists
  import opened Compress
  import opened CompressStages
  import opened CompressStore
  import opened OneObject

  /** The end of a run. */
  ghost function End(epoch: Epoch, moves: seq<Move>): State
    requires epoch >= 1 && Legal(Init([0], epoch), AllSteps(moves))
  {
    Run(Init([0], epoch), AllSteps(moves))
  }

  /** What a run given by its shapes leads to, and what the renumbering makes of it. */
  lemma Renumbers(epoch: Epoch, moves: seq<Move>, shapes: seq<Shape>, p: Shape)
    requires epoch >= 1 && |shapes| == |moves| + 1 && p == shapes[|moves|]
    requires shapes[0] == Shape(epoch, epoch, [], map[], History([], 0))
    requires forall i :: 0 <= i < |moves| ==> LeadsOn(moves, shapes, i)
    requires |p.es| > 0 && ListedSeen(p.es, [p.h], [1])
    ensures Legal(Init([0], epoch), AllSteps(moves)) && Compressible(End(epoch, moves)) && Has(End(epoch, moves), p)
    ensures var r := CompressAll(End(epoch, moves));
            && r.hist == [Renumber(p.es, p.h)] && r.epochOf == NewEpochs(p.es, p.epochOf)
            && r.info == Info(|p.es| + 1, 1, NewEntries(p.es))
  {
    WholePath(0, epoch, moves, shapes);
    ShapeRenumbered(End(epoch, moves), p);
  }

  lemma ShapeRenumbered(s: State, p: Shape)
    requires Inv(s) && ListsOk(s) && Has(s, p) && |p.es| > 0 && ListedSeen(p.es, [p.h], [1])
    ensures Compressible(s)
    ensures var r := CompressAll(s);
            && r.hist == [Renumber(p.es, p.h)] && r.epochOf == NewEpochs(p.es, p.epochOf)
            && r.info == Info(|p.es| + 1, 1, NewEntries(p.es))
  {
    CompressedHist(s, 0);
  }

  // ---------------------------------------------------------------------------------------------
  // The newest version does not start at a registered epoch
  // ---------------------------------------------------------------------------------------------

  /** Two snapshots are taken at epoch 10; the second changes the value from 0 to 200 at epoch 11, and goes. */
  function NewestMoves(): seq<Move> {
    [Opens(1), Opens(2), Writes(2, 200), Leaves(2)]
  }

  function UnregisteredNewest(): Shape {
    Shape(11, 10, [Entry(10, {1}, [Token(0, 1)])], map[1 := 10], History([Past(11, 0)], 200))
  }

  function NewestShapes(): seq<Shape> {
    [ Shape(10, 10, [], map[], History([], 0)),
      Shape(10, 10, [Entry(10, {1}, [])], map[1 := 10], History([], 0)),
      Shape(10, 10, [Entry(10, {1, 2}, [])], map[1 := 10, 2 := 10], History([], 0)),
      Shape(11, 10, [Entry(10, {1, 2}, [Token(0, 1)])], map[1 := 10, 2 := 10], History([Past(11, 0)], 200)),
      UnregisteredNewest() ]
  }

  lemma NewestPath()
    ensures forall i :: 0 <= i < 4 ==> LeadsOn(NewestMoves(), NewestShapes(), i)
  {
    var ms, ps := NewestMoves(), NewestShapes();
    assert {1} + {2} == {1, 2} && {1, 2} - {2} == {1};
    assert LeadsOn(ms, ps, 0);
    assert LeadsOn(ms, ps, 1);
    assert ListedIn(ps[2].es, ps[2].h) == ps[3].es by { assert [] + [Token(0, 1)] == [Token(0, 1)]; }
    assert Push(ps[2].h, 11, 200).past == ps[3].h.past;
    assert LeadsOn(ms, ps, 2);
    assert LeadsOn(ms, ps, 3);
  }

  lemma NewestReads(es: seq<Entry>, h: History<int>)
    requires es == [Entry(10, {1}, [Token(0, 1)])] && h == History([Past(11, 0)], 200)
    ensures ValueAt(h, 11) == 200 && ValueAt(Renumber(es, h), 2) == 0
  {
    RankIs(es, 11, 0);
    assert NewEnd(es, h, 0) == 11;
    ReadIndexCovers(Renumber(es, h), 2, 0);
  }

  lemma NewestSeen()
    ensures ListedSeen([Entry(10, {1}, [Token(0, 1)])], [History([Past(11, 0)], 200)], [1])
  {
  }

  /** A run to a store in which, after the renumbering, a new snapshot reads the old value. */
  lemma NewSnapshotMisreads()
    ensures Legal(Init([0], 10), AllSteps(NewestMoves()))
    ensures var s := End(10, NewestMoves());
            var s' := CompressAll(s);
            && Compressible(s)
            && ValueAt(s.hist[0], s.info.current) == 200
            && ValueAt(s'.hist[0], s'.info.current) == 0
  {
    var p := UnregisteredNewest();
    NewestPath();
    NewestSeen();
    Renumbers(10, NewestMoves(), NewestShapes(), p);
    NewestReads(p.es, p.h);
  }

  // ---------------------------------------------------------------------------------------------
  // Two registered epochs see the same version between the first and the newest
  // ---------------------------------------------------------------------------------------------

  /** The value 200 of epoch 11 is seen by snapshots at epochs 11 and 12, the second of which replaces it. */
  function MiddleMoves(): seq<Move> {
    [Opens(1), Writes(1, 200), Opens(2), Advances(2), Opens(3), Writes(3, 300), Opens(4)]
  }

  function MiddleEntries(): seq<Entry> {
    [Entry(10, {1}, [Token(0, 1)]), Entry(11, {2}, []), Entry(12, {3}, [Token(0, 11)]), Entry(13, {4}, [])]
  }

  function MiddleHistory(versions: nat): History<int> {
    if versions == 1 then History([], 0) else if versions == 2 then History([Past(11, 0)], 200)
    else History([Past(11, 0), Past(13, 200)], 300)
  }

  function SharedMiddle(): Shape {
    Shape(13, 10, MiddleEntries(), map[1 := 10, 2 := 11, 3 := 12, 4 := 13], MiddleHistory(3))
  }

  function MiddleShapes(): seq<Shape> {
    var first, second, third := Entry(10, {1}, [Token(0, 1)]), Entry(11, {2}, []), Entry(12, {3}, []);
    [ Shape(10, 10, [], map[], MiddleHistory(1)),
      Shape(10, 10, [Entry(10, {1}, [])], map[1 := 10], MiddleHistory(1)),
      Shape(11, 10, [first], map[1 := 10], MiddleHistory(2)),
      Shape(11, 10, [first, second], map[1 := 10, 2 := 11], MiddleHistory(2)),
      Shape(12, 10, [first, second], map[1 := 10, 2 := 11], MiddleHistory(2)),
      Shape(12, 10, [first, second, third], map[1 := 10, 2 := 11, 3 := 12], MiddleHistory(2)),
      Shape(13, 10, [first, second, third.(cleanups := [Token(0, 11)])], map[1 := 10, 2 := 11, 3 := 12],
            MiddleHistory(3)),
      SharedMiddle() ]
  }

  lemma MiddleBegins()
    ensures forall i :: 0 <= i < 3 ==> LeadsOn(MiddleMoves(), MiddleShapes(), i)
  {
    var ms, ps := MiddleMoves(), MiddleShapes();
    assert [] + [Token(0, 1)] == [Token(0, 1)];
    assert LeadsOn(ms, ps, 0);
    assert ListedIn(ps[1].es, ps[1].h) == ps[2].es && Push(ps[1].h, 11, 200).past == ps[2].h.past;
    assert LeadsOn(ms, ps, 1);
    assert LeadsOn(ms, ps, 2);
  }

  lemma MiddleEnds()
    ensures forall i :: 3 <= i < 7 ==> LeadsOn(MiddleMoves(), MiddleShapes(), i)
  {
    var ms, ps := MiddleMoves(), MiddleShapes();
    assert [] + [Token(0, 11)] == [Token(0, 11)];
    assert LeadsOn(ms, ps, 3);
    assert LeadsOn(ms, ps, 4);
    assert ListedIn(ps[5].es, ps[5].h) == ps[6].es && Push(ps[5].h, 13, 300).past == ps[6].h.past;
    assert LeadsOn(ms, ps, 5);
    assert LeadsOn(ms, ps, 6);
  }

  lemma MiddlePath()
    ensures forall i :: 0 <= i < 7 ==> LeadsOn(MiddleMoves(), MiddleShapes(), i)
  {
    MiddleBegins();
    MiddleEnds();
  }

  lemma MiddleSeen()
    ensures ListedSeen(MiddleEntries(), [MiddleHistory(3)], [1])
  {
    assert Key(MiddleHistory(3), 1, 0) == 1 && Key(MiddleHistory(3), 1, 1) == 11;
  }

  lemma MiddleReads()
    ensures ValueAt(MiddleHistory(3), 11) == 200
    ensures NewEpochs(MiddleEntries(), SharedMiddle().epochOf)[2] == 2
    ensures ValueAt(Renumber(MiddleEntries(), MiddleHistory(3)), 2) == 0
  {
    var es, h := MiddleEntries(), MiddleHistory(3);
    RankIs(es, 13, 2);
    RankIs(es, 13, 3);
    IndexOfEntry(es, 1);
    var r := Renumber(es, h);
    assert NewEnd(es, h, 0) == 3 && NewEnd(es, h, 1) == 4;
    ReadIndexCovers(r, 2, 0);
    ReadIndexCovers(h, 11, 1);
  }

  /** After the renumbering the earlier of the two, at epoch 11, reads the version before. */
  lemma EarlierSharerMisreads()
    ensures Legal(Init([0], 10), AllSteps(MiddleMoves()))
    ensures var s := End(10, MiddleMoves());
            var s' := CompressAll(s);
            && Compressible(s) && 2 in s.epochOf && 2 in s'.epochOf
            && ValueAt(s.hist[0], s.epochOf[2]) == 200
            && ValueAt(s'.hist[0], s'.epochOf[2]) == 0
  {
    MiddlePath();
    MiddleSeen();
    Renumbers(10, MiddleMoves(), MiddleShapes(), SharedMiddle());
    MiddleReads();
  }

  // ---------------------------------------------------------------------------------------------
  // Two registered epochs see the first version
  // ---------------------------------------------------------------------------------------------

  /** The first value is seen by snapshots at epochs 10 and 11, the second of which replaces it. */
  function FirstMoves(): seq<Move> {
    [Opens(1), Advances(1), Opens(2), Writes(2, 200), Opens(3)]
  }

  function FirstEntries(): seq<Entry> {
    [Entry(10, {1}, []), Entry(11, {2}, [Token(0, 1)]), Entry(12, {3}, [])]
  }

  function SharedFirst(): Shape {
    Shape(12, 10, FirstEntries(), map[1 := 10, 2 := 11, 3 := 12], History([Past(12, 0)], 200))
  }

  function FirstShapes(): seq<Shape> {
    [ Shape(10, 10, [], map[], History([], 0)),
      Shape(10, 10, [Entry(10, {1}, [])], map[1 := 10], History([], 0)),
      Shape(11, 10, [Entry(10, {1}, [])], map[1 := 10], History([], 0)),
      Shape(11, 10, [Entry(10, {1}, []), Entry(11, {2}, [])], map[1 := 10, 2 := 11], History([], 0)),
      Shape(12, 10, [Entry(10, {1}, []), Entry(11, {2}, [Token(0, 1)])], map[1 := 10, 2 := 11],
            History([Past(12, 0)], 200)),
      SharedFirst() ]
  }

  lemma FirstBegins()
    ensures forall i :: 0 <= i < 3 ==> LeadsOn(FirstMoves(), FirstShapes(), i)
  {
    var ms, ps := FirstMoves(), FirstShapes();
    assert LeadsOn(ms, ps, 0);
    assert LeadsOn(ms, ps, 1);
    assert LeadsOn(ms, ps, 2);
  }

  lemma FirstPath()
    ensures forall i :: 0 <= i < 5 ==> LeadsOn(FirstMoves(), FirstShapes(), i)
  {
    var ms, ps := FirstMoves(), FirstShapes();
    FirstBegins();
    assert [] + [Token(0, 1)] == [Token(0, 1)];
    assert ListedIn(ps[3].es, ps[3].h) == ps[4].es && Push(ps[3].h, 12, 200).past == ps[4].h.past;
    assert LeadsOn(ms, ps, 3);
    assert LeadsOn(ms, ps, 4);
  }

  lemma FirstSeen()
    ensures ListedSeen(FirstEntries(), [History([Past(12, 0)], 200)], [1])
  {
  }

  function FirstInfo(): Info {
    Info(4, 1, [Entry(1, {1}, []), Entry(2, {2}, [Token(0, 2)]), Entry(3, {3}, [])])
  }

  lemma FirstRenumbered()
    ensures var es, h := FirstEntries(), History([Past(12, 0)], 200);
            && Info(|es| + 1, 1, NewEntries(es)) == FirstInfo()
            && Renumber(es, h) == History([Past(3, 0)], 200) && Renumberable(es, h)
  {
    var es, h := FirstEntries(), History([Past(12, 0)], 200);
    RankIs(es, 12, 1);
    RankIs(es, 12, 2);
    assert Retag(es[1].cleanups, 2) == [Token(0, 2)];
    assert NewEnd(es, h, 0) == 3;
    assert Renumber(es, h).past == [Past(3, 0)];
    assert NewEntries(es) == FirstInfo().entries;
  }

  lemma FirstEnds(s: State)
    requires Has(s, SharedFirst())
    ensures AllRenumberable(s)
  {
    FirstRenumbered();
  }

  lemma FirstCleaned()
    ensures ValueAt(History([Past(3, 0)], 200), 1) == 0
    ensures Cleanup(History([Past(3, 0)], 200), 2) == Some(History([], 200)) && ValueAt(History([], 200), 1) == 200
  {
  }

  lemma LaterSharerLeaves()
    ensures Leave(FirstInfo(), 2, 1).1 == [Token(0, 2)]
  {
  }

  /** The renumbering itself keeps all reads here, but the list is wrong: when the later of the two
      snapshots goes, the version is handed back for cleanup although the earlier one still reads it. */
  lemma FirstVersionCleanedTooEarly()
    ensures Legal(Init([0], 10), AllSteps(FirstMoves()))
    ensures var s := End(10, FirstMoves());
            var s' := CompressAll(s);
            && Compressible(s) && AllRenumberable(s)
            && s'.info == FirstInfo() && s'.hist == [History([Past(3, 0)], 200)]
    ensures Leave(FirstInfo(), 2, 1).1 == [Token(0, 2)]
    ensures ValueAt(History([Past(3, 0)], 200), 1) == 0
    ensures Cleanup(History([Past(3, 0)], 200), 2) == Some(History([], 200)) && ValueAt(History([], 200), 1) == 200
  {
    FirstPath();
    FirstSeen();
    FirstRenumbered();
    Renumbers(10, FirstMoves(), FirstShapes(), SharedFirst());
    FirstEnds(End(10, FirstMoves()));
    LaterSharerLeaves();
    FirstCleaned();
  }

  // ---------------------------------------------------------------------------------------------
  // The first entry already carries its number
  // ---------------------------------------------------------------------------------------------

  /** The value of epoch 1 is replaced at epoch 3; epoch 2 has no snapshot. */
  function PassedMoves(): seq<Move> {
    [Opens(1), Advances(1), Writes(1, 200), Opens(2)]
  }

  function PassedEntries(): seq<Entry> {
    [Entry(1, {1}, [Token(0, 1)]), Entry(3, {2}, [])]
  }

  function PassedOver(): Shape {
    Shape(3, 1, PassedEntries(), map[1 := 1, 2 := 3], History([Past(3, 0)], 200))
  }

  function PassedShapes(): seq<Shape> {
    [ Shape(1, 1, [], map[], History([], 0)),
      Shape(1, 1, [Entry(1, {1}, [])], map[1 := 1], History([], 0)),
      Shape(2, 1, [Entry(1, {1}, [])], map[1 := 1], History([], 0)),
      Shape(3, 1, [Entry(1, {1}, [Token(0, 1)])], map[1 := 1], History([Past(3, 0)], 200)),
      PassedOver() ]
  }

  lemma PassedPath()
    ensures forall i :: 0 <= i < 4 ==> LeadsOn(PassedMoves(), PassedShapes(), i)
  {
    var ms, ps := PassedMoves(), PassedShapes();
    assert [] + [Token(0, 1)] == [Token(0, 1)];
    assert LeadsOn(ms, ps, 0);
    assert LeadsOn(ms, ps, 1);
    assert ListedIn(ps[2].es, ps[2].h) == ps[3].es && Push(ps[2].h, 3, 200).past == ps[3].h.past;
    assert LeadsOn(ms, ps, 2);
    assert LeadsOn(ms, ps, 3);
  }

  lemma PassedSeen()
    ensures ListedSeen(PassedEntries(), [History([Past(3, 0)], 200)], [1])
  {
  }

  lemma PassedReads()
    ensures var es, h := PassedEntries(), History([Past(3, 0)], 200);
            && ValueAt(h, 3) == 200
            && NewEpochs(es, PassedOver().epochOf)[2] == 2
            && ValueAt(Renumber(es, h), 2) == 0
  {
    var es, h := PassedEntries(), History([Past(3, 0)], 200);
    RankIs(es, 3, 0);
    RankIs(es, 3, 1);
    IndexOfEntry(es, 1);
    assert NewEnd(es, h, 0) == 3;
    ReadIndexCovers(Renumber(es, h), 2, 0);
    ReadIndexCovers(h, 3, 1);
  }

  /** The version listed by the entry that is passed over is not renamed, so the newest version is not
      found either; the snapshot that saw it, renumbered to 2, reads the one before. */
  lemma PassedOverMisreads()
    ensures Legal(Init([0], 1), AllSteps(PassedMoves()))
    ensures var s := End(1, PassedMoves());
            var s' := CompressAll(s);
            && Compressible(s) && 2 in s.epochOf && 2 in s'.epochOf
            && ValueAt(s.hist[0], s.epochOf[2]) == 200
            && ValueAt(s'.hist[0], s'.epochOf[2]) == 0
  {
    PassedPath();
    PassedSeen();
    Renumbers(1, PassedMoves(), PassedShapes(), PassedOver());
    PassedReads();
  }
}
