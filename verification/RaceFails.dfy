/** Renumbering after a snapshot was taken between the bump and the listing of a commit: runs that end between commits,
    with no cleanup under way, after which the renumbering throws, or goes through and a later cleanup throws. */
module RaceFails {
  import opened Histories
  import opened Snapshots
  import opened Mvcc
  import opened MvccSteps
  import opened MvccRuns
  import opened Latest
  import opened LatestFails
  import opened Lists
  import opened Compress
  import opened CompressLoop
  import opened CompressStages
  import opened CompressStore
  import opened CompressExact
  import opened OneObject

  // ---------------------------------------------------------------------------------------------
  // The renumbering throws
  // ---------------------------------------------------------------------------------------------

  /** The value is replaced at epoch 11 and again, overtaken by snapshot 3, at epoch 12. */
  function ClashMoves(): seq<Move> {
    [Opens(1), Writes(1, 8), Opens(2), Overtaken(2, 9, 3)]
  }

  function AfterClash(): Shape {
    Shape(12, 10, [Entry(10, {1}, [Token(0, 1)]), Entry(11, {2}, []), Entry(12, {3}, [Token(0, 11)])],
          map[1 := 10, 2 := 11, 3 := 12], History([Past(11, 7), Past(12, 8)], 9))
  }

  function ClashShapes(): seq<Shape> {
    var first, second := Entry(10, {1}, [Token(0, 1)]), Entry(11, {2}, []);
    [ Shape(10, 10, [], map[], History([], 7)),
      Shape(10, 10, [Entry(10, {1}, [])], map[1 := 10], History([], 7)),
      Shape(11, 10, [first], map[1 := 10], History([Past(11, 7)], 8)),
      Shape(11, 10, [first, second], map[1 := 10, 2 := 11], History([Past(11, 7)], 8)),
      AfterClash() ]
  }

  lemma ClashBegins()
    ensures forall i :: 0 <= i < 3 ==> LeadsOn(ClashMoves(), ClashShapes(), i)
  {
    var ms, ps := ClashMoves(), ClashShapes();
    assert [] + [Token(0, 1)] == [Token(0, 1)];
    assert LeadsOn(ms, ps, 0);
    assert ListedIn(ps[1].es, ps[1].h) == ps[2].es && Push(ps[1].h, 11, 8).past == ps[2].h.past;
    assert LeadsOn(ms, ps, 1);
    assert LeadsOn(ms, ps, 2);
  }

  lemma ClashPath()
    ensures LeadsTo(7, 10, ClashMoves(), AfterClash())
    ensures var s := Run(Init([7], 10), AllSteps(ClashMoves())); Inv(s) && ListsOk(s)
  {
    var ms, ps := ClashMoves(), ClashShapes();
    ClashBegins();
    assert Push(ps[3].h, 12, 9).past == ps[4].h.past;
    assert LeadsOn(ms, ps, 3);
    WholePath(7, 10, ms, ps);
  }

  /** The last entry lists the version before the newest, and the newest starts at that entry's own epoch. */
  lemma ClashFound(s: State)
    requires Has(s, AfterClash())
    ensures ClashesAt(TablesOf(s), 2, 0, 1)
  {
    assert Token(0, 11) in AfterClash().es[2].cleanups;
  }

  /** A legal run to a store that renumbering throws on. */
  lemma RenumberingThrows()
    ensures Legal(Init([7], 10), AllSteps(ClashMoves()))
    ensures var s := Run(Init([7], 10), AllSteps(ClashMoves()));
            && Quiescent(s) && Has(s, AfterClash())
            && TableFits(s.info.entries, |s.hist|) && !Renumbering(s.info.entries, s.hist).ok
  {
    ClashPath();
    var s := Run(Init([7], 10), AllSteps(ClashMoves()));
    ClashFound(s);
    assert ClashesFor(TablesOf(s), 0, 1);
    RefusedExactly(s);
  }

  // ---------------------------------------------------------------------------------------------
  // A cleanup throws afterwards
  // ---------------------------------------------------------------------------------------------

  /** What renumbering makes of the store after one race: the version that is replaced at epoch 2 is listed under the
      name 2, which is the newest version's. */
  function RaceInfo(): Info {
    Info(3, 1, [Entry(1, {1}, []), Entry(2, {2}, [Token(0, 2)])])
  }

  lemma RaceReadable(s: State)
    requires Has(s, AfterRace())
    ensures !Clashes(s) && AllReadable(s)
  {
    var es := AfterRace().es;
    RankIs(es, 11, 0);
    RankIs(es, 11, 1);
    assert Token(0, 1) in es[1].cleanups;
    assert Registered(es, 11) && !Passed(es, NumberOf(es, Token(0, 1)));
  }

  lemma RaceEnd(r: History<int>)
    requires SameShape(AfterRace().h, r) && ReadsKept(AfterRace().es, AfterRace().h, r)
    ensures r == History([Past(2, 7)], 9)
  {
    var h := AfterRace().h;
    assert ReadIndex(h, AfterRace().es[0].epoch) == 0 && ReadIndex(h, AfterRace().es[1].epoch) == 1;
    assert r.past == [Past(2, 7)];
  }

  lemma RaceEntries()
    ensures NewEntries(AfterRace().es) == RaceInfo().entries
    ensures NewEpochs(AfterRace().es, AfterRace().epochOf) == map[1 := 1, 2 := 2]
  {
    assert Retag(AfterRace().es[1].cleanups, 2) == [Token(0, 2)];
    IndexOfEntry(AfterRace().es, 0);
    IndexOfEntry(AfterRace().es, 1);
  }

  lemma RaceRenumbered(s: State)
    requires Quiescent(s) && Has(s, AfterRace())
    ensures KeepsReads(s)
    ensures var r := CompressAll(s);
            && r.info == RaceInfo() && r.hist == [History([Past(2, 7)], 9)] && r.epochOf == map[1 := 1, 2 := 2]
  {
    RaceReadable(s);
    ReadsKeptExactly(s);
    RaceEntries();
    assert ObjectKept(s.info.entries, s.hist[0], CompressAll(s).hist[0]);
    RaceEnd(CompressAll(s).hist[0]);
  }

  lemma RaceLeaves()
    ensures Leave(RaceInfo(), 2, 1).1 == [Token(0, 2)] && IndexOf(RaceInfo().entries, 2) == 1
    ensures Find(History([Past(2, 7)], 9), 2) == None
  {
    FindNothing(History([Past(2, 7)], 9), 2);
  }

  lemma RaceThrows(r: State)
    requires WF(r) && r.info == RaceInfo() && r.hist == [History([Past(2, 7)], 9)] && r.epochOf == map[1 := 1, 2 := 2]
    requires r.phase.Idle? && r.inflight == multiset{}
    ensures ThrowsWhenLeft(r, 2, Token(0, 2))
  {
    RaceLeaves();
    assert Apply(r, Drop(2)).inflight == multiset{} + multiset([Token(0, 2)]);
  }

  /** A legal run to a store that renumbering goes through and keeps every read of; when the later snapshot goes, it
      hands back a cleanup that throws. */
  lemma CleanupThrows()
    ensures Legal(Init([7], 10), AllSteps(RaceMoves()))
    ensures var s := Run(Init([7], 10), AllSteps(RaceMoves()));
            && Quiescent(s) && Has(s, AfterRace()) && KeepsReads(s)
            && ThrowsWhenLeft(CompressAll(s), 2, Token(0, 2))
  {
    RacePath();
    ReachedListsOk([7], 10, AllSteps(RaceMoves()));
    var s := Run(Init([7], 10), AllSteps(RaceMoves()));
    RaceRenumbered(s);
    RaceThrows(CompressAll(s));
  }

  /** Dropping snapshot `n` hands back cleanup `t`, which names nothing that could be cleaned up. */
  ghost predicate ThrowsWhenLeft(r: State, n: Snap, t: Token) {
    && WF(r) && Enabled(r, Drop(n))
    && Enabled(Apply(r, Drop(n)), Clean(t)) && Throws(Apply(r, Drop(n)), Clean(t))
  }
}
