/** A restart that keeps local values can undo another transaction's commit: a run in which every transaction is
    balanced, and after which the total is not what it was. */
module RestartFails {
  import opened Histories
  import opened Snapshots
  import opened Mvcc
  import opened MvccRuns
  import opened Traces
  import opened Conservation

  /** The first transaction moves 1 from object 0 to object 1, the second 5 from object 0 to object 2. */
  function WriteSteps(): seq<Step> {
    [Take(1), Mutate(1, 0), Assign(1, 0, -1), Mutate(1, 1), Assign(1, 1, 1),
     Take(2), Mutate(2, 0), Assign(2, 0, -5), Mutate(2, 2), Assign(2, 2, 5)]
  }

  /** The second one commits. */
  function CommitSteps(): seq<Step> {
    [Begin(2, [0, 2]), SetupNext, SetupNext, Bump, RegisterNext, RegisterNext, Finish]
  }

  /** The first one is restarted and sets up its commit. */
  function RestartSteps(): seq<Step> {
    [Drop(1), Take(1), Begin(1, [0, 1]), SetupNext, SetupNext]
  }

  function First(): Box {
    map[0 := Local(0, -1, true), 1 := Local(0, 1, true)]
  }

  function FirstKept(): Box {
    map[0 := Local(0, -1, false), 1 := Local(0, 1, false)]
  }

  function Second(): Box {
    map[0 := Local(0, -5, true), 2 := Local(0, 5, true)]
  }

  function Zeros(): seq<History<int>> {
    [History([], 0), History([], 0), History([], 0)]
  }

  /** Where only the first transaction is registered, with the local values given. */
  function Alone(box: Box): State {
    State(Info(1, 1, [Entry(1, {1}, [])]), Zeros(), map[1 := 1], map[1 := box], multiset{}, Idle, Zeros(), [1, 1, 1],
          [], 1)
  }

  function Together(box: Box): State {
    Alone(First()).(info := Info(1, 1, [Entry(1, {1, 2}, [])]), epochOf := map[1 := 1, 2 := 1],
                    boxes := map[1 := First(), 2 := box])
  }

  /** The histories as they are between the two commits. */
  function Moved(): seq<History<int>> {
    [History([Past(2, 0)], -5), History([], 0), History([Past(2, 0)], 5)]
  }

  function Committing(hist: seq<History<int>>, done: nat): State {
    Together(map[]).(hist := hist, phase := SettingUp(2, [0, 2], Second(), done, 2))
  }

  function Listing(cleanups: seq<Token>, done: nat): State {
    Together(map[]).(info := Info(2, 1, [Entry(1, {1, 2}, cleanups)]), hist := Moved(), ideal := Moved(),
                     phase := Registering(2, [0, 2], Second(), done), log := [Commit(1, 2, [0, 2])])
  }

  function Committed(): State {
    Listing([Token(0, 1), Token(2, 1)], 2).(phase := Idle)
  }

  function Dropped(): State {
    Committed().(info := Info(2, 1, [Entry(1, {2}, [Token(0, 1), Token(2, 1)])]), epochOf := map[2 := 1])
  }

  function Restarted(): State {
    Dropped().(info := Info(2, 1, [Entry(1, {2}, [Token(0, 1), Token(2, 1)]), Entry(2, {1}, [])]),
               epochOf := map[1 := 2, 2 := 1], boxes := map[1 := FirstKept(), 2 := map[]])
  }

  function Again(hist: seq<History<int>>, done: nat): State {
    Restarted().(hist := hist, boxes := map[1 := map[], 2 := map[]],
                 phase := SettingUp(1, [0, 1], FirstKept(), done, 3))
  }

  /** The histories as the first transaction's commit leaves them. */
  function Lost(): seq<History<int>> {
    [History([Past(2, 0), Past(3, -5)], -1), History([Past(3, 0)], 1), History([Past(2, 0)], 5)]
  }

  // ---------------------------------------------------------------------------------------------
  // The run, step by step
  // ---------------------------------------------------------------------------------------------

  lemma ZeroRead(x: Obj, e: Epoch)
    requires x < 3
    ensures Zeros()[x] == History([], 0) && ValueAt(Zeros()[x], e) == 0
  {
  }

  lemma WellFormed(box: Box)
    requires forall y :: y in box ==> y < 3
    ensures WF(Alone(box)) && WF(Together(box))
  {
  }

  lemma CommittingFormed(hist: seq<History<int>>, done: nat)
    requires |hist| == 3 && done <= 2
    ensures WF(Committing(hist, done))
  {
  }

  lemma AgainFormed(hist: seq<History<int>>, done: nat)
    requires |hist| == 3 && done <= 2
    ensures WF(Again(hist, done))
  {
  }

  lemma ListingFormed(cleanups: seq<Token>, done: nat)
    requires done <= 2
    ensures WF(Listing(cleanups, done))
  {
  }

  lemma AloneWrites(box: Box, x: Obj, v: int)
    requires x < 3 && x !in box && forall y :: y in box ==> y < 3
    ensures Goes(Alone(box), Mutate(1, x), Alone(Put(box, x, 0)))
    ensures Goes(Alone(Put(box, x, 0)), Assign(1, x, v), Alone(Put(box, x, v)))
  {
    ZeroRead(x, 1);
    WellFormed(box);
    Write(Alone(box), 1, x, v);
    assert map[1 := box][1 := Put(box, x, 0)] == map[1 := Put(box, x, 0)];
    assert map[1 := box][1 := Put(box, x, v)] == map[1 := Put(box, x, v)];
  }

  lemma TogetherWrites(box: Box, x: Obj, v: int)
    requires x < 3 && x !in box && forall y :: y in box ==> y < 3
    ensures Goes(Together(box), Mutate(2, x), Together(Put(box, x, 0)))
    ensures Goes(Together(Put(box, x, 0)), Assign(2, x, v), Together(Put(box, x, v)))
  {
    ZeroRead(x, 1);
    WellFormed(box);
    Write(Together(box), 2, x, v);
    var m := map[1 := First(), 2 := box];
    assert m[2 := Put(box, x, 0)] == map[1 := First(), 2 := Put(box, x, 0)];
    assert m[2 := Put(box, x, v)] == map[1 := First(), 2 := Put(box, x, v)];
  }

  lemma BothTaken()
    ensures Goes(Init([0, 0, 0], 1), Take(1), Alone(map[]))
    ensures Goes(Alone(First()), Take(2), Together(map[]))
  {
    assert Init([0, 0, 0], 1).hist == Zeros();
    assert map[1 := 1][2 := 1] == map[1 := 1, 2 := 1];
    assert map[1 := First()][2 := map[]] == map[1 := First(), 2 := map[]];
    assert {1} + {2} == {1, 2};
  }

  lemma FirstWrites()
    ensures Reaches(Alone(map[]), [Mutate(1, 0), Assign(1, 0, -1), Mutate(1, 1), Assign(1, 1, 1)], Alone(First()))
  {
    var none: Box, one: Box := map[], map[0 := Local(0, -1, true)];
    AloneWrites(none, 0, -1);
    AloneWrites(one, 1, 1);
    Then(Alone(Put(one, 1, 0)), Assign(1, 1, 1), Alone(First()), [], Alone(First()));
    Then(Alone(one), Mutate(1, 1), Alone(Put(one, 1, 0)), [Assign(1, 1, 1)], Alone(First()));
    Then(Alone(Put(none, 0, 0)), Assign(1, 0, -1), Alone(one), [Mutate(1, 1), Assign(1, 1, 1)], Alone(First()));
    Then(Alone(none), Mutate(1, 0), Alone(Put(none, 0, 0)), [Assign(1, 0, -1), Mutate(1, 1), Assign(1, 1, 1)],
         Alone(First()));
  }

  lemma SecondWrites()
    ensures Reaches(Together(map[]), [Mutate(2, 0), Assign(2, 0, -5), Mutate(2, 2), Assign(2, 2, 5)],
                    Together(Second()))
  {
    var none: Box, one: Box := map[], map[0 := Local(0, -5, true)];
    TogetherWrites(none, 0, -5);
    TogetherWrites(one, 2, 5);
    Then(Together(Put(one, 2, 0)), Assign(2, 2, 5), Together(Second()), [], Together(Second()));
    Then(Together(one), Mutate(2, 2), Together(Put(one, 2, 0)), [Assign(2, 2, 5)], Together(Second()));
    Then(Together(Put(none, 0, 0)), Assign(2, 0, -5), Together(one), [Mutate(2, 2), Assign(2, 2, 5)],
         Together(Second()));
    Then(Together(none), Mutate(2, 0), Together(Put(none, 0, 0)), [Assign(2, 0, -5), Mutate(2, 2), Assign(2, 2, 5)],
         Together(Second()));
  }

  lemma Writes()
    ensures Reaches(Init([0, 0, 0], 1), WriteSteps(), Together(Second()))
  {
    BothTaken();
    FirstWrites();
    SecondWrites();
    Then(Alone(First()), Take(2), Together(map[]), [Mutate(2, 0), Assign(2, 0, -5), Mutate(2, 2), Assign(2, 2, 5)],
         Together(Second()));
    Joined(Alone(map[]), [Mutate(1, 0), Assign(1, 0, -1), Mutate(1, 1), Assign(1, 1, 1)], Alone(First()),
           [Take(2)] + [Mutate(2, 0), Assign(2, 0, -5), Mutate(2, 2), Assign(2, 2, 5)], Together(Second()));
    Then(Init([0, 0, 0], 1), Take(1), Alone(map[]),
         [Mutate(1, 0), Assign(1, 0, -1), Mutate(1, 1), Assign(1, 1, 1)]
         + ([Take(2)] + [Mutate(2, 0), Assign(2, 0, -5), Mutate(2, 2), Assign(2, 2, 5)]), Together(Second()));
  }

  function HalfMoved(): seq<History<int>> {
    [History([Past(2, 0)], -5), History([], 0), History([], 0)]
  }

  lemma SecondBegins()
    ensures Goes(Together(Second()), Begin(2, [0, 2]), Committing(Zeros(), 0))
  {
    WellFormed(Second());
    assert map[1 := First(), 2 := Second()][2 := map[]] == map[1 := First(), 2 := map[]];
  }

  lemma SecondSetUp()
    ensures Goes(Committing(Zeros(), 0), SetupNext, Committing(HalfMoved(), 1))
  {
    CommittingFormed(Zeros(), 0);
    SetsUp(Committing(Zeros(), 0), 0, HalfMoved()[0]);
    assert Zeros()[0 := HalfMoved()[0]] == HalfMoved();
  }

  lemma SecondSetUpNext()
    ensures Goes(Committing(HalfMoved(), 1), SetupNext, Committing(Moved(), 2))
  {
    CommittingFormed(HalfMoved(), 1);
    SetsUp(Committing(HalfMoved(), 1), 2, Moved()[2]);
    assert HalfMoved()[2 := Moved()[2]] == Moved();
  }

  lemma AllPushed()
    ensures PushAll(Zeros(), [0, 2], Second(), 2) == Moved()
  {
    var r := PushAll(Zeros(), [0, 2], Second(), 2);
    assert r[0] == Push(History([], 0), 2, -5) && r[1] == History([], 0) && r[2] == Push(History([], 0), 2, 5);
    assert Push(History([], 0), 2, -5) == History([Past(2, 0)], -5);
    assert Push(History([], 0), 2, 5) == History([Past(2, 0)], 5);
  }

  lemma SecondBumps()
    ensures Goes(Committing(Moved(), 2), Bump, Listing([], 0))
  {
    AllPushed();
  }

  lemma SecondLists()
    ensures Goes(Listing([], 0), RegisterNext, Listing([Token(0, 1)], 1))
    ensures Goes(Listing([Token(0, 1)], 1), RegisterNext, Listing([Token(0, 1), Token(2, 1)], 2))
    ensures Goes(Listing([Token(0, 1), Token(2, 1)], 2), Finish, Committed())
  {
    ListingFormed([], 0);
    ListingFormed([Token(0, 1)], 1);
    ListingFormed([Token(0, 1), Token(2, 1)], 2);
    Lists(Listing([], 0), 0);
    Lists(Listing([Token(0, 1)], 1), 2);
    assert [] + [Token(0, 1)] == [Token(0, 1)] && [Token(0, 1)] + [Token(2, 1)] == [Token(0, 1), Token(2, 1)];
    Grown([], Token(0, 1));
    Grown([Token(0, 1)], Token(2, 1));
  }

  lemma Grown(cleanups: seq<Token>, t: Token)
    ensures AddCleanup(Info(2, 1, [Entry(1, {1, 2}, cleanups)]), t) == Info(2, 1, [Entry(1, {1, 2}, cleanups + [t])])
  {
  }

  lemma Commits()
    ensures Reaches(Together(Second()), CommitSteps(), Committed())
  {
    SecondBegins();
    SecondSetUp();
    SecondSetUpNext();
    SecondBumps();
    SecondLists();
    var half := HalfMoved();
    Then(Listing([Token(0, 1), Token(2, 1)], 2), Finish, Committed(), [], Committed());
    Then(Listing([Token(0, 1)], 1), RegisterNext, Listing([Token(0, 1), Token(2, 1)], 2), [Finish], Committed());
    Then(Listing([], 0), RegisterNext, Listing([Token(0, 1)], 1), [RegisterNext, Finish], Committed());
    Then(Committing(Moved(), 2), Bump, Listing([], 0), [RegisterNext, RegisterNext, Finish], Committed());
    Then(Committing(half, 1), SetupNext, Committing(Moved(), 2), [Bump, RegisterNext, RegisterNext, Finish],
         Committed());
    Then(Committing(Zeros(), 0), SetupNext, Committing(half, 1),
         [SetupNext, Bump, RegisterNext, RegisterNext, Finish], Committed());
    Then(Together(Second()), Begin(2, [0, 2]), Committing(Zeros(), 0),
         [SetupNext, SetupNext, Bump, RegisterNext, RegisterNext, Finish], Committed());
  }

  lemma RestartDrops()
    ensures Goes(Committed(), Drop(1), Dropped())
  {
    assert {1, 2} - {1} == {2};
    assert map[1 := 1, 2 := 1] - {1} == map[2 := 1];
    var none: seq<Token> := [];
    assert multiset{} + multiset(none) == multiset{};
  }

  lemma RestartTakes()
    ensures Goes(Dropped(), Take(1), Restarted())
  {
    DroppedFormed();
    KeptFirst();
    assert map[2 := 1][1 := 2] == map[1 := 2, 2 := 1];
    assert map[1 := First(), 2 := map[]][1 := FirstKept()] == map[1 := FirstKept(), 2 := map[]];
  }

  lemma DroppedFormed()
    ensures WF(Dropped()) && Register(Dropped().info, 1) == Restarted().info
  {
  }

  lemma KeptFirst()
    ensures Kept(First()) == FirstKept()
  {
  }

  lemma FirstBegins()
    ensures Goes(Restarted(), Begin(1, [0, 1]), Again(Moved(), 0))
  {
    RestartedFormed();
    BeginsWith(Restarted(), 1, [0, 1]);
    assert map[1 := FirstKept(), 2 := map[]][1 := map[]] == map[1 := map[], 2 := map[]];
  }

  lemma RestartedFormed()
    ensures WF(Restarted()) && FirstKept().Keys == {0, 1}
  {
  }

  function HalfLost(): seq<History<int>> {
    [History([Past(2, 0), Past(3, -5)], -1), History([], 0), History([Past(2, 0)], 5)]
  }

  /** The checks of the set-up compare the newest versions with the new snapshot, and pass. */
  lemma FirstSetUp()
    ensures Goes(Again(Moved(), 0), SetupNext, Again(HalfLost(), 1))
  {
    assert Push(History([Past(2, 0)], -5), 3, -1).past == [Past(2, 0), Past(3, -5)];
    AgainFormed(Moved(), 0);
    SetsUp(Again(Moved(), 0), 0, HalfLost()[0]);
    assert Moved()[0 := HalfLost()[0]] == HalfLost();
  }

  lemma FirstSetUpNext()
    ensures Goes(Again(HalfLost(), 1), SetupNext, Again(Lost(), 2))
  {
    AgainFormed(HalfLost(), 1);
    SetsUp(Again(HalfLost(), 1), 1, Lost()[1]);
    assert HalfLost()[1 := Lost()[1]] == Lost();
  }

  lemma Restarts()
    ensures Reaches(Committed(), RestartSteps(), Again(Lost(), 2))
  {
    RestartDrops();
    RestartTakes();
    FirstBegins();
    FirstSetUp();
    FirstSetUpNext();
    var s := Again(Lost(), 2);
    Then(Again(HalfLost(), 1), SetupNext, s, [], s);
    Then(Again(Moved(), 0), SetupNext, Again(HalfLost(), 1), [SetupNext], s);
    Then(Restarted(), Begin(1, [0, 1]), Again(Moved(), 0), [SetupNext, SetupNext], s);
    Then(Dropped(), Take(1), Restarted(), [Begin(1, [0, 1]), SetupNext, SetupNext], s);
    Then(Committed(), Drop(1), Dropped(), [Take(1), Begin(1, [0, 1]), SetupNext, SetupNext], s);
  }

  lemma Totals()
    ensures Net(FirstKept(), 3) == 0 && Gain(FirstKept(), [-5, 0, 5], 3) == 5
    ensures Sum([0, 0, 0]) == 0 && Sum([-5, 0, 5]) == 0
  {
    assert [0, 0, 0][..2] == [0, 0] && [0, 0][..1] == [0] && [0][..0] == [];
    assert [-5, 0, 5][..2] == [-5, 0] && [-5, 0][..1] == [-5] && [-5][..0] == [];
  }

  lemma BeforeBump()
    ensures Now(Again(Lost(), 2)) == [-5, 0, 5]
  {
    assert ValueAt(Lost()[0], 2) == -5 && ValueAt(Lost()[1], 2) == 0 && ValueAt(Lost()[2], 2) == 5;
  }

  lemma LossReached()
    ensures Reaches(Init([0, 0, 0], 1), WriteSteps() + CommitSteps() + RestartSteps(), Again(Lost(), 2))
  {
    Writes();
    Commits();
    Restarts();
    Joined(Init([0, 0, 0], 1), WriteSteps(), Together(Second()), CommitSteps(), Committed());
    Joined(Init([0, 0, 0], 1), WriteSteps() + CommitSteps(), Committed(), RestartSteps(), Again(Lost(), 2));
  }

  lemma LossAt(s: State)
    requires Inv(s) && Enabled(s, Bump) && |s.hist| == 3 && s.phase.box == FirstKept()
    requires Now(s) == OwnView(s) == [-5, 0, 5]
    ensures Balanced(s, Bump) && Sum(Now(s)) == Sum([0, 0, 0]) == 0 && Sum(Now(Apply(s, Bump))) == 5
  {
    Totals();
    BumpMovesTotal(s);
  }

  /** All objects hold 0, the second transaction has moved 5, and the total is still 0.  The first transaction has
      added nothing in sum to what it copied, yet its commit, which nothing refuses, takes the total to 5. */
  lemma UpdateIsLost()
    ensures Legal(Init([0, 0, 0], 1), WriteSteps() + CommitSteps() + RestartSteps())
    ensures var s := Run(Init([0, 0, 0], 1), WriteSteps() + CommitSteps() + RestartSteps());
            && Enabled(s, Bump) && Balanced(s, Bump)
            && Sum(Now(s)) == Sum([0, 0, 0]) == 0
            && Sum(Now(Apply(s, Bump))) == 5
  {
    LossReached();
    InitHolds([0, 0, 0], 1);
    RunKeeps(Init([0, 0, 0], 1), WriteSteps() + CommitSteps() + RestartSteps());
    BeforeBump();
    LossAt(Again(Lost(), 2));
  }
}
