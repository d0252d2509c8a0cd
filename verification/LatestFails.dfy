/** The rule of the latest snapshot is not kept by every run: exactly which steps and which runs keep it, and a run
    that breaks it. */
module LatestFails {
  import opened Histories
  import opened Snapshots
  import opened Mvcc
  import opened MvccSteps
  import opened MvccRuns
  import opened Latest
  import opened OneObject

  ghost predicate Rule(s: State)
    requires WF(s)
  {
    ListedSeen(s.info.entries, s.hist, s.firstKey)
  }

  /** When a snapshot has been taken since the bump, the version listed next is not seen by the entry it goes to. */
  lemma RaceBreaksRule(s: State)
    requires Inv(s) && Pending(s) && Enabled(s, RegisterNext) && TakenSince(s.info)
    ensures !Rule(ApplyRegister(s))
  {
    RegisterPhase(s);
    RegisterName(s);
    var s', x, n := ApplyRegister(s), NextObj(s), |s.info.entries| - 1;
    var t := Token(x, PreviousFrom(s.hist[x]));
    AddCleanupEpochs(s.info, t, n);
    assert x in Ahead(s.phase);
    assert t in s'.info.entries[n].cleanups;
    assert Key(s'.hist[x], s'.firstKey[x], |s.hist[x].past| - 1) == t.validFrom;
    assert !Before(s'.hist, s'.firstKey, t, s'.info.entries[n].epoch);
  }

  /** A step keeps the rule if and only if it does not list a version when a snapshot has been taken since the bump. */
  lemma StepKeepsRuleExactly(s: State, step: Step)
    requires Inv(s) && Pending(s) && Rule(s) && Enabled(s, step)
    ensures Rule(Apply(s, step)) <==> !Races(s, step)
  {
    if Races(s, step) {
      RaceBreaksRule(s);
    } else {
      StepSeen(s, step, 0);
    }
  }

  ghost predicate RuleThroughout(s: State, steps: seq<Step>)
    requires WF(s) && Legal(s, steps)
    decreases |steps|
  {
    Rule(s) && (|steps| > 0 ==> RuleThroughout(Apply(s, steps[0]), steps[1..]))
  }

  ghost predicate NeverRaces(s: State, steps: seq<Step>)
    requires WF(s) && Legal(s, steps)
    decreases |steps|
  {
    |steps| > 0 ==> !Races(s, steps[0]) && NeverRaces(Apply(s, steps[0]), steps[1..])
  }

  lemma {:induction false} RunKeepsRuleExactly(s: State, steps: seq<Step>)
    requires Inv(s) && Pending(s) && Rule(s) && Legal(s, steps)
    ensures RuleThroughout(s, steps) <==> NeverRaces(s, steps)
    decreases |steps|
  {
    if |steps| > 0 {
      var s' := Apply(s, steps[0]);
      StepKeepsRuleExactly(s, steps[0]);
      if Rule(s') {
        StepKeeps(s, steps[0]);
        StepPending(s, steps[0]);
        RunKeepsRuleExactly(s', steps[1..]);
      }
    }
  }

  /** The rule holds in every state of a run if and only if the run never lists a version when a snapshot has been
      taken since the bump. */
  lemma RuleHoldsExactly(values: seq<int>, epoch: Epoch, steps: seq<Step>)
    requires epoch >= 1 && Legal(Init(values, epoch), steps)
    ensures RuleThroughout(Init(values, epoch), steps) <==> NeverRaces(Init(values, epoch), steps)
  {
    InitHolds(values, epoch);
    RunKeepsRuleExactly(Init(values, epoch), steps);
  }

  // ---------------------------------------------------------------------------------------------
  // A run that breaks the rule
  // ---------------------------------------------------------------------------------------------

  /** A transaction writes the one object; a second snapshot is taken after its epoch is bumped and before the
      obsolete version is listed. */
  function RaceMoves(): seq<Move> {
    [Opens(1), Overtaken(1, 9, 2)]
  }

  function RaceShapes(): seq<Shape> {
    [ Shape(10, 10, [], map[], History([], 7)),
      Shape(10, 10, [Entry(10, {1}, [])], map[1 := 10], History([], 7)),
      AfterRace() ]
  }

  function AfterRace(): Shape {
    Shape(11, 10, [Entry(10, {1}, []), Entry(11, {2}, [Token(0, 1)])], map[1 := 10, 2 := 11], History([Past(11, 7)], 9))
  }

  lemma RacePath()
    ensures LeadsTo(7, 10, RaceMoves(), AfterRace())
  {
    var ms, ps := RaceMoves(), RaceShapes();
    assert LeadsOn(ms, ps, 0);
    assert Push(ps[1].h, 11, 9).past == ps[2].h.past;
    assert LeadsOn(ms, ps, 1);
    WholePath(7, 10, ms, ps);
  }

  lemma NotSeen()
    ensures !ListedSeen(AfterRace().es, [AfterRace().h], [1])
  {
    var es, hist, firstKey: seq<nat> := AfterRace().es, [AfterRace().h], [1];
    assert Token(0, 1) in es[1].cleanups;
    assert Key(hist[0], firstKey[0], 0) == 1 && hist[0].past[0].validTo == 11;
    assert !Before(hist, firstKey, Token(0, 1), es[1].epoch - 0);
  }

  /** A reachable state between commits, with no cleanup under way, where a version is listed by an entry whose
      snapshot does not see it. */
  lemma RuleCanFail()
    ensures Legal(Init([7], 10), AllSteps(RaceMoves()))
    ensures var s := Run(Init([7], 10), AllSteps(RaceMoves()));
            Has(s, AfterRace()) && !ListedSeen(s.info.entries, s.hist, s.firstKey)
  {
    RacePath();
    NotSeen();
  }
}
