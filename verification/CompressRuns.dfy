/** Renumbering among the other steps of the store: what later removals, later commits and whole runs see of it. */
module CompressRuns {
  import opened Histories
  import opened Snapshots
  import opened Mvcc
  import opened MvccSteps
  import opened MvccRuns
  import opened Conservation
  import opened Latest
  import opened Lists
  import opened Compress
  import opened CompressStages
  import opened CompressStore

  /** Where renumbering keeps everything. */
  ghost predicate Renumbers(s: State) {
    Compressible(s) && AllRenumberable(s) && AllSeenOnce(s)
  }

  // ---------------------------------------------------------------------------------------------
  // Later removals
  // ---------------------------------------------------------------------------------------------

  lemma {:induction false} NoneNeeded(cs: seq<Token>, e: Epoch)
    requires forall t :: t in cs ==> t.validFrom > e
    ensures Unneeded(cs, e) == cs
  {
    if |cs| > 0 {
      NoneNeeded(cs[..|cs| - 1], e);
    }
  }

  lemma BeginsAfter(es: seq<Entry>, h: History<int>, first: nat, j: nat, k: nat)
    requires Numberable(es) && Renumberable(es, h) && FirstSeenOnce(es, h) && j < |h.past|
    requires 0 < k < |es| && !Skipped(es, k) && RuledAt(es, h, first, j, k + 1)
    ensures Key(h, first, j) > es[k - 1].epoch
  {
    assert ListedBy(es, h, j) == k + 1;
    assert j > 0 && SeenBy(es, h, j) == 1;
    RankIs(es, h.past[j - 1].validTo, k - 1);
  }

  /** A version listed at an entry that is renumbered is seen by no registered epoch before it. */
  lemma ListedAfterPrevious(s: State, k: nat, t: Token)
    requires Renumbers(s) && 0 < k < |s.info.entries| && !Skipped(s.info.entries, k) && t in s.info.entries[k].cleanups
    ensures t.validFrom > s.info.entries[k - 1].epoch
  {
    var j := TokenVersion(s, k, t);
    EntriesNumberable(s);
    BeginsAfter(s.info.entries, s.hist[t.obj], s.firstKey[t.obj], j, k);
  }

  /** What a removal hands back to be cleaned up, before and after. */
  function HandedBack(es: seq<Entry>, k: nat): seq<Token>
    requires k < |es|
  {
    if k == 0 then es[k].cleanups else Unneeded(es[k].cleanups, es[k - 1].epoch)
  }

  lemma HandedBackSame(es: seq<Entry>, k: nat)
    requires Numberable(es) && k < |es| && Skipped(es, k)
    ensures HandedBack(NewEntries(es), k) == HandedBack(es, k)
  {
    NumberBelow(es, k);
    assert NewEntries(es)[k].cleanups == es[k].cleanups;
    if k > 0 {
      assert NewEntries(es)[k - 1].epoch == es[k - 1].epoch;
    }
  }

  lemma HandedBackWhole(es: seq<Entry>, k: nat)
    requires k < |es| && !Skipped(es, k)
    requires k > 0 ==> forall t :: t in es[k].cleanups ==> t.validFrom > es[k - 1].epoch
    ensures HandedBack(es, k) == es[k].cleanups
    ensures HandedBack(NewEntries(es), k) == Retag(es[k].cleanups, k + 1)
  {
    var cs := Retag(es[k].cleanups, k + 1);
    assert NewEntries(es)[k].cleanups == cs;
    if k > 0 {
      assert NewEntries(es)[k - 1].epoch == k;
      NoneNeeded(es[k].cleanups, es[k - 1].epoch);
      NoneNeeded(cs, k);
    }
  }

  lemma HandedBackAfter(s: State, k: nat)
    requires Renumbers(s) && k < |s.info.entries|
    ensures var es := s.info.entries;
            if Skipped(es, k) then HandedBack(NewEntries(es), k) == HandedBack(es, k)
            else HandedBack(es, k) == es[k].cleanups && HandedBack(NewEntries(es), k) == Retag(es[k].cleanups, k + 1)
  {
    var es := s.info.entries;
    EntriesNumberable(s);
    if Skipped(es, k) {
      HandedBackSame(es, k);
    } else {
      if k > 0 {
        forall t | t in es[k].cleanups ensures t.validFrom > es[k - 1].epoch {
          ListedAfterPrevious(s, k, t);
        }
      }
      HandedBackWhole(es, k);
    }
  }

  lemma InHandedBack(es: seq<Entry>, k: nat, t: Token)
    requires k < |es| && t in HandedBack(es, k)
    ensures t in es[k].cleanups
  {
    if k > 0 {
      NeededSplits(es[k].cleanups, es[k - 1].epoch);
      assert t in multiset(es[k].cleanups);
    }
  }

  /** Two cleanups, before and after, that denote one and the same version of one object. */
  ghost predicate SameVersion(hist: seq<History<int>>, t: Token, hist': seq<History<int>>, t': Token) {
    && t'.obj == t.obj < |hist| && |hist'| == |hist|
    && Find(hist[t.obj], t.validFrom).Some?
    && Find(hist'[t.obj], t'.validFrom) == Find(hist[t.obj], t.validFrom)
  }

  lemma NewKeyIs(s: State, x: Obj, j: nat)
    requires Compressible(s) && x < |s.hist| && j < |s.hist[x].past|
    ensures |CompressAll(s).hist[x].past| == |s.hist[x].past|
    ensures Key(CompressAll(s).hist[x], CompressAll(s).firstKey[x], j) ==
            NewName(s.info.entries, s.hist[x], s.firstKey[x], j)
  {
    CompressedHist(s, x);
    FirstNameIs(s, x);
    NewNames(s.info.entries, s.hist[x], s.firstKey[x], CompressAll(s).firstKey[x], j);
  }

  lemma ListedDenotes(s: State, k: nat, t: Token, j: nat)
    requires Inv(s) && k < |s.info.entries| && t in s.info.entries[k].cleanups
    requires t.obj < |s.hist| && j < |s.hist[t.obj].past| && Key(s.hist[t.obj], s.firstKey[t.obj], j) == t.validFrom
    ensures Find(s.hist[t.obj], t.validFrom) == Some(j)
  {
    var i := ListedNamesOne(s, k, t);
    SameKey(s, t.obj, i, j);
  }

  /** The cleanup listed at entry `k` as `t`, and as `t'` afterwards, denotes the same version both times. */
  lemma SameCleanup(s: State, k: nat, t: Token, t': Token)
    requires Renumbers(s) && k < |s.info.entries| && t in s.info.entries[k].cleanups
    requires t' == if Skipped(s.info.entries, k) then t else Token(t.obj, k + 1)
    requires t' in NewEntry(s.info.entries, k).cleanups
    ensures SameVersion(s.hist, t, CompressAll(s).hist, t')
  {
    var j := TokenVersion(s, k, t);
    NameListed(s.info.entries, s.hist[t.obj], s.firstKey[t.obj], j, k);
    NewKeyIs(s, t.obj, j);
    CompressKeeps(s);
    ListedDenotes(s, k, t, j);
    NewEntryAt(s, k);
    ListedDenotes(CompressAll(s), k, t', j);
  }

  lemma NewEntryAt(s: State, k: nat)
    requires WF(s) && k < |s.info.entries|
    ensures |CompressAll(s).info.entries| == |s.info.entries|
    ensures CompressAll(s).info.entries[k] == NewEntry(s.info.entries, k)
  {
  }

  /** Dropping a snapshot after the renumbering hands back as many cleanups as it would have before, and one by one
      they denote the same versions of the same objects. */
  lemma RemovalCleansSame(s: State, n: Snap)
    requires Renumbers(s) && n in s.epochOf
    ensures n in CompressAll(s).epochOf
    ensures IndexOf(s.info.entries, s.epochOf[n]) < |s.info.entries|
    ensures IndexOf(CompressAll(s).info.entries, CompressAll(s).epochOf[n]) == IndexOf(s.info.entries, s.epochOf[n])
    ensures var k, s' := IndexOf(s.info.entries, s.epochOf[n]), CompressAll(s);
            var ts, ts' := Leave(s.info, n, k).1, Leave(s'.info, n, k).1;
            && |ts'| == |ts|
            && forall i :: 0 <= i < |ts| ==> SameVersion(s.hist, ts[i], s'.hist, ts'[i])
  {
    var k := CompressedEpoch(s, n);
    SameIndex(s, n, k);
    SameHandedBack(s, k);
    LeaveHands(s.info, n, k);
    LeaveHands(CompressAll(s).info, n, k);
    assert CompressAll(s).info.entries[k].snapshots == s.info.entries[k].snapshots;
  }

  lemma SameIndex(s: State, n: Snap, k: nat)
    requires Renumbers(s) && n in s.epochOf && k < |s.info.entries| && s.info.entries[k].epoch == s.epochOf[n]
    ensures n in CompressAll(s).epochOf
    ensures IndexOf(s.info.entries, s.epochOf[n]) == k ==
            IndexOf(CompressAll(s).info.entries, CompressAll(s).epochOf[n])
  {
    EntriesNumberable(s);
    CompressInfo(s);
    IndexOfEntry(s.info.entries, k);
    IndexOfEntry(CompressAll(s).info.entries, k);
  }

  lemma SameHandedBack(s: State, k: nat)
    requires Renumbers(s) && k < |s.info.entries|
    ensures var ts, ts' := HandedBack(s.info.entries, k), HandedBack(NewEntries(s.info.entries), k);
            && |ts'| == |ts|
            && forall i :: 0 <= i < |ts| ==> SameVersion(s.hist, ts[i], CompressAll(s).hist, ts'[i])
  {
    var es := s.info.entries;
    var ts, ts' := HandedBack(es, k), HandedBack(NewEntries(es), k);
    HandedBackAfter(s, k);
    forall i | 0 <= i < |ts| ensures SameVersion(s.hist, ts[i], CompressAll(s).hist, ts'[i]) {
      InHandedBack(es, k, ts[i]);
      InHandedBack(NewEntries(es), k, ts'[i]);
      SameCleanup(s, k, ts[i], ts'[i]);
    }
  }

  lemma LeaveHands(info: Info, n: Snap, k: nat)
    requires k < |info.entries|
    ensures Leave(info, n, k).1 == if info.entries[k].snapshots - {n} == {} then HandedBack(info.entries, k) else []
  {
  }

  // ---------------------------------------------------------------------------------------------
  // Later commits
  // ---------------------------------------------------------------------------------------------

  /** Renumbering changes no verdict: an object is newer than a registered snapshot afterwards if and only if it
      was before, so the same commits are refused. */
  lemma SameConflicts(s: State, n: Snap, x: Obj)
    requires Compressible(s) && AllRenumberable(s) && n in s.epochOf && x < |s.hist|
    ensures n in CompressAll(s).epochOf
    ensures NewestFrom(CompressAll(s).hist[x]) > CompressAll(s).epochOf[n] <==> NewestFrom(s.hist[x]) > s.epochOf[n]
  {
    var k := CompressedEpoch(s, n);
    VersionsSeen(s, x);
    CompressedHist(s, x);
    SameNewest(s.info.entries, s.hist[x], k);
  }

  lemma SameNewest(es: seq<Entry>, h: History<int>, k: nat)
    requires Numberable(es) && Sorted(h) && AllSeen(es, h) && Renumberable(es, h) && k < |es|
    ensures NewestFrom(Renumber(es, h)) > k + 1 <==> NewestFrom(h) > es[k].epoch
  {
    if |h.past| > 0 {
      NewObjEnds(es, h);
      RankIs(es, NewestFrom(h), k);
    }
  }

  // ---------------------------------------------------------------------------------------------
  // Runs with renumbering
  // ---------------------------------------------------------------------------------------------

  datatype Action = Plain(step: Step) | Compress

  /** What every run keeps. */
  ghost predicate Sound(s: State) {
    Inv(s) && ListsOk(s)
  }

  /** Renumbering is run between commits and with no cleanup under way, where it keeps everything. */
  ghost predicate Allowed(s: State, a: Action)
    requires WF(s)
  {
    match a
    case Plain(step) => Enabled(s, step)
    case Compress =>
      && s.phase.Idle? && s.inflight == multiset{} && |s.info.entries| > 0
      && RuleAbove(s) && AllRenumberable(s) && AllSeenOnce(s)
  }

  ghost function Act(s: State, a: Action): (s': State)
    requires Sound(s) && Allowed(s, a)
    ensures Sound(s')
  {
    match a
    case Plain(step) => StepKeeps(s, step); StepListsOk(s, step); Apply(s, step)
    case Compress => CompressKeeps(s); CompressAll(s)
  }

  /** The initial store. */
  ghost function Start(values: seq<int>, epoch: Epoch): (s: State)
    requires epoch >= 1
    ensures Sound(s)
  {
    InitListsOk(values, epoch);
    Init(values, epoch)
  }

  ghost predicate LegalActions(s: State, actions: seq<Action>)
    requires Sound(s)
    decreases |actions|
  {
    |actions| == 0 || (Allowed(s, actions[0]) && LegalActions(Act(s, actions[0]), actions[1..]))
  }

  ghost function ActAll(s: State, actions: seq<Action>): (s': State)
    requires Sound(s) && LegalActions(s, actions)
    ensures Sound(s')
    decreases |actions|
  {
    if |actions| == 0 then s else ActAll(Act(s, actions[0]), actions[1..])
  }

  /** Across any run, renumberings included, a snapshot's view never changes while it is registered,
      although its epoch may. */
  lemma {:induction false} ViewFrozenThroughout(s: State, actions: seq<Action>, n: Snap)
    requires Sound(s) && LegalActions(s, actions) && n in s.epochOf && Plain(Drop(n)) !in actions
    ensures n in ActAll(s, actions).epochOf
    ensures View(ActAll(s, actions).hist, ActAll(s, actions).epochOf[n]) == View(s.hist, s.epochOf[n])
    decreases |actions|
  {
    if |actions| > 0 {
      assert actions[0] in actions;
      match actions[0] {
        case Plain(step) => StepFrozen(s, step, n);
        case Compress => CompressKeepsViews(s, n);
      }
      ViewFrozenThroughout(Act(s, actions[0]), actions[1..], n);
    }
  }

  lemma NewestKept(s: State, x: Obj)
    requires Compressible(s) && x < |s.hist|
    ensures CompressAll(s).ideal[x].current == s.ideal[x].current
  {
    CompressedHist(s, x);
    NewestIs(s, x);
  }

  /** A new snapshot sees after the renumbering what it would have seen before. */
  lemma CompressKeepsNow(s: State)
    requires Renumbers(s)
    ensures Now(CompressAll(s)) == Now(s)
  {
    var s' := CompressAll(s);
    CompressKeeps(s);
    NowIsNewest(s);
    NowIsNewest(s');
    forall x | 0 <= x < |s.hist| ensures s'.ideal[x].current == s.ideal[x].current {
      NewestKept(s, x);
    }
  }

  lemma CompressConserves(s: State, sum: int)
    requires Renumbers(s) && Conserved(s, sum)
    ensures Conserved(CompressAll(s), sum)
  {
    var s' := CompressAll(s);
    CompressKeepsNow(s);
    forall n | n in s'.epochOf ensures Sum(View(s'.hist, s'.epochOf[n])) == sum {
      CompressKeepsViews(s, n);
    }
  }

  ghost predicate CarefulActions(s: State, actions: seq<Action>)
    requires Sound(s) && LegalActions(s, actions)
    decreases |actions|
  {
    |actions| > 0 ==>
      && (actions[0].Plain? ==> Balanced(s, actions[0].step) && TakenEmpty(s, actions[0].step))
      && CarefulActions(Act(s, actions[0]), actions[1..])
  }

  /** Across any run of balanced transactions, renumberings included, every registered snapshot and a new one see
      the same total. */
  lemma {:induction false} ConservedThroughout(s: State, actions: seq<Action>, sum: int)
    requires Sound(s) && AllLive(s) && Conserved(s, sum) && LegalActions(s, actions) && CarefulActions(s, actions)
    ensures Conserved(ActAll(s, actions), sum)
    decreases |actions|
  {
    if |actions| > 0 {
      match actions[0] {
        case Plain(step) =>
          StepLive(s, step);
          LiveEven(s, step);
          StepConserves(s, step, sum);
        case Compress => CompressConserves(s, sum);
      }
      ConservedThroughout(Act(s, actions[0]), actions[1..], sum);
    }
  }

  // ---------------------------------------------------------------------------------------------
  // First committer wins
  // ---------------------------------------------------------------------------------------------

  /** The commits so far stay on the log, in order, and what each wrote. */
  ghost predicate LogKept(log: seq<Commit>, log': seq<Commit>) {
    |log| <= |log'| && forall i :: 0 <= i < |log| ==> log'[i].objs == log[i].objs
  }

  lemma ActKeepsLog(s: State, a: Action)
    requires Sound(s) && Allowed(s, a)
    ensures LogKept(s.log, Act(s, a).log)
  {
    if a.Plain? {
      StepKeepsLog(s, a.step);
    }
  }

  lemma StepKeepsLog(s: State, step: Step)
    requires WF(s) && Enabled(s, step)
    ensures s.log <= Apply(s, step).log
  {
  }

  /** Renumbering changes no verdict on what came first: a commit took effect by the time a live snapshot was taken
      if and only if their new epochs say so. */
  lemma CompressKeepsOrder(s: State, i: nat, n: Snap)
    requires Renumbers(s) && i < |s.log| && n in s.epochOf
    ensures n in CompressAll(s).epochOf && |CompressAll(s).log| == |s.log|
    ensures CompressAll(s).log[i].at <= CompressAll(s).epochOf[n] <==> s.log[i].at <= s.epochOf[n]
  {
    var k := CompressedEpoch(s, n);
    EntriesNumberable(s);
    RankIs(s.info.entries, s.log[i].at, k);
  }

  lemma CompressRooted(s: State)
    requires Renumbers(s) && Rooted(s)
    ensures Rooted(CompressAll(s))
  {
    var es := s.info.entries;
    assert es[0].snapshots != {};
    var n :| n in es[0].snapshots;
    assert s.epochOf[n] == es[0].epoch;
    EntriesNumberable(s);
    RankIs(es, s.since, 0);
  }

  lemma {:induction false} ActsRooted(s: State, actions: seq<Action>)
    requires Sound(s) && Rooted(s) && LegalActions(s, actions)
    ensures Rooted(ActAll(s, actions)) && LogKept(s.log, ActAll(s, actions).log)
    decreases |actions|
  {
    if |actions| > 0 {
      ActKeepsLog(s, actions[0]);
      match actions[0] {
        case Plain(step) => StepRooted(s, step);
        case Compress => CompressRooted(s);
      }
      ActsRooted(Act(s, actions[0]), actions[1..]);
    }
  }

  /** Across any run, renumberings included, a commit that wrote an object which an earlier one wrote had its snapshot
      at or after the earlier one took effect. */
  lemma FirstCommitterWinsThroughout(values: seq<int>, epoch: Epoch, actions: seq<Action>, i: nat, j: nat, x: Obj)
    requires epoch >= 1 && LegalActions(Start(values, epoch), actions)
    requires var log := ActAll(Start(values, epoch), actions).log; i < j < |log| && x in log[i].objs && x in log[j].objs
    ensures var log := ActAll(Start(values, epoch), actions).log; log[i].at <= log[j].base
  {
    var log := ActAll(Start(values, epoch), actions).log;
    assert Wrote(log, i, x) && Wrote(log, j, x);
  }

  /** And the set-up of an object is refused exactly when some commit of the run wrote it after the snapshot was
      taken. */
  lemma ConflictIsExactThroughout(values: seq<int>, epoch: Epoch, actions: seq<Action>)
    requires epoch >= 1 && LegalActions(Start(values, epoch), actions)
    requires Enabled(ActAll(Start(values, epoch), actions), SetupNext)
    ensures var s := ActAll(Start(values, epoch), actions);
            Apply(s, SetupNext).phase.RollingBack? <==> WrittenSince(s.log, NextObj(s), s.epochOf[s.phase.snap])
  {
    ActsRooted(Start(values, epoch), actions);
    ConflictAt(ActAll(Start(values, epoch), actions));
  }
}
