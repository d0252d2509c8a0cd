/** Renumbering in any state between commits with no cleanup under way, races or not: exactly when it keeps reads, and
    exactly when it leaves everything right. */
module CompressExact {
  import opened Histories
  import opened Snapshots
  import opened Mvcc
  import opened MvccSteps
  import opened MvccRuns
  import opened Latest
  import opened Lists
  import opened Compress
  import opened CompressLoop
  import opened CompressStages
  import opened CompressStore

  // ---------------------------------------------------------------------------------------------
  // Reads
  // ---------------------------------------------------------------------------------------------

  /** Each version but the first is listed by the first registered epoch that is not before its start, or by an entry
      that is passed over; and the newest starts at a registered epoch, or, if the version before it is listed by an
      entry that is passed over, right after the registered epochs before it. */
  predicate Readable(es: seq<Entry>, h: History<int>, at: seq<nat>)
    requires |at| == |h.past|
  {
    forall i :: 0 <= i < |at| ==> ReadableAt(es, h, at, i)
  }

  predicate ReadableAt(es: seq<Entry>, h: History<int>, at: seq<nat>, i: nat)
    requires i < |at| == |h.past|
  {
    if i + 1 < |at| then Passed(es, at[i + 1]) || at[i + 1] == Rank(es, h.past[i].validTo) + 1
    else if Passed(es, at[i]) then h.past[i].validTo == Rank(es, h.past[i].validTo) + 1
    else Registered(es, h.past[i].validTo)
  }

  ghost predicate AllReadable(s: State)
    requires WF(s)
  {
    forall x :: 0 <= x < |s.hist| ==> Readable(s.info.entries, s.hist[x], At(TablesOf(s), x))
  }

  /** Among entries that are passed over, an epoch has as many before it as its number says. */
  lemma PassedRank(es: seq<Entry>, c: nat, v: Epoch)
    requires Numberable(es) && Passed(es, c) && 1 <= v <= c
    ensures Rank(es, v) + 1 == v
  {
    NumberBelow(es, c - 1);
    RankIs(es, v, v - 1);
    if v > 1 {
      RankIs(es, v, v - 2);
    }
  }

  lemma NotRegisteredEnd(es: seq<Entry>, h: History<int>, first: nat, j: nat, c: nat)
    requires Numberable(es) && j < |h.past| && PlacedAt(es, h, first, j, c) && !Passed(es, c)
    requires !Registered(es, h.past[j].validTo)
    ensures h.past[j].validTo != Rank(es, h.past[j].validTo) + 1
  {
    var k, v := c - 1, h.past[j].validTo;
    RankFrom(es, k, v);
    NumberBelow(es, k);
    if c < |es| {
      RankIs(es, v, c);
    }
  }

  lemma {:induction false} FinalEnd(es: seq<Entry>, h: History<int>, first: nat, at: seq<nat>, x: Obj, i: nat)
    requires Numberable(es) && Sorted(h) && Placed(es, h, first, at) && i < |at|
    ensures EndAt(es, h, at, x, |es|, [], [], i) == Rank(es, h.past[i].validTo) + 1 <==> ReadableAt(es, h, at, i)
  {
    if i + 1 < |at| {
      assert PlacedAt(es, h, first, i + 1, at[i + 1]);
      if Passed(es, at[i + 1]) {
        PassedRank(es, at[i + 1], h.past[i].validTo);
      }
    } else {
      assert PlacedAt(es, h, first, i, at[i]);
      if !Passed(es, at[i]) && !Registered(es, h.past[i].validTo) {
        NotRegisteredEnd(es, h, first, i, at[i]);
      }
    }
  }

  lemma ObjectReads(es: seq<Entry>, h: History<int>, first: nat, at: seq<nat>, x: Obj, r: History<int>)
    requires Numberable(es) && |es| > 0 && Sorted(h) && Placed(es, h, first, at)
    requires IsStage(es, h, at, x, |es|, [], [], r)
    ensures ReadsKept(es, h, r) <==> Readable(es, h, at)
  {
    forall i | 0 <= i < |at|
      ensures r.past[i].validTo >= 1 && (r.past[i].validTo == ListedBy(es, h, i) + 1 <==> ReadableAt(es, h, at, i))
    {
      FinalEnd(es, h, first, at, x, i);
      if i + 1 < |at| {
        assert PlacedAt(es, h, first, i + 1, at[i + 1]);
      }
    }
    ReadsKeptEnds(es, h, r);
  }

  /** The loop goes through, and every registered snapshot, at its new number, and a new one read the same version of
      every object as before. */
  ghost predicate KeepsReads(s: State)
    requires WF(s)
  {
    && TableFits(s.info.entries, |s.hist|) && Renumbering(s.info.entries, s.hist).ok
    && forall x :: 0 <= x < |s.hist| ==> ObjectKept(s.info.entries, s.hist[x], CompressAll(s).hist[x])
  }

  predicate SameShape(h: History<int>, r: History<int>) {
    && |r.past| == |h.past| && r.current == h.current
    && forall i :: 0 <= i < |h.past| ==> r.past[i].value == h.past[i].value
  }

  ghost predicate ObjectKept(es: seq<Entry>, h: History<int>, r: History<int>) {
    SameShape(h, r) && ReadsKept(es, h, r)
  }

  /** Renumbering goes through and keeps all reads if and only if nothing clashes and every object is readable. */
  lemma ReadsKeptExactly(s: State)
    requires Quiescent(s)
    ensures KeepsReads(s) <==> !Clashes(s) && AllReadable(s)
  {
    var g, n := TablesOf(s), |s.info.entries|;
    RefusedExactly(s);
    LoopReached(s, n);
    ReadyAll(s);
    var p := Renumbering(s.info.entries, s.hist);
    if p.ok {
      forall x | 0 <= x < |s.hist|
        ensures SameShape(s.hist[x], p.hist[x])
        ensures ReadsKept(s.info.entries, s.hist[x], p.hist[x]) <==> Readable(s.info.entries, s.hist[x], At(g, x))
      {
        assert Ready(g, x) && IsStage(g.es, g.hist[x], At(g, x), x, n, [], [], p.hist[x]);
        ObjectReads(g.es, g.hist[x], g.firstKey[x], At(g, x), x, p.hist[x]);
      }
    }
  }

  // ---------------------------------------------------------------------------------------------
  // Everything
  // ---------------------------------------------------------------------------------------------

  /** An entry that is renumbered lists no version that ends at its own epoch, unless it is the object's first: either
      that version's reads would come out wrong, or it would clash with the next one. */
  lemma LateClashes(es: seq<Entry>, h: History<int>, first: nat, at: seq<nat>, j: nat, k: nat)
    requires Numberable(es) && Sorted(h) && Placed(es, h, first, at) && 0 < j < |at| && k < |es| && !Skipped(es, k)
    requires at[j] == k + 1 && es[k].epoch == h.past[j].validTo && ReadableAt(es, h, at, j)
    ensures Clash(es, h, at, j)
  {
    RankOfEntry(es, k);
    if j + 1 < |at| && Passed(es, at[j + 1]) {
      PlacedInOrder(es, h, first, at, j, j + 1);
      NumberBelow(es, at[j + 1] - 1);
      assert false;
    }
  }

  lemma LaterNotLate(s: State, x: Obj, j: nat, k: nat)
    requires Quiescent(s) && !Clashes(s) && AllReadable(s) && x < |s.hist| && 0 < j < |s.hist[x].past|
    requires k < |s.info.entries| && !Skipped(s.info.entries, k) && At(TablesOf(s), x)[j] == k + 1
    ensures s.info.entries[k].epoch != s.hist[x].past[j].validTo
  {
    if s.info.entries[k].epoch == s.hist[x].past[j].validTo {
      ReadyAll(s);
      var g := TablesOf(s);
      assert Ready(g, x);
      assert Readable(g.es, g.hist[x], At(g, x));
      LateClashes(g.es, g.hist[x], g.firstKey[x], At(g, x), j, k);
      ClashIs(s, x, j);
    }
  }

  /** And where it is the first, the number given to it would not be below its end. */
  lemma FirstNotLate(s: State, x: Obj, k: nat)
    requires Quiescent(s) && KeepsReads(s) && ObjsOk(CompressAll(s)) && x < |s.hist| && |s.hist[x].past| > 0
    requires k < |s.info.entries| && !Skipped(s.info.entries, k) && At(TablesOf(s), x)[0] == k + 1
    ensures s.info.entries[k].epoch != s.hist[x].past[0].validTo
  {
    var es, h, s' := s.info.entries, s.hist[x], CompressAll(s);
    var r := s'.hist[x];
    assert ObjOk(r, s'.ideal[x], s'.firstKey[x], x in Ahead(s'.phase), Open(s'.phase, x), s'.info);
    assert At(TablesOf(s), x)[0] == NumberOf(es, Token(x, s.firstKey[x]));
    assert s'.firstKey[x] == k + 1;
    assert ObjectKept(es, h, r);
    ObjectReady(s, x);
    EntriesNumberable(s);
    RankOfEntry(es, k);
    KeptEnd(es, h, r, 0);
  }

  lemma RuleNeeded(s: State, k: nat, t: Token)
    requires Quiescent(s) && KeepsReads(s) && ObjsOk(CompressAll(s))
    requires k < |s.info.entries| && !Skipped(s.info.entries, k) && t in s.info.entries[k].cleanups
    ensures Before(s.hist, s.firstKey, t, s.info.entries[k].epoch)
  {
    var es, x := s.info.entries, t.obj;
    var j := ListedNamesOne(s, k, t);
    NumberIs(s, k, t);
    ObjectReady(s, x);
    assert At(TablesOf(s), x)[j] == k + 1;
    assert PlacedAt(es, s.hist[x], s.firstKey[x], j, k + 1);
    if j == 0 {
      FirstNotLate(s, x, k);
    } else {
      ReadsKeptExactly(s);
      LaterNotLate(s, x, j, k);
    }
    forall i | 0 <= i < |s.hist[x].past| && Key(s.hist[x], s.firstKey[x], i) == t.validFrom
      ensures es[k].epoch < s.hist[x].past[i].validTo
    {
      SameKey(s, x, i, j);
    }
  }

  /** In any state where it may be run, renumbering goes through, keeps all reads and leaves every invariant and every
      list in order if and only if the rule of the latest snapshot holds at each entry that is not passed over, every
      object is renumberable and every first version is seen by one registered epoch only. */
  lemma RenumberedExactly(s: State)
    requires Quiescent(s)
    ensures KeepsReads(s) && Inv(CompressAll(s)) && ListsOk(CompressAll(s)) <==>
              RuleAbove(s) && AllRenumberable(s) && AllSeenOnce(s)
  {
    if KeepsReads(s) && Inv(CompressAll(s)) {
      forall k, t | 0 <= k < |s.info.entries| && !Skipped(s.info.entries, k) && t in s.info.entries[k].cleanups
        ensures Before(s.hist, s.firstKey, t, s.info.entries[k].epoch)
      {
        RuleNeeded(s, k, t);
      }
      ConditionNeeded(s);
    }
    if RuleAbove(s) && AllRenumberable(s) && AllSeenOnce(s) {
      CompressKeeps(s);
      CompressKeepsReads(s);
    }
  }

  /** Where the rule holds, reads are kept exactly if every object is renumberable. */
  lemma CompressKeepsReads(s: State)
    requires Compressible(s)
    ensures KeepsReads(s) <==> AllRenumberable(s)
  {
    CompressGoesThrough(s);
    forall x | 0 <= x < |s.hist|
      ensures ObjectKept(s.info.entries, s.hist[x], CompressAll(s).hist[x]) <==> Renumberable(s.info.entries, s.hist[x])
    {
      VersionsSeen(s, x);
      RenumberKeepsReads(s.info.entries, s.hist[x]);
      assert SameShape(s.hist[x], Renumber(s.info.entries, s.hist[x]));
    }
  }

  lemma ConditionNeeded(s: State)
    requires Compressible(s) && KeepsReads(s) && ObjsOk(CompressAll(s))
    ensures AllRenumberable(s) && AllSeenOnce(s)
  {
    CompressKeepsReads(s);
    var s' := CompressAll(s);
    forall x | 0 <= x < |s.hist| ensures FirstSeenOnce(s.info.entries, s.hist[x]) {
      assert ObjOk(s'.hist[x], s'.ideal[x], s'.firstKey[x], x in Ahead(s'.phase), Open(s'.phase, x), s'.info);
      if |s.hist[x].past| > 0 {
        KeptListsFirst(s, x);
      }
    }
  }
}
