/** Renumbering the epochs of the whole store, between commits and with no cleanup under way. */
module CompressStore {
  import opened Histories
  import opened Snapshots
  import opened Mvcc
  import opened MvccSteps
  import opened MvccRuns
  import opened Latest
  import opened Lists
  import opened Compress
  import opened CompressLoop
  import opened CompressStages

  // ---------------------------------------------------------------------------------------------
  // The renumbered store
  // ---------------------------------------------------------------------------------------------

  function Retag(cs: seq<Token>, e: Epoch): (r: seq<Token>)
    ensures |r| == |cs|
  {
    seq(|cs|, i requires 0 <= i < |cs| => Token(cs[i].obj, e))
  }

  /** Entry `k` renumbered; an entry that is passed over keeps its list as it is. */
  function NewEntry(es: seq<Entry>, k: nat): Entry
    requires k < |es|
  {
    Entry(k + 1, es[k].snapshots, if Skipped(es, k) then es[k].cleanups else Retag(es[k].cleanups, k + 1))
  }

  function NewEntries(es: seq<Entry>): (r: seq<Entry>)
    ensures |r| == |es|
  {
    seq(|es|, k requires 0 <= k < |es| => NewEntry(es, k))
  }

  /** The name under which version `j` is listed afterwards. */
  function NewName(es: seq<Entry>, h: History<int>, first: nat, j: nat): nat
    requires j < |h.past|
  {
    if Skipped(es, ListedBy(es, h, j) - 1) then Key(h, first, j) else ListedBy(es, h, j)
  }

  /** The name under which the first version of object `x` is listed afterwards. */
  function NewFirst(es: seq<Entry>, h: History<int>, first: nat, x: Obj): nat {
    if |h.past| == 0 then 1
    else
      var c := NumberOf(es, Token(x, first));
      if Passed(es, c) then first else c
  }

  /** The objects as the loop leaves them. */
  ghost function NewHist(es: seq<Entry>, hist: seq<History<int>>): (r: seq<History<int>>)
    ensures |r| == |hist|
  {
    if TableFits(es, |hist|) then Renumbering(es, hist).hist else hist
  }

  /** Each snapshot takes the number of its entry. */
  function NewEpochs(es: seq<Entry>, epochOf: map<Snap, Epoch>): map<Snap, Epoch> {
    map n | n in epochOf :: IndexOf(es, epochOf[n]) + 1
  }

  /** An epoch, registered or not, among the new numbers: one past the number of registered epochs before it. */
  function Renumbered(es: seq<Entry>, e: Epoch): Epoch {
    Rank(es, e) + 1
  }

  function NewLog(es: seq<Entry>, log: seq<Commit>): (r: seq<Commit>)
    ensures |r| == |log|
  {
    seq(|log|, i requires 0 <= i < |log| => Commit(Renumbered(es, log[i].base), Renumbered(es, log[i].at), log[i].objs))
  }

  /** The whole store renumbered, when nothing is thrown.  The ideal histories start afresh from the renumbered ones,
      since no snapshot can see what came before any more. */
  ghost function CompressAll(s: State): State
    requires WF(s)
  {
    var es := s.info.entries;
    if |es| == 0 then s
    else
      s.(info := Info(|es| + 1, 1, NewEntries(es)),
         hist := NewHist(es, s.hist),
         ideal := NewHist(es, s.hist),
         firstKey := seq(|s.hist|, x requires 0 <= x < |s.hist| => NewFirst(es, s.hist[x], s.firstKey[x], x)),
         epochOf := NewEpochs(es, s.epochOf),
         log := NewLog(es, s.log),
         since := Renumbered(es, s.since))
  }

  /** The rule of the latest snapshot at one entry. */
  ghost predicate RuleAt(s: State, k: nat)
    requires WF(s) && k < |s.info.entries|
  {
    forall t :: t in s.info.entries[k].cleanups ==> Before(s.hist, s.firstKey, t, s.info.entries[k].epoch)
  }

  /** The rule of the latest snapshot holds at every entry that is not passed over. */
  ghost predicate RuleAbove(s: State)
    requires WF(s)
  {
    forall k :: 0 <= k < |s.info.entries| && !Skipped(s.info.entries, k) ==> RuleAt(s, k)
  }

  ghost predicate Compressible(s: State) {
    Quiescent(s) && RuleAbove(s)
  }

  // ---------------------------------------------------------------------------------------------
  // What the lists say about each object
  // ---------------------------------------------------------------------------------------------

  lemma EntriesNumberable(s: State)
    requires Inv(s)
    ensures Numberable(s.info.entries)
  {
  }

  /** Entry number `c` lists version `j`: it is the latest that sees the version, or else it is passed over, as the one
      before it is, which does. */
  ghost predicate ListsVersion(es: seq<Entry>, h: History<int>, j: nat, c: nat)
    requires j < |h.past|
  {
    ListedBy(es, h, j) == c || (Passed(es, c) && ListedBy(es, h, j) + 1 == c && Passed(es, ListedBy(es, h, j)))
  }

  lemma RankedNumber(es: seq<Entry>, h: History<int>, first: nat, j: nat, c: nat)
    requires Numberable(es) && Sorted(h) && j < |h.past| && PlacedAt(es, h, first, j, c)
    requires !Passed(es, c) ==> es[c - 1].epoch < h.past[j].validTo
    ensures ListsVersion(es, h, j, c)
  {
    var v, k := h.past[j].validTo, c - 1;
    RankFrom(es, k, v);
    if es[k].epoch < v {
      RankIs(es, v, k);
      if c < |es| {
        RankIs(es, v, c);
      }
    } else {
      RankOfEntry(es, k);
      NumberBelow(es, k);
    }
  }

  /** Entry number `c` lists version `j`, and sees it unless it is passed over. */
  ghost predicate RuledAt(es: seq<Entry>, h: History<int>, first: nat, j: nat, c: nat)
    requires j < |h.past|
  {
    && PlacedAt(es, h, first, j, c) && ListsVersion(es, h, j, c)
    && (!Passed(es, c) ==> es[c - 1].epoch < h.past[j].validTo)
  }

  ghost predicate Ruled(es: seq<Entry>, h: History<int>, first: nat, at: seq<nat>) {
    |at| == |h.past| && forall j :: 0 <= j < |at| ==> RuledAt(es, h, first, j, at[j])
  }

  lemma RuleSees(s: State, k: nat, t: Token, j: nat)
    requires WF(s) && RuleAbove(s) && k < |s.info.entries| && !Skipped(s.info.entries, k)
    requires t in s.info.entries[k].cleanups
    requires t.obj < |s.hist| && j < |s.hist[t.obj].past| && Key(s.hist[t.obj], s.firstKey[t.obj], j) == t.validFrom
    ensures s.info.entries[k].epoch < s.hist[t.obj].past[j].validTo
  {
    assert RuleAt(s, k);
    assert Before(s.hist, s.firstKey, t, s.info.entries[k].epoch);
  }

  lemma VersionNumber(s: State, x: Obj, j: nat)
    requires Compressible(s) && x < |s.hist| && j < |s.hist[x].past|
    ensures RuledAt(s.info.entries, s.hist[x], s.firstKey[x], j, At(TablesOf(s), x)[j])
    ensures Token(x, Key(s.hist[x], s.firstKey[x], j)) in s.info.entries[At(TablesOf(s), x)[j] - 1].cleanups
  {
    var c := At(TablesOf(s), x)[j];
    VersionPlaced(s, x, j);
    AtNumber(TablesOf(s), x, j);
    if !Passed(s.info.entries, c) {
      RuleSees(s, c - 1, Token(x, Key(s.hist[x], s.firstKey[x], j)), j);
    }
    NewestIs(s, x);
    EntriesNumberable(s);
    RankedNumber(s.info.entries, s.hist[x], s.firstKey[x], j, c);
  }

  lemma ObjectRuled(s: State, x: Obj)
    requires Compressible(s) && x < |s.hist|
    ensures Numberable(s.info.entries) && Sorted(s.hist[x])
    ensures Ruled(s.info.entries, s.hist[x], s.firstKey[x], At(TablesOf(s), x))
  {
    forall j | 0 <= j < |s.hist[x].past|
      ensures RuledAt(s.info.entries, s.hist[x], s.firstKey[x], j, At(TablesOf(s), x)[j])
    {
      VersionNumber(s, x, j);
    }
    ObjectReady(s, x);
    EntriesNumberable(s);
  }

  lemma VersionListed(s: State, x: Obj, j: nat) returns (k: nat)
    requires Compressible(s) && x < |s.hist| && j < |s.hist[x].past|
    ensures k < |s.info.entries| && RuledAt(s.info.entries, s.hist[x], s.firstKey[x], j, k + 1)
    ensures Token(x, Key(s.hist[x], s.firstKey[x], j)) in s.info.entries[k].cleanups
    ensures multiset(s.info.entries[k].cleanups)[Token(x, Key(s.hist[x], s.firstKey[x], j))] == 1
  {
    VersionNumber(s, x, j);
    k := At(TablesOf(s), x)[j] - 1;
    ListedOnceAt(s, k, Token(x, Key(s.hist[x], s.firstKey[x], j)));
  }

  lemma ListedOnceAt(s: State, k: nat, t: Token)
    requires Inv(s) && k < |s.info.entries| && t in s.info.entries[k].cleanups
    ensures multiset(s.info.entries[k].cleanups)[t] == 1
  {
    ListedHas(s.info.entries, k, t);
    OutstandingExpected(s, t);
    ListedSplit(s.info.entries, k);
  }

  lemma TokenVersion(s: State, k: nat, t: Token) returns (j: nat)
    requires Compressible(s) && k < |s.info.entries| && t in s.info.entries[k].cleanups
    ensures t.obj < |s.hist| && j < |s.hist[t.obj].past|
    ensures Key(s.hist[t.obj], s.firstKey[t.obj], j) == t.validFrom
    ensures RuledAt(s.info.entries, s.hist[t.obj], s.firstKey[t.obj], j, k + 1)
  {
    j := ListedNamesOne(s, k, t);
    VersionNumber(s, t.obj, j);
    NumberIs(s, k, t);
  }

  lemma SameKey(s: State, x: Obj, i: nat, j: nat)
    requires Inv(s) && x < |s.hist| && i < |s.hist[x].past| && j < |s.hist[x].past|
    requires Key(s.hist[x], s.firstKey[x], i) == Key(s.hist[x], s.firstKey[x], j)
    ensures i == j
  {
    NewestIs(s, x);
    if i < j {
      KeysIncrease(s.hist[x], s.firstKey[x], i, j);
    } else if j < i {
      KeysIncrease(s.hist[x], s.firstKey[x], j, i);
    }
  }

  lemma RankBelow(es: seq<Entry>, h: History<int>, first: nat, i: nat, j: nat, k: nat)
    requires Increasing(es) && Sorted(h) && i < j < |h.past| && k < |es| && Key(h, first, j) <= es[k].epoch
    ensures ListedBy(es, h, i) <= k
  {
  }

  lemma ListedAfter(es: seq<Entry>, h: History<int>, first: nat, i: nat, j: nat, c: nat)
    requires Numberable(es) && Sorted(h) && i < j < |h.past| && RuledAt(es, h, first, j, c)
    ensures ListedBy(es, h, i) < ListedBy(es, h, j)
  {
    var k := c - 1;
    if ListedBy(es, h, j) == c {
      RankBelow(es, h, first, i, j, k);
    } else {
      var v := ListedBy(es, h, j);
      assert h.past[i].validTo < h.past[j].validTo;
      assert es[v - 1].epoch == v && es[k].epoch == v + 1;
      RankIs(es, h.past[j].validTo, k);
      RankIs(es, h.past[i].validTo, v - 1);
    }
  }

  lemma RuledSeen(es: seq<Entry>, h: History<int>, first: nat, at: seq<nat>)
    requires Numberable(es) && Sorted(h) && Ruled(es, h, first, at)
    ensures AllSeen(es, h)
  {
    if |h.past| > 0 {
      assert RuledAt(es, h, first, 0, at[0]);
    }
    forall i, j | 0 <= i < j < |h.past|
      ensures ListedBy(es, h, i) < ListedBy(es, h, j)
    {
      ListedAfter(es, h, first, i, j, at[j]);
    }
  }

  lemma VersionsSeen(s: State, x: Obj)
    requires Compressible(s) && x < |s.hist|
    ensures Numberable(s.info.entries) && Sorted(s.hist[x]) && AllSeen(s.info.entries, s.hist[x])
  {
    ObjectRuled(s, x);
    RuledSeen(s.info.entries, s.hist[x], s.firstKey[x], At(TablesOf(s), x));
  }

  // ---------------------------------------------------------------------------------------------
  // Reads
  // ---------------------------------------------------------------------------------------------

  ghost predicate AllRenumberable(s: State) {
    forall x :: 0 <= x < |s.hist| ==> Renumberable(s.info.entries, s.hist[x])
  }

  /** Where the rule holds, nothing clashes. */
  lemma RuleNoClash(es: seq<Entry>, h: History<int>, first: nat, at: seq<nat>, i: nat)
    requires Numberable(es) && Sorted(h) && Ruled(es, h, first, at) && i < |at|
    ensures !Clash(es, h, at, i)
  {
    if i > 0 && at[i] == Turn(es, h, at, i) {
      assert RuledAt(es, h, first, i, at[i]);
      if i + 1 < |at| {
        assert RuledAt(es, h, first, i + 1, at[i + 1]);
      }
    }
  }

  /** And the loop renames by rank. */
  lemma RankedEnd(es: seq<Entry>, h: History<int>, first: nat, at: seq<nat>, x: Obj, i: nat)
    requires Numberable(es) && Ruled(es, h, first, at) && i < |at|
    ensures EndAt(es, h, at, x, |es|, [], [], i) == NewEnd(es, h, i)
  {
    if i + 1 < |at| {
      assert RuledAt(es, h, first, i + 1, at[i + 1]);
    } else {
      assert RuledAt(es, h, first, i, at[i]);
    }
  }

  lemma RankedObject(es: seq<Entry>, h: History<int>, first: nat, at: seq<nat>, x: Obj, r: History<int>)
    requires Numberable(es) && Ruled(es, h, first, at) && IsStage(es, h, at, x, |es|, [], [], r)
    ensures r == Renumber(es, h)
  {
    forall i | 0 <= i < |at| ensures r.past[i] == Renumber(es, h).past[i] {
      RankedEnd(es, h, first, at, x, i);
    }
    assert r.past == Renumber(es, h).past;
  }

  /** So where the rule holds at every entry that is not passed over, the loop goes through, and renames by rank. */
  lemma CompressGoesThrough(s: State)
    requires Compressible(s)
    ensures TableFits(s.info.entries, |s.hist|) && Renumbering(s.info.entries, s.hist).ok
    ensures forall x :: 0 <= x < |s.hist| ==> CompressAll(s).hist[x] == Renumber(s.info.entries, s.hist[x])
  {
    var g, n := TablesOf(s), |s.info.entries|;
    LoopReached(s, n);
    forall x: Obj, i: nat | x < |s.hist| && i < |s.hist[x].past| ensures ClearAt(g, n, [], [], x, i) {
      ObjectRuled(s, x);
      RuleNoClash(g.es, g.hist[x], g.firstKey[x], At(g, x), i);
    }
    var hs := Renumbering(s.info.entries, s.hist).hist;
    forall x | 0 <= x < |s.hist| ensures hs[x] == Renumber(s.info.entries, s.hist[x]) {
      ObjectRuled(s, x);
      RankedObject(g.es, g.hist[x], g.firstKey[x], At(g, x), x, hs[x]);
    }
  }

  lemma CompressedHist(s: State, x: Obj)
    requires Compressible(s) && x < |s.hist|
    ensures CompressAll(s).hist[x] == CompressAll(s).ideal[x] == Renumber(s.info.entries, s.hist[x])
  {
    CompressGoesThrough(s);
  }

  lemma RenumberValue(es: seq<Entry>, h: History<int>, k: nat)
    requires Numberable(es) && Sorted(h) && AllSeen(es, h) && Renumberable(es, h) && k < |es|
    ensures ValueAt(Renumber(es, h), k + 1) == ValueAt(h, es[k].epoch)
    ensures ValueAt(Renumber(es, h), |es| + 1) == h.current
  {
    RenumberKeepsReads(es, h);
  }

  lemma CompressedEpoch(s: State, n: Snap) returns (k: nat)
    requires Compressible(s) && n in s.epochOf
    ensures k < |s.info.entries| && s.info.entries[k].epoch == s.epochOf[n] && n in s.info.entries[k].snapshots
    ensures CompressAll(s).epochOf[n] == k + 1
  {
    k := SnapEntry(s, n);
  }

  /** Every live snapshot keeps its whole view across the renumbering. */
  lemma CompressKeepsViews(s: State, n: Snap)
    requires Compressible(s) && AllRenumberable(s) && n in s.epochOf
    ensures n in CompressAll(s).epochOf
    ensures View(CompressAll(s).hist, CompressAll(s).epochOf[n]) == View(s.hist, s.epochOf[n])
  {
    var k := CompressedEpoch(s, n);
    forall x | 0 <= x < |s.hist|
      ensures ValueAt(CompressAll(s).hist[x], k + 1) == ValueAt(s.hist[x], s.epochOf[n])
    {
      VersionsSeen(s, x);
      CompressedHist(s, x);
      RenumberValue(s.info.entries, s.hist[x], k);
    }
  }

  // ---------------------------------------------------------------------------------------------
  // The lists afterwards
  // ---------------------------------------------------------------------------------------------

  /** The first version of every object that has a history is seen by just one registered epoch, or listed
      by an entry that keeps its epoch. */
  predicate FirstSeenOnce(es: seq<Entry>, h: History<int>) {
    |h.past| > 0 ==> Skipped(es, ListedBy(es, h, 0) - 1) || SeenBy(es, h, 0) == 1
  }

  ghost predicate AllSeenOnce(s: State) {
    forall x :: 0 <= x < |s.hist| ==> FirstSeenOnce(s.info.entries, s.hist[x])
  }

  /** After the renumbering, versions go by their new names. */
  lemma NewNames(es: seq<Entry>, h: History<int>, first: nat, first': nat, j: nat)
    requires j < |h.past| && first' == NewName(es, h, first, 0)
    ensures Key(Renumber(es, h), first', j) == NewName(es, h, first, j)
  {
  }

  lemma FirstNameIs(s: State, x: Obj)
    requires Compressible(s) && x < |s.hist| && |s.hist[x].past| > 0
    ensures CompressAll(s).firstKey[x] == NewName(s.info.entries, s.hist[x], s.firstKey[x], 0)
  {
    VersionNumber(s, x, 0);
    AtNumber(TablesOf(s), x, 0);
    FirstNamed(s.info.entries, s.hist[x], s.firstKey[x], x, At(TablesOf(s), x)[0]);
  }

  lemma FirstNamed(es: seq<Entry>, h: History<int>, first: nat, x: Obj, c: nat)
    requires |h.past| > 0 && c == NumberOf(es, Token(x, first)) && RuledAt(es, h, first, 0, c)
    ensures NewFirst(es, h, first, x) == NewName(es, h, first, 0)
  {
  }

  lemma RetagHas(cs: seq<Token>, e: Epoch, t: Token) returns (u: Token)
    requires t in Retag(cs, e)
    ensures t.validFrom == e && u in cs && u.obj == t.obj
  {
    var i :| 0 <= i < |cs| && Retag(cs, e)[i] == t;
    u := cs[i];
  }

  /** The listed cleanup that `t` on a renumbered list comes from. */
  lemma OldToken(es: seq<Entry>, k: nat, t: Token) returns (u: Token)
    requires k < |es| && t in NewEntry(es, k).cleanups
    ensures u in es[k].cleanups && u.obj == t.obj && t.validFrom == if Skipped(es, k) then u.validFrom else k + 1
  {
    if Skipped(es, k) {
      u := t;
    } else {
      u := RetagHas(es[k].cleanups, k + 1, t);
    }
  }

  lemma NameListed(es: seq<Entry>, h: History<int>, first: nat, j: nat, k: nat)
    requires k < |es| && j < |h.past| && RuledAt(es, h, first, j, k + 1)
    ensures NewName(es, h, first, j) == if Skipped(es, k) then Key(h, first, j) else k + 1
  {
  }

  /** What is listed at entry `k` afterwards is the new name of a version that was listed there. */
  lemma NewTokenVersion(s: State, k: nat, t: Token) returns (j: nat)
    requires Compressible(s) && k < |s.info.entries| && t in NewEntry(s.info.entries, k).cleanups
    ensures t.obj < |s.hist| && j < |s.hist[t.obj].past|
    ensures Token(t.obj, Key(s.hist[t.obj], s.firstKey[t.obj], j)) in s.info.entries[k].cleanups
    ensures RuledAt(s.info.entries, s.hist[t.obj], s.firstKey[t.obj], j, k + 1)
    ensures t.validFrom == NewName(s.info.entries, s.hist[t.obj], s.firstKey[t.obj], j)
  {
    var u := OldToken(s.info.entries, k, t);
    j := TokenVersion(s, k, u);
    NameListed(s.info.entries, s.hist[t.obj], s.firstKey[t.obj], j, k);
  }

  lemma {:induction false} RetagCount(cs: seq<Token>, e: Epoch, x: Obj, u: Token)
    requires u.obj == x && forall v :: v in cs && v.obj == x ==> v == u
    ensures multiset(Retag(cs, e))[Token(x, e)] == multiset(cs)[u]
  {
    if |cs| > 0 {
      var n := |cs| - 1;
      RetagCount(cs[..n], e, x, u);
      assert Retag(cs, e) == Retag(cs[..n], e) + [Token(cs[n].obj, e)];
      assert cs == cs[..n] + [cs[n]];
    }
  }

  lemma SameListed(es: seq<Entry>, h: History<int>, first: nat, i: nat, j: nat, c: nat)
    requires Numberable(es) && Sorted(h) && i < |h.past| && j < |h.past| && !Passed(es, c)
    requires RuledAt(es, h, first, i, c) && RuledAt(es, h, first, j, c)
    ensures i == j
  {
    if i < j {
      ListedAfter(es, h, first, i, j, c);
    } else if j < i {
      ListedAfter(es, h, first, j, i, c);
    }
  }

  /** An entry that is not passed over lists no object twice. */
  lemma ListedOnceEach(s: State, k: nat, u: Token, v: Token)
    requires Compressible(s) && k < |s.info.entries| && !Skipped(s.info.entries, k) && u in s.info.entries[k].cleanups
    requires v in s.info.entries[k].cleanups && u.obj == v.obj
    ensures u == v
  {
    var i := TokenVersion(s, k, u);
    var j := TokenVersion(s, k, v);
    Ordered(s, u.obj);
    SameToken(s.info.entries, s.hist[u.obj], s.firstKey[u.obj], i, j, k + 1, u, v);
  }

  lemma Ordered(s: State, x: Obj)
    requires Inv(s) && x < |s.hist|
    ensures Numberable(s.info.entries) && Sorted(s.hist[x])
  {
    NewestIs(s, x);
    EntriesNumberable(s);
  }

  lemma SameToken(es: seq<Entry>, h: History<int>, first: nat, i: nat, j: nat, c: nat, u: Token, v: Token)
    requires Numberable(es) && Sorted(h) && i < |h.past| && j < |h.past| && !Passed(es, c)
    requires RuledAt(es, h, first, i, c) && RuledAt(es, h, first, j, c)
    requires u.obj == v.obj && Key(h, first, i) == u.validFrom && Key(h, first, j) == v.validFrom
    ensures u == v
  {
    SameListed(es, h, first, i, j, c);
  }

  lemma RetaggedOnce(s: State, k: nat, u: Token)
    requires Compressible(s) && k < |s.info.entries| && !Skipped(s.info.entries, k)
    requires multiset(s.info.entries[k].cleanups)[u] == 1
    ensures multiset(Retag(s.info.entries[k].cleanups, k + 1))[Token(u.obj, k + 1)] == 1
  {
    var cs := s.info.entries[k].cleanups;
    assert u in cs;
    forall v | v in cs && v.obj == u.obj ensures v == u {
      ListedOnceEach(s, k, u, v);
    }
    RetagCount(cs, k + 1, u.obj, u);
  }

  /** A version that was listed once at entry `k` is listed there once under its new name. */
  lemma NewTokenOnce(s: State, x: Obj, j: nat) returns (k: nat)
    requires Compressible(s) && x < |s.hist| && j < |s.hist[x].past|
    ensures k < |s.info.entries| && RuledAt(s.info.entries, s.hist[x], s.firstKey[x], j, k + 1)
    ensures Token(x, Key(s.hist[x], s.firstKey[x], j)) in s.info.entries[k].cleanups
    ensures var name := NewName(s.info.entries, s.hist[x], s.firstKey[x], j);
            multiset(NewEntry(s.info.entries, k).cleanups)[Token(x, name)] == 1
  {
    k := VersionListed(s, x, j);
    NameListed(s.info.entries, s.hist[x], s.firstKey[x], j, k);
    if !Skipped(s.info.entries, k) {
      RetaggedOnce(s, k, Token(x, Key(s.hist[x], s.firstKey[x], j)));
    }
  }

  lemma {:induction false} ListedNone(es: seq<Entry>, t: Token)
    requires forall m :: 0 <= m < |es| ==> t !in es[m].cleanups
    ensures Listed(es)[t] == 0
  {
    if |es| > 0 {
      ListedNone(es[..|es| - 1], t);
    }
  }

  lemma ListedSingle(es: seq<Entry>, k: nat, t: Token)
    requires k < |es| && multiset(es[k].cleanups)[t] == 1
    requires forall m :: 0 <= m < |es| && m != k ==> t !in es[m].cleanups
    ensures Listed(es)[t] == 1
  {
    ListedSplit(es, k);
    ListedNone(es[..k], t);
    ListedNone(es[k + 1..], t);
  }

  /** No two versions of an object get the same new name. */
  lemma NewNamesDiffer(s: State, x: Obj, i: nat, j: nat)
    requires Compressible(s) && x < |s.hist| && i < |s.hist[x].past| && j < |s.hist[x].past|
    ensures var es, h, first := s.info.entries, s.hist[x], s.firstKey[x];
            && NewName(es, h, first, j) <= ListedBy(es, h, j)
            && (NewName(es, h, first, i) == NewName(es, h, first, j) ==> i == j)
  {
    NewNameBelow(s, x, j);
    if i < j {
      NewNameOrder(s, x, i, j);
    } else if j < i {
      NewNameOrder(s, x, j, i);
    }
  }

  lemma NewNameOrder(s: State, x: Obj, i: nat, j: nat)
    requires Compressible(s) && x < |s.hist| && i < j < |s.hist[x].past|
    ensures NewName(s.info.entries, s.hist[x], s.firstKey[x], i) < NewName(s.info.entries, s.hist[x], s.firstKey[x], j)
  {
    NewNameBelow(s, x, i);
    VersionsSeen(s, x);
    NameOrder(s.info.entries, s.hist[x], s.firstKey[x], i, j);
  }

  lemma NameOrder(es: seq<Entry>, h: History<int>, first: nat, i: nat, j: nat)
    requires Numberable(es) && Sorted(h) && AllSeen(es, h) && i < j < |h.past|
    requires NewName(es, h, first, i) <= ListedBy(es, h, i)
    ensures NewName(es, h, first, i) < NewName(es, h, first, j)
  {
    var m := j - 1;
    NewNameAbove(es, h, first, j);
    assert i == m || ListedBy(es, h, i) < ListedBy(es, h, m);
  }

  lemma NewNameBelow(s: State, x: Obj, j: nat)
    requires Compressible(s) && x < |s.hist| && j < |s.hist[x].past|
    ensures 1 <= NewName(s.info.entries, s.hist[x], s.firstKey[x], j) <= ListedBy(s.info.entries, s.hist[x], j)
  {
    ObjectRuled(s, x);
    NewestIs(s, x);
    NameBelow(s.info.entries, s.hist[x], s.firstKey[x], j, At(TablesOf(s), x)[j]);
  }

  lemma NameBelow(es: seq<Entry>, h: History<int>, first: nat, j: nat, c: nat)
    requires Numberable(es) && Sorted(h) && 1 <= first && j < |h.past| && first < h.past[0].validTo
    requires RuledAt(es, h, first, j, c)
    ensures 1 <= NewName(es, h, first, j) <= ListedBy(es, h, j)
  {
    if ListedBy(es, h, j) != c {
      RankIs(es, h.past[j].validTo, c - 1);
    }
  }

  lemma NewNameAbove(es: seq<Entry>, h: History<int>, first: nat, j: nat)
    requires Numberable(es) && Sorted(h) && AllSeen(es, h) && 0 < j < |h.past|
    ensures ListedBy(es, h, j - 1) < NewName(es, h, first, j)
  {
    EndsOrdered(es, h, j - 1);
  }

  ghost predicate IsNewName(s: State, t: Token)
    requires WF(s)
  {
    t.obj < |s.hist| &&
    exists j ::
      0 <= j < |s.hist[t.obj].past| && NewName(s.info.entries, s.hist[t.obj], s.firstKey[t.obj], j) == t.validFrom
  }

  lemma NotTwice(s: State, k: nat, m: nat, t: Token)
    requires Inv(s) && k < |s.info.entries| && m < |s.info.entries| && k != m && t in s.info.entries[k].cleanups
    ensures t !in s.info.entries[m].cleanups
  {
    if k < m {
      ListedTwice(s, k, m, t);
    } else if t in s.info.entries[m].cleanups {
      ListedTwice(s, m, k, t);
    }
  }

  /** Afterwards as before, each obsolete version is listed exactly once, under its new name. */
  lemma NewListed(s: State, t: Token)
    requires Compressible(s)
    ensures Listed(NewEntries(s.info.entries))[t] == if IsNewName(s, t) then 1 else 0
  {
    var es, es' := s.info.entries, NewEntries(s.info.entries);
    if IsNewName(s, t) {
      var j :| 0 <= j < |s.hist[t.obj].past| && NewName(es, s.hist[t.obj], s.firstKey[t.obj], j) == t.validFrom;
      var k := NewTokenOnce(s, t.obj, j);
      forall m | 0 <= m < |es'| && m != k
        ensures t !in es'[m].cleanups
      {
        if t in es'[m].cleanups {
          var i := NewTokenVersion(s, m, t);
          NewNamesDiffer(s, t.obj, i, j);
          NotTwice(s, k, m, Token(t.obj, Key(s.hist[t.obj], s.firstKey[t.obj], j)));
        }
      }
      ListedSingle(es', k, t);
    } else {
      forall m | 0 <= m < |es'|
        ensures t !in es'[m].cleanups
      {
        if t in es'[m].cleanups {
          var i := NewTokenVersion(s, m, t);
        }
      }
      ListedNone(es', t);
    }
  }

  // ---------------------------------------------------------------------------------------------
  // The invariants afterwards
  // ---------------------------------------------------------------------------------------------

  lemma NewInfoOk(es: seq<Entry>)
    requires |es| > 0 && forall k :: 0 <= k < |es| ==> es[k].snapshots != {}
    ensures InfoOk(Info(|es| + 1, 1, NewEntries(es)))
  {
  }

  lemma NewMember(info: Info, epochOf: map<Snap, Epoch>, k: nat, n: Snap)
    requires Increasing(info.entries) && SnapsOk(info, epochOf) && k < |info.entries| && n in info.entries[k].snapshots
    ensures n in NewEpochs(info.entries, epochOf) && NewEpochs(info.entries, epochOf)[n] == k + 1
  {
  }

  lemma NewHeld(info: Info, epochOf: map<Snap, Epoch>, n: Snap)
    requires Increasing(info.entries) && SnapsOk(info, epochOf) && n in epochOf
    ensures HeldAt(NewEntries(info.entries), NewEpochs(info.entries, epochOf)[n], n)
  {
    var es := info.entries;
    var k :| 0 <= k < |es| && es[k].epoch == epochOf[n] && n in es[k].snapshots;
    IndexOfEntry(es, k);
    assert NewEntries(es)[k].epoch == k + 1 && n in NewEntries(es)[k].snapshots;
  }

  lemma NewSnapsOk(info: Info, epochOf: map<Snap, Epoch>, info': Info)
    requires Increasing(info.entries) && SnapsOk(info, epochOf) && info'.entries == NewEntries(info.entries)
    ensures SnapsOk(info', NewEpochs(info.entries, epochOf))
  {
    var epochOf' := NewEpochs(info.entries, epochOf);
    forall k, n | 0 <= k < |info'.entries| && n in info'.entries[k].snapshots
      ensures n in epochOf' && epochOf'[n] == info'.entries[k].epoch
    {
      NewMember(info, epochOf, k, n);
    }
    forall n | n in epochOf'
      ensures HeldAt(info'.entries, epochOf'[n], n)
    {
      NewHeld(info, epochOf, n);
    }
  }

  lemma CompressInfo(s: State)
    requires Compressible(s)
    ensures InfoOk(CompressAll(s).info) && SnapsOk(CompressAll(s).info, CompressAll(s).epochOf)
  {
    NewInfoOk(s.info.entries);
    NewSnapsOk(s.info, s.epochOf, CompressAll(s).info);
  }

  lemma CompressExpected(s: State, t: Token)
    requires Compressible(s)
    ensures Expected(CompressAll(s), t) <==> IsNewName(s, t)
  {
    var s' := CompressAll(s);
    if t.obj < |s.hist| {
      var h, first := s.hist[t.obj], s.firstKey[t.obj];
      CompressedHist(s, t.obj);
      forall j | 0 <= j < |h.past|
        ensures Key(s'.hist[t.obj], s'.firstKey[t.obj], j) == NewName(s.info.entries, h, first, j)
      {
        FirstNameIs(s, t.obj);
        NewNames(s.info.entries, h, first, s'.firstKey[t.obj], j);
      }
    }
  }

  lemma CompressTokens(s: State)
    requires Compressible(s)
    ensures TokensOk(CompressAll(s))
  {
    forall t: Token
      ensures Outstanding(CompressAll(s))[t] == if Expected(CompressAll(s), t) then 1 else 0
    {
      CompressExpected(s, t);
      NewListed(s, t);
    }
  }

  lemma CompressObjAt(s: State, x: Obj)
    requires Compressible(s) && x < |s.hist| && Renumberable(s.info.entries, s.hist[x])
    requires FirstSeenOnce(s.info.entries, s.hist[x])
    ensures var s' := CompressAll(s); ObjOk(s'.hist[x], s'.ideal[x], s'.firstKey[x], false, false, s'.info)
  {
    VersionsSeen(s, x);
    NewestIs(s, x);
    CompressedHist(s, x);
    if |s.hist[x].past| > 0 {
      FirstNameIs(s, x);
      NewFirstIsOne(s.info.entries, s.hist[x], s.firstKey[x]);
    }
    NewObj(s.info.entries, s.hist[x]);
  }

  lemma NewObjEnds(es: seq<Entry>, h: History<int>)
    requires Numberable(es) && Sorted(h) && AllSeen(es, h) && Renumberable(es, h)
    ensures Sorted(Renumber(es, h))
    ensures forall i :: 0 <= i < |h.past| ==> Renumber(es, h).past[i].validTo == ListedBy(es, h, i) + 1
    ensures NewestFrom(Renumber(es, h)) <= |es| + 1
  {
    RenumberSorted(es, h);
    EndsRightIf(es, h);
  }

  lemma NewFirstIsOne(es: seq<Entry>, h: History<int>, first: nat)
    requires Numberable(es) && AllSeen(es, h) && FirstSeenOnce(es, h) && |es| > 0
    requires |h.past| > 0 && 1 <= first <= es[0].epoch
    ensures NewName(es, h, first, 0) == 1
  {
    NumberBelow(es, ListedBy(es, h, 0) - 1);
  }

  lemma NewObj(es: seq<Entry>, h: History<int>)
    requires Numberable(es) && Sorted(h) && AllSeen(es, h) && Renumberable(es, h) && |es| > 0
    ensures ObjOk(Renumber(es, h), Renumber(es, h), 1, false, false, Info(|es| + 1, 1, NewEntries(es)))
  {
    NewObjEnds(es, h);
  }

  lemma CompressObjs(s: State)
    requires Compressible(s) && AllRenumberable(s) && AllSeenOnce(s)
    ensures ObjsOk(CompressAll(s))
  {
    var s' := CompressAll(s);
    forall x | 0 <= x < |s.hist|
      ensures ObjOk(s'.hist[x], s'.ideal[x], s'.firstKey[x], x in Ahead(s'.phase), Open(s'.phase, x), s'.info)
    {
      CompressObjAt(s, x);
    }
  }

  /** A renumbered version that entry `k` lists ends right after that entry, or, where it was listed too late and the
      entry is passed over, at it. */
  lemma RuledEnds(es: seq<Entry>, h: History<int>, first: nat, j: nat, k: nat)
    requires Numberable(es) && Sorted(h) && AllSeen(es, h) && Renumberable(es, h) && k < |es| && j < |h.past|
    requires RuledAt(es, h, first, j, k + 1)
    ensures k + 1 <= Renumber(es, h).past[j].validTo <= k + 2
    ensures es[k].epoch < h.past[j].validTo ==> Renumber(es, h).past[j].validTo == k + 2
  {
    EndsRightIf(es, h);
    assert Renumber(es, h).past[j].validTo == ListedBy(es, h, j) + 1;
    if es[k].epoch < h.past[j].validTo {
      RankIs(es, h.past[j].validTo, k);
    }
  }

  /** The version that a renumbered list names. */
  lemma CompressedVersion(s: State, k: nat, t: Token, i: nat)
    requires Compressible(s) && k < |s.info.entries| && t in NewEntry(s.info.entries, k).cleanups
    requires t.obj < |s.hist| && i < |CompressAll(s).hist[t.obj].past|
    requires Key(CompressAll(s).hist[t.obj], CompressAll(s).firstKey[t.obj], i) == t.validFrom
    ensures i < |s.hist[t.obj].past| && RuledAt(s.info.entries, s.hist[t.obj], s.firstKey[t.obj], i, k + 1)
    ensures Token(t.obj, Key(s.hist[t.obj], s.firstKey[t.obj], i)) in s.info.entries[k].cleanups
    ensures t.validFrom <= k + 1
  {
    var x := t.obj;
    var es, h, first := s.info.entries, s.hist[x], s.firstKey[x];
    var j := NewTokenVersion(s, k, t);
    CompressedHist(s, x);
    FirstNameIs(s, x);
    NewNames(es, h, first, CompressAll(s).firstKey[x], i);
    NewNamesDiffer(s, x, i, j);
  }

  lemma CompressEnds(s: State, k: nat, t: Token, i: nat)
    requires Compressible(s) && AllRenumberable(s) && k < |s.info.entries| && t in NewEntry(s.info.entries, k).cleanups
    requires t.obj < |s.hist| && i < |CompressAll(s).hist[t.obj].past|
    requires Key(CompressAll(s).hist[t.obj], CompressAll(s).firstKey[t.obj], i) == t.validFrom
    ensures var e := CompressAll(s).hist[t.obj].past[i].validTo;
            k + 1 <= e <= k + 2 && (ListedSeen(s.info.entries, s.hist, s.firstKey) ==> e == k + 2)
    ensures t.validFrom <= k + 1
  {
    var x := t.obj;
    var es, h, first := s.info.entries, s.hist[x], s.firstKey[x];
    CompressedVersion(s, k, t, i);
    CompressedHist(s, x);
    VersionsSeen(s, x);
    RuledEnds(es, h, first, i, k);
    if ListedSeen(es, s.hist, s.firstKey) {
      SeenEnd(es, s.hist, s.firstKey, x, i, k);
    }
  }

  lemma SeenEnd(es: seq<Entry>, hist: seq<History<int>>, firstKey: seq<nat>, x: Obj, i: nat, k: nat)
    requires |hist| == |firstKey| && ListedSeen(es, hist, firstKey) && x < |hist| && i < |hist[x].past| && k < |es|
    requires Token(x, Key(hist[x], firstKey[x], i)) in es[k].cleanups
    ensures es[k].epoch < hist[x].past[i].validTo
  {
    assert Before(hist, firstKey, Token(x, Key(hist[x], firstKey[x], i)), es[k].epoch - 0);
  }

  lemma CompressSafe(s: State)
    requires Compressible(s) && AllRenumberable(s)
    ensures ListedSafe(CompressAll(s))
  {
    var es' := CompressAll(s).info.entries;
    forall k, t, m | 0 <= k < m < |es'| && t in es'[k].cleanups
      ensures Beyond(CompressAll(s).hist, CompressAll(s).firstKey, t, es'[m].epoch)
    {
      CompressSafeAt(s, k, t, m + 1);
    }
  }

  lemma CompressSafeAt(s: State, k: nat, t: Token, e: Epoch)
    requires Compressible(s) && AllRenumberable(s) && k < |s.info.entries| && t in NewEntry(s.info.entries, k).cleanups
    requires k + 2 <= e
    ensures Beyond(CompressAll(s).hist, CompressAll(s).firstKey, t, e)
  {
    var s' := CompressAll(s);
    forall i | t.obj < |s.hist| && 0 <= i < |s'.hist[t.obj].past| &&
               Key(s'.hist[t.obj], s'.firstKey[t.obj], i) == t.validFrom
      ensures e >= s'.hist[t.obj].past[i].validTo
    {
      CompressEnds(s, k, t, i);
    }
  }

  /** The lists stay within their versions, and keep the rule of the latest snapshot if they kept it before. */
  lemma CompressListed(s: State, slack: nat)
    requires Compressible(s) && AllRenumberable(s)
    requires slack > 0 || ListedSeen(s.info.entries, s.hist, s.firstKey)
    ensures ListedBefore(CompressAll(s).info.entries, CompressAll(s).hist, CompressAll(s).firstKey, slack)
  {
    var es' := CompressAll(s).info.entries;
    forall k, t | 0 <= k < |es'| && t in es'[k].cleanups
      ensures t.validFrom <= es'[k].epoch
      ensures Before(CompressAll(s).hist, CompressAll(s).firstKey, t, es'[k].epoch - slack)
    {
      CompressListedAt(s, k, t, slack);
    }
  }

  lemma CompressListedAt(s: State, k: nat, t: Token, slack: nat)
    requires Compressible(s) && AllRenumberable(s) && k < |s.info.entries| && t in NewEntry(s.info.entries, k).cleanups
    requires slack > 0 || ListedSeen(s.info.entries, s.hist, s.firstKey)
    ensures t.validFrom <= k + 1 && Before(CompressAll(s).hist, CompressAll(s).firstKey, t, k + 1 - slack)
  {
    var s' := CompressAll(s);
    var j := NewTokenVersion(s, k, t);
    NewNamesDiffer(s, t.obj, j, j);
    forall i | 0 <= i < |s'.hist[t.obj].past| && Key(s'.hist[t.obj], s'.firstKey[t.obj], i) == t.validFrom
      ensures k + 1 - slack < s'.hist[t.obj].past[i].validTo
    {
      CompressEnds(s, k, t, i);
    }
  }

  lemma CompressInOrder(s: State)
    requires Compressible(s)
    ensures ListsInOrder(CompressAll(s).info.entries)
  {
    var es := s.info.entries;
    forall k | 0 <= k < |es| ensures InOrder(NewEntry(es, k).cleanups) {
      if !Skipped(es, k) {
        var cs := es[k].cleanups;
        assert InOrder(cs);
        forall a, b | 0 <= a < b < |cs| && cs[a].obj == cs[b].obj ensures false {
          ListedOnceEach(s, k, cs[a], cs[b]);
        }
      }
    }
  }

  lemma CompressBoxes(s: State)
    requires Compressible(s) && AllRenumberable(s)
    ensures BoxesOk(CompressAll(s))
  {
    var s' := CompressAll(s);
    forall n, x | n in s'.epochOf && x in s'.boxes[n] && x < |s'.ideal| && s'.boxes[n][x].live
      ensures s'.boxes[n][x].base == ValueAt(s'.ideal[x], s'.epochOf[n])
    {
      CompressCopy(s, n, x);
    }
  }

  lemma CompressCopy(s: State, n: Snap, x: Obj)
    requires Compressible(s) && AllRenumberable(s) && n in s.epochOf && x in s.boxes[n] && s.boxes[n][x].live
    requires x < |s.hist|
    ensures s.boxes[n][x].base == ValueAt(CompressAll(s).ideal[x], CompressAll(s).epochOf[n])
  {
    var k := CompressedEpoch(s, n);
    VersionsSeen(s, x);
    CompressedHist(s, x);
    RenumberValue(s.info.entries, s.hist[x], k);
    CopyReads(s, n, x, k);
  }

  lemma CopyReads(s: State, n: Snap, x: Obj, k: nat)
    requires Inv(s) && n in s.epochOf && x in s.boxes[n] && s.boxes[n][x].live && x < |s.hist|
    requires k < |s.info.entries| && s.info.entries[k].epoch == s.epochOf[n]
    ensures s.boxes[n][x].base == ValueAt(s.hist[x], s.info.entries[k].epoch)
  {
    NewestIs(s, x);
  }

  /** If every object is renumberable and every first version is seen by one registered epoch only, the renumbered
      store satisfies every invariant again, and the rule of the latest snapshot if it did so before. */
  lemma CompressKeeps(s: State)
    requires Compressible(s) && AllRenumberable(s) && AllSeenOnce(s)
    ensures Inv(CompressAll(s)) && ListsOk(CompressAll(s))
    ensures ListedSeen(s.info.entries, s.hist, s.firstKey) ==> Strong(CompressAll(s))
  {
    CompressInfo(s);
    CompressObjs(s);
    CompressTokens(s);
    CompressSafe(s);
    CompressListed(s, 1);
    CompressInOrder(s);
    CompressBoxes(s);
    CompressLog(s);
    CompressRest(s);
    if ListedSeen(s.info.entries, s.hist, s.firstKey) {
      CompressListed(s, 0);
    }
  }

  lemma CompressRest(s: State)
    requires Compressible(s)
    ensures InflightSafe(CompressAll(s)) && NextEpoch(CompressAll(s)) && NoneTaken(CompressAll(s))
    ensures Pending(CompressAll(s))
  {
  }

  // The log

  lemma NewestRenumbered(s: State, x: Obj)
    requires Compressible(s) && AllRenumberable(s) && x < |s.hist|
    ensures NewestFrom(CompressAll(s).ideal[x]) <= Renumbered(s.info.entries, NewestFrom(s.ideal[x]))
    ensures forall e: Epoch :: e <= NewestFrom(s.ideal[x]) ==>
              Renumbered(s.info.entries, e) <= NewestFrom(CompressAll(s).ideal[x])
  {
    var es, h := s.info.entries, s.hist[x];
    CompressedHist(s, x);
    VersionsSeen(s, x);
    NewestIs(s, x);
    if |h.past| > 0 {
      NewObjEnds(es, h);
    } else {
      assert es[0].epoch >= NewestFrom(s.ideal[x]);
    }
    forall e: Epoch | e <= NewestFrom(s.ideal[x]) ensures Renumbered(es, e) <= NewestFrom(CompressAll(s).ideal[x]) {
      RankMonotone(es, e, NewestFrom(s.ideal[x]));
      RankIs(es, e, 0);
    }
  }

  lemma LogWritten(s: State, x: Obj)
    requires Compressible(s) && AllRenumberable(s) && x < |s.hist|
    ensures WrittenBy(CompressAll(s).log, CompressAll(s).ideal[x], x, CompressAll(s).since)
  {
    var es, s' := s.info.entries, CompressAll(s);
    var e := NewestFrom(s.ideal[x]);
    NewestRenumbered(s, x);
    assert WrittenBy(s.log, s.ideal[x], x, s.since);
    if e <= s.since {
      RankMonotone(es, e, s.since);
    } else {
      var i: nat :| Wrote(s.log, i, x) && s.log[i].at == e;
      assert Wrote(s'.log, i, x) && s'.log[i].at == Renumbered(es, e);
    }
  }

  lemma LogOrdered(es: seq<Entry>, log: seq<Commit>, i: nat, j: nat)
    requires Increasing(es) && i < |log| && j < |log|
    ensures log[i].base <= log[i].at ==> NewLog(es, log)[i].base <= NewLog(es, log)[i].at
    ensures log[i].at <= log[j].at ==> NewLog(es, log)[i].at <= NewLog(es, log)[j].at
    ensures log[i].at <= log[j].base ==> NewLog(es, log)[i].at <= NewLog(es, log)[j].base
  {
    if log[i].base <= log[i].at {
      RankMonotone(es, log[i].base, log[i].at);
    }
    if log[i].at <= log[j].at {
      RankMonotone(es, log[i].at, log[j].at);
    }
    if log[i].at <= log[j].base {
      RankMonotone(es, log[i].at, log[j].base);
    }
  }

  /** The log of commits, with renumbered epochs, is still in order. */
  lemma CompressLog(s: State)
    requires Compressible(s) && AllRenumberable(s)
    ensures LogOk(CompressAll(s))
  {
    var es, s' := s.info.entries, CompressAll(s);
    EntriesNumberable(s);
    forall i | 0 <= i < |s.log| ensures s'.log[i].base <= s'.log[i].at <= s'.info.current {
      LogOrdered(es, s.log, i, i);
    }
    forall i: nat, x: Obj | Wrote(s'.log, i, x) ensures x < |s'.ideal| && s'.log[i].at <= NewestFrom(s'.ideal[x]) {
      assert Wrote(s.log, i, x);
      NewestRenumbered(s, x);
    }
    forall i, j | 0 <= i < j < |s.log| ensures s'.log[i].at <= s'.log[j].at {
      LogOrdered(es, s.log, i, j);
    }
    forall i: nat, j: nat, x: Obj | Wrote(s'.log, i, x) && Wrote(s'.log, j, x) && i < j
      ensures s'.log[i].at <= s'.log[j].base
    {
      assert Wrote(s.log, i, x) && Wrote(s.log, j, x);
      LogOrdered(es, s.log, i, j);
    }
    forall x | 0 <= x < |s'.ideal| ensures WrittenBy(s'.log, s'.ideal[x], x, s'.since) {
      LogWritten(s, x);
    }
  }

  // ---------------------------------------------------------------------------------------------
  // The condition is needed
  // ---------------------------------------------------------------------------------------------

  lemma KeptListsEnd(s: State, x: Obj, j: nat)
    requires Compressible(s) && ListedSeen(s.info.entries, s.hist, s.firstKey) && x < |s.hist| && j < |s.hist[x].past|
    requires var s' := CompressAll(s); Inv(s') && ListedSeen(s'.info.entries, s'.hist, s'.firstKey)
    ensures NewEnd(s.info.entries, s.hist[x], j) == ListedBy(s.info.entries, s.hist[x], j) + 1
  {
    var k := ListedNumber(s, x, j);
    NewTokenKey(s, x, j, k);
    NewTokenEnd(s, x, j, k);
  }

  lemma ListedNumber(s: State, x: Obj, j: nat) returns (k: nat)
    requires Compressible(s) && ListedSeen(s.info.entries, s.hist, s.firstKey) && x < |s.hist| && j < |s.hist[x].past|
    ensures k < |s.info.entries| && ListedBy(s.info.entries, s.hist[x], j) == k + 1
    ensures var name := NewName(s.info.entries, s.hist[x], s.firstKey[x], j);
            multiset(NewEntry(s.info.entries, k).cleanups)[Token(x, name)] == 1
  {
    k := NewTokenOnce(s, x, j);
    EntriesNumberable(s);
    SeenNumber(s, x, j, k);
  }

  lemma NewTokenEnd(s: State, x: Obj, j: nat, k: nat)
    requires WF(s) && s.phase.Idle? && x < |s.hist| && k < |s.info.entries|
    requires var s' := CompressAll(s); Inv(s') && ListedSeen(s'.info.entries, s'.hist, s'.firstKey)
    requires var s' := CompressAll(s);
             j < |s'.hist[x].past| && Token(x, Key(s'.hist[x], s'.firstKey[x], j)) in s'.info.entries[k].cleanups
    ensures CompressAll(s).hist[x].past[j].validTo == k + 2
  {
    CompressedShape(s);
    ListedEnd(CompressAll(s), x, j, k);
  }

  lemma CompressedShape(s: State)
    requires WF(s) && |s.info.entries| > 0
    ensures var s', n := CompressAll(s), |s.info.entries|;
            && |s'.info.entries| == n && s'.info.current == n + 1 && s'.phase == s.phase && |s'.hist| == |s.hist|
            && forall m :: 0 <= m < n ==> s'.info.entries[m].epoch == m + 1
  {
  }

  lemma SeenNumber(s: State, x: Obj, j: nat, k: nat)
    requires WF(s) && Increasing(s.info.entries) && ListedSeen(s.info.entries, s.hist, s.firstKey)
    requires x < |s.hist| && j < |s.hist[x].past| && k < |s.info.entries|
    requires Token(x, Key(s.hist[x], s.firstKey[x], j)) in s.info.entries[k].cleanups
    requires RuledAt(s.info.entries, s.hist[x], s.firstKey[x], j, k + 1)
    ensures ListedBy(s.info.entries, s.hist[x], j) == k + 1
  {
    SeenEnd(s.info.entries, s.hist, s.firstKey, x, j, k);
    RankIs(s.info.entries, s.hist[x].past[j].validTo, k);
  }

  lemma NewTokenKey(s: State, x: Obj, j: nat, k: nat)
    requires Compressible(s) && x < |s.hist| && j < |s.hist[x].past| && k < |s.info.entries|
    requires var name := NewName(s.info.entries, s.hist[x], s.firstKey[x], j);
             multiset(NewEntry(s.info.entries, k).cleanups)[Token(x, name)] == 1
    ensures var s' := CompressAll(s);
            && j < |s'.hist[x].past| && s'.hist[x].past[j].validTo == NewEnd(s.info.entries, s.hist[x], j)
            && Token(x, Key(s'.hist[x], s'.firstKey[x], j)) in s'.info.entries[k].cleanups
  {
    CompressedHist(s, x);
    FirstNameIs(s, x);
    NewNames(s.info.entries, s.hist[x], s.firstKey[x], CompressAll(s).firstKey[x], j);
  }

  /** Where the registered epochs are 1, 2, 3 and so on, a version that entry `k` lists ends right after it. */
  lemma ListedEnd(s: State, x: Obj, j: nat, k: nat)
    requires Inv(s) && ListedSeen(s.info.entries, s.hist, s.firstKey) && s.phase.Idle?
    requires x < |s.hist| && j < |s.hist[x].past| && k < |s.info.entries|
    requires s.info.current == |s.info.entries| + 1
    requires forall m :: 0 <= m < |s.info.entries| ==> s.info.entries[m].epoch == m + 1
    requires Token(x, Key(s.hist[x], s.firstKey[x], j)) in s.info.entries[k].cleanups
    ensures s.hist[x].past[j].validTo == k + 2
  {
    SeenLatest(s.info.entries, s.hist, s.firstKey, x, j, k);
    EndWithinCurrent(s, x, j);
    SeerEnd(s.info.entries, s.hist[x], s.firstKey[x], j, k);
  }

  /** Where entry `k` has number k + 1, a version whose latest seer is entry `k` ends right after it. */
  lemma SeerEnd(es: seq<Entry>, h: History<int>, first: nat, j: nat, k: nat)
    requires j < |h.past| && IsLatestSeer(es, h, first, j, k) && h.past[j].validTo <= |es| + 1
    requires forall m :: 0 <= m < |es| ==> es[m].epoch == m + 1
    ensures h.past[j].validTo == k + 2
  {
    var m := k + 1;
    assert m < |es| ==> es[m].epoch == m + 1;
  }

  lemma EndWithinCurrent(s: State, x: Obj, j: nat)
    requires Inv(s) && s.phase.Idle? && x < |s.hist| && j < |s.hist[x].past|
    ensures s.hist[x].past[j].validTo <= s.info.current
  {
  }

  lemma NewFirstBound(es: seq<Entry>, h: History<int>, first: nat)
    requires |h.past| > 0 && NewName(es, h, first, 0) <= 1 && ListedBy(es, h, 0) > 0
    ensures FirstSeenOnce(es, h)
  {
  }

  lemma KeptListsFirst(s: State, x: Obj)
    requires Compressible(s) && x < |s.hist| && |s.hist[x].past| > 0
    requires var s' := CompressAll(s); ObjOk(s'.hist[x], s'.ideal[x], s'.firstKey[x], false, false, s'.info)
    ensures FirstSeenOnce(s.info.entries, s.hist[x])
  {
    var s' := CompressAll(s);
    assert s'.info.entries[0].epoch == 1;
    assert s'.firstKey[x] <= 1;
    VersionsSeen(s, x);
    FirstNameIs(s, x);
    NewFirstBound(s.info.entries, s.hist[x], s.firstKey[x]);
  }

  /** Where the rule of the latest snapshot holds, the renumbered store satisfies the invariants and the rule only under
      the condition. */
  lemma CompressNeeds(s: State)
    requires Compressible(s) && ListedSeen(s.info.entries, s.hist, s.firstKey)
    requires var s' := CompressAll(s); Inv(s') && ListedSeen(s'.info.entries, s'.hist, s'.firstKey)
    ensures AllRenumberable(s) && AllSeenOnce(s)
  {
    forall x | 0 <= x < |s.hist|
      ensures Renumberable(s.info.entries, s.hist[x]) && FirstSeenOnce(s.info.entries, s.hist[x])
    {
      VersionsSeen(s, x);
      forall j | 0 <= j < |s.hist[x].past|
        ensures NewEnd(s.info.entries, s.hist[x], j) == ListedBy(s.info.entries, s.hist[x], j) + 1
      {
        KeptListsEnd(s, x, j);
      }
      EndsRightOnly(s.info.entries, s.hist[x]);
      if |s.hist[x].past| > 0 {
        NewestIs(CompressAll(s), x);
        KeptListsFirst(s, x);
      }
    }
  }
}
