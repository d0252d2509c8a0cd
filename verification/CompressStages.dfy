/** Renumbering renaming by renaming: what each one does to an object, and exactly when one is refused. */
module CompressStages {
  import opened Histories
  import opened Snapshots
  import opened Mvcc
  import opened MvccSteps
  import opened Latest
  import opened Lists
  import opened Compress
  import opened CompressLoop

  // ---------------------------------------------------------------------------------------------
  // One renaming
  // ---------------------------------------------------------------------------------------------

  lemma {:induction false} FindRising<T>(h: History<T>, k: nat)
    requires Rising(h) && k < |h.past|
    ensures FindValidTo(h, 0, h.past[k].validTo) == Some(k)
  {
    FindValidToFirst(h, 0, k, h.past[k].validTo);
  }

  /** Moving boundary `k` down to a place below the next one is refused exactly if the one before is not below it. */
  lemma RenameBoundary<T>(r: History<T>, k: nat, to: nat)
    requires Rising(r) && k < |r.past| && (k + 1 < |r.past| ==> to < r.past[k + 1].validTo)
    ensures Rename(r, r.past[k].validTo, to) ==
            if k > 0 && r.past[k - 1].validTo >= to then RenameFailed
            else Renamed(SetValidTo(r, k, to), if k + 2 == |r.past| then r.past[k + 1].validTo else 0)
    ensures k == 0 || r.past[k - 1].validTo < to ==> Rising(SetValidTo(r, k, to))
  {
    FindRising(r, k);
  }

  // ---------------------------------------------------------------------------------------------
  // When the boundaries of an object are renamed
  // ---------------------------------------------------------------------------------------------

  /** Entry number `c`, counting from 1, is passed over. */
  predicate Passed(es: seq<Entry>, c: nat) {
    0 < c <= |es| && es[c - 1].epoch == c
  }

  /** Version `j` may be listed by entry number `c`: it has begun by then, it ends then or later, and it has ended by
      every later entry. */
  ghost predicate PlacedAt(es: seq<Entry>, h: History<int>, first: nat, j: nat, c: nat)
    requires j < |h.past|
  {
    && 1 <= c <= |es| && Key(h, first, j) <= es[c - 1].epoch <= h.past[j].validTo
    && forall m :: c <= m < |es| ==> es[m].epoch >= h.past[j].validTo
  }

  /** Version `j` is listed by entry number `at[j]`. */
  ghost predicate Placed(es: seq<Entry>, h: History<int>, first: nat, at: seq<nat>) {
    |at| == |h.past| && forall j :: 0 <= j < |at| ==> PlacedAt(es, h, first, j, at[j])
  }

  lemma EntryOrder(es: seq<Entry>, i: nat, j: nat)
    requires Increasing(es) && i < |es| && j < |es| && es[i].epoch <= es[j].epoch
    ensures i <= j
  {
  }

  lemma PlacedOrder(es: seq<Entry>, h: History<int>, first: nat, i: nat, j: nat, c: nat, d: nat)
    requires i < |h.past| && j < |h.past| && h.past[i].validTo < h.past[j].validTo
    requires PlacedAt(es, h, first, i, c) && PlacedAt(es, h, first, j, d)
    ensures c <= d
  {
  }

  lemma PlacedInOrder(es: seq<Entry>, h: History<int>, first: nat, at: seq<nat>, i: nat, j: nat)
    requires Placed(es, h, first, at) && Sorted(h) && i <= j < |at|
    ensures at[i] <= at[j]
  {
    assert PlacedAt(es, h, first, i, at[i]) && PlacedAt(es, h, first, j, at[j]);
    if i < j {
      PlacedOrder(es, h, first, i, j, at[i], at[j]);
    }
  }

  /** The number of the entry at which the end of version `i` is due to be renamed: the one that lists the next
      version, or, for the start of the newest version, the one with exactly its epoch. */
  function Turn(es: seq<Entry>, h: History<int>, at: seq<nat>, i: nat): nat
    requires i < |h.past| == |at|
  {
    if i + 1 < |at| then at[i + 1] else Rank(es, h.past[i].validTo) + 1
  }

  /** The end of version `i` is renamed at all. */
  predicate Moves(es: seq<Entry>, h: History<int>, at: seq<nat>, i: nat)
    requires i < |h.past| == |at|
  {
    if i + 1 < |at| then !Passed(es, at[i + 1])
    else Registered(es, h.past[i].validTo) && !Passed(es, at[i])
  }

  /** The ends of versions `i - 1` and `i` are due at the same entry, so they would come to stand at the same number. */
  ghost predicate Clash(es: seq<Entry>, h: History<int>, at: seq<nat>, i: nat)
    requires i < |h.past| == |at|
  {
    i > 0 && Moves(es, h, at, i - 1) && Moves(es, h, at, i) && Turn(es, h, at, i - 1) == Turn(es, h, at, i)
  }

  /** The renaming of the end of version `i` has had its turn when `b` entries are gone through, and of the next one
      the cleanups in `names` and the objects in `finals`. */
  predicate Had(es: seq<Entry>, h: History<int>, at: seq<nat>, x: Obj, b: nat, names: seq<Token>, finals: seq<Obj>,
                i: nat)
    requires i < |h.past| == |at|
  {
    || Turn(es, h, at, i) <= b
    || (&& Turn(es, h, at, i) == b + 1
        && if i + 1 < |at| then Token(x, h.past[i].validTo) in names else x in finals)
  }

  function EndAt(es: seq<Entry>, h: History<int>, at: seq<nat>, x: Obj, b: nat, names: seq<Token>, finals: seq<Obj>,
                 i: nat): nat
    requires i < |h.past| == |at|
  {
    if Moves(es, h, at, i) && Had(es, h, at, x, b, names, finals, i) then Turn(es, h, at, i) else h.past[i].validTo
  }

  /** Object `x` as it is then. */
  ghost predicate IsStage(es: seq<Entry>, h: History<int>, at: seq<nat>, x: Obj, b: nat, names: seq<Token>,
                          finals: seq<Obj>, r: History<int>)
    requires |h.past| == |at|
  {
    && |r.past| == |h.past| && r.current == h.current && Rising(r)
    && forall i :: 0 <= i < |h.past| ==> r.past[i] == Past(EndAt(es, h, at, x, b, names, finals, i), h.past[i].value)
  }

  // ---------------------------------------------------------------------------------------------
  // A listed version of one object
  // ---------------------------------------------------------------------------------------------

  lemma RankOfEntry(es: seq<Entry>, k: nat)
    requires Increasing(es) && k < |es|
    ensures Rank(es, es[k].epoch) == k
  {
    RankIs(es, es[k].epoch, k);
    if k > 0 {
      RankIs(es, es[k].epoch, k - 1);
    }
  }

  lemma RankFrom(es: seq<Entry>, k: nat, v: Epoch)
    requires Increasing(es) && k < |es| && es[k].epoch <= v
    ensures Rank(es, v) >= k && (Rank(es, v) == k ==> es[k].epoch == v)
  {
    RankOfEntry(es, k);
    RankMonotone(es, es[k].epoch, v);
    if Rank(es, v) == k {
      assert es[k].epoch >= v;
    }
  }

  /** Where version `j` is about to be renamed at entry number `c`: what comes before it in the list, and what not. */
  ghost predicate AboutTo(h: History<int>, at: seq<nat>, x: Obj, names: seq<Token>, j: nat, c: nat)
    requires j < |h.past| == |at|
  {
    && at[j] == c
    && (j > 0 ==> Token(x, h.past[j - 1].validTo) !in names)
    && (j + 1 < |at| && at[j + 1] == c ==> Token(x, h.past[j].validTo) !in names)
    && (j > 1 && at[j - 1] == c ==> Token(x, h.past[j - 2].validTo) in names)
  }

  /** The boundaries from the start of version `j` on are still as they were. */
  lemma StillThere(es: seq<Entry>, h: History<int>, first: nat, at: seq<nat>, x: Obj, b: nat, names: seq<Token>, j: nat,
                   c: nat, i: nat)
    requires Numberable(es) && Sorted(h) && Placed(es, h, first, at) && j < |at| && c == b + 1
    requires AboutTo(h, at, x, names, j, c)
    requires i < |at| && (i == j || i + 1 == j)
    ensures !Had(es, h, at, x, b, names, [], i) && EndAt(es, h, at, x, b, names, [], i) == h.past[i].validTo
  {
    if i == j {
      if j + 1 < |at| {
        PlacedInOrder(es, h, first, at, j, j + 1);
      } else {
        assert PlacedAt(es, h, first, j, c);
        RankFrom(es, b, h.past[j].validTo);
      }
    }
  }

  /** The boundary before them has been renamed, and stands in the way exactly if it was renamed at the same entry. */
  lemma BoundaryBefore(es: seq<Entry>, h: History<int>, first: nat, at: seq<nat>, x: Obj, b: nat, names: seq<Token>,
                       j: nat, c: nat)
    requires Numberable(es) && Sorted(h) && Placed(es, h, first, at) && j < |at| && c == b + 1
    requires AboutTo(h, at, x, names, j, c)
    requires !Skipped(es, b) && j > 1
    ensures EndAt(es, h, at, x, b, names, [], j - 2) >= c <==> Clash(es, h, at, j - 1)
  {
    PlacedInOrder(es, h, first, at, j - 1, j);
    assert Had(es, h, at, x, b, names, [], j - 2);
    assert PlacedAt(es, h, first, j - 1, at[j - 1]);
    if Passed(es, at[j - 1]) {
      assert h.past[j - 2].validTo == Key(h, first, j - 1) <= at[j - 1];
    }
  }

  /** What is due next at an entry that is not passed over lies below the end of the version it starts. */
  lemma RoomAbove(es: seq<Entry>, h: History<int>, first: nat, at: seq<nat>, j: nat, b: nat, c: nat)
    requires Numberable(es) && Placed(es, h, first, at) && j < |at| && at[j] == c == b + 1 && !Skipped(es, b)
    ensures c < h.past[j].validTo
  {
    assert PlacedAt(es, h, first, j, c);
    NumberBelow(es, b);
  }

  lemma HadNext(es: seq<Entry>, h: History<int>, first: nat, at: seq<nat>, x: Obj, b: nat, names: seq<Token>, j: nat,
                c: nat, i: nat)
    requires Sorted(h) && |at| == |h.past| && j < |at| && at[j] == c == b + 1 && i < |at| && first < h.past[0].validTo
    ensures Had(es, h, at, x, b, names + [Token(x, Key(h, first, j))], [], i) <==>
              Had(es, h, at, x, b, names, [], i) || i + 1 == j
  {
    if i + 1 < |at| && i + 1 != j {
      assert Token(x, h.past[i].validTo) != Token(x, Key(h, first, j));
    }
  }

  /** Renaming version `j`, when its entry is reached, is refused exactly if there is a clash at its start; otherwise
      it takes the object to its next stage, and reports where the newest version starts if it is the one after. */
  lemma RenameVersion(es: seq<Entry>, h: History<int>, first: nat, at: seq<nat>, x: Obj, b: nat, names: seq<Token>,
                      r: History<int>, j: nat, c: nat)
    requires Numberable(es) && Sorted(h) && Placed(es, h, first, at) && j < |at| && c == b + 1
    requires AboutTo(h, at, x, names, j, c)
    requires !Skipped(es, b) && first < h.past[0].validTo && IsStage(es, h, at, x, b, names, [], r)
    ensures var q := Rename(r, Key(h, first, j), c);
            if j > 0 && Clash(es, h, at, j - 1) then q.RenameFailed?
            else
              && q.Renamed? && IsStage(es, h, at, x, b, names + [Token(x, Key(h, first, j))], [], q.history)
              && q.next == if j + 1 == |at| then h.past[j].validTo else 0
  {
    StillThere(es, h, first, at, x, b, names, j, c, j);
    RoomAbove(es, h, first, at, j, b, c);
    if j == 0 {
      SameStage(es, h, first, at, x, b, names, r, c);
    } else {
      StillThere(es, h, first, at, x, b, names, j, c, j - 1);
      if j > 1 {
        BoundaryBefore(es, h, first, at, x, b, names, j, c);
      }
      RenameBoundary(r, j - 1, c);
      if !Clash(es, h, at, j - 1) {
        NextStage(es, h, first, at, x, b, names, r, j, c);
      }
    }
  }

  lemma SameStage(es: seq<Entry>, h: History<int>, first: nat, at: seq<nat>, x: Obj, b: nat, names: seq<Token>,
                  r: History<int>, c: nat)
    requires Sorted(h) && |at| == |h.past| > 0 && at[0] == c == b + 1 && first < h.past[0].validTo
    requires IsStage(es, h, at, x, b, names, [], r)
    ensures IsStage(es, h, at, x, b, names + [Token(x, first)], [], r)
  {
    forall i | 0 <= i < |at|
      ensures EndAt(es, h, at, x, b, names + [Token(x, first)], [], i) == EndAt(es, h, at, x, b, names, [], i)
    {
      HadNext(es, h, first, at, x, b, names, 0, c, i);
    }
  }

  lemma NextStage(es: seq<Entry>, h: History<int>, first: nat, at: seq<nat>, x: Obj, b: nat, names: seq<Token>,
                  r: History<int>, j: nat, c: nat)
    requires Sorted(h) && |at| == |h.past| && 0 < j < |at| && at[j] == c == b + 1 && !Skipped(es, b)
    requires first < h.past[0].validTo
    requires IsStage(es, h, at, x, b, names, [], r) && Rising(SetValidTo(r, j - 1, c))
    ensures IsStage(es, h, at, x, b, names + [Token(x, Key(h, first, j))], [], SetValidTo(r, j - 1, c))
  {
    var more := names + [Token(x, Key(h, first, j))];
    forall i | 0 <= i < |at|
      ensures EndAt(es, h, at, x, b, more, [], i) == if i + 1 == j then c else EndAt(es, h, at, x, b, names, [], i)
    {
      HadNext(es, h, first, at, x, b, names, j, c, i);
    }
  }

  // ---------------------------------------------------------------------------------------------
  // The newest version of one object
  // ---------------------------------------------------------------------------------------------

  /** The newest version starts at the epoch of entry number `c`, and the version before it has been renamed. */
  ghost predicate FinalDue(es: seq<Entry>, h: History<int>, at: seq<nat>, x: Obj, names: seq<Token>, b: nat, c: nat)
    requires |h.past| == |at| && b < |es|
  {
    && |at| > 0 && es[b].epoch == h.past[|at| - 1].validTo && !Passed(es, at[|at| - 1])
    && (|at| > 1 && at[|at| - 1] == c ==> Token(x, h.past[|at| - 2].validTo) in names)
  }

  lemma FinalTurn(es: seq<Entry>, h: History<int>, first: nat, at: seq<nat>, x: Obj, names: seq<Token>, b: nat, c: nat)
    requires Numberable(es) && Sorted(h) && Placed(es, h, first, at) && b < |es| && c == b + 1
    requires FinalDue(es, h, at, x, names, b, c)
    ensures Turn(es, h, at, |at| - 1) == c && Moves(es, h, at, |at| - 1) && at[|at| - 1] <= c
  {
    RankOfEntry(es, b);
    var k := at[|at| - 1] - 1;
    assert PlacedAt(es, h, first, |at| - 1, at[|at| - 1]);
    EntryOrder(es, k, b);
  }

  lemma BeforeNewest(es: seq<Entry>, h: History<int>, first: nat, at: seq<nat>, x: Obj, b: nat, names: seq<Token>,
                     finals: seq<Obj>, c: nat)
    requires Numberable(es) && Sorted(h) && Placed(es, h, first, at) && b < |es| && c == b + 1
    requires FinalDue(es, h, at, x, names, b, c)
    requires |at| > 1
    ensures EndAt(es, h, at, x, b, names, finals, |at| - 2) >= c <==> Clash(es, h, at, |at| - 1)
  {
    FinalTurn(es, h, first, at, x, names, b, c);
    assert Had(es, h, at, x, b, names, finals, |at| - 2);
  }

  lemma NewestStage(es: seq<Entry>, h: History<int>, at: seq<nat>, x: Obj, b: nat, names: seq<Token>, finals: seq<Obj>,
                    r: History<int>, c: nat)
    requires |at| == |h.past| > 0 && c == b + 1 && Turn(es, h, at, |at| - 1) == c && Moves(es, h, at, |at| - 1)
    requires IsStage(es, h, at, x, b, names, finals, r) && Rising(SetValidTo(r, |at| - 1, c))
    ensures IsStage(es, h, at, x, b, names, finals + [x], SetValidTo(r, |at| - 1, c))
  {
    forall i | 0 <= i < |at|
      ensures EndAt(es, h, at, x, b, names, finals + [x], i) ==
              if i + 1 == |at| then c else EndAt(es, h, at, x, b, names, finals, i)
    {
    }
  }

  /** Renaming the newest version, when the entry with its epoch is reached, is refused exactly if there is a clash. */
  lemma RenameNewest(es: seq<Entry>, h: History<int>, first: nat, at: seq<nat>, x: Obj, b: nat, names: seq<Token>,
                     finals: seq<Obj>, r: History<int>, c: nat)
    requires Numberable(es) && Sorted(h) && Placed(es, h, first, at) && b < |es| && c == b + 1
    requires FinalDue(es, h, at, x, names, b, c)
    requires x !in finals && IsStage(es, h, at, x, b, names, finals, r)
    ensures var q := Rename(r, es[b].epoch, c);
            if Clash(es, h, at, |at| - 1) then q.RenameFailed?
            else q.Renamed? && IsStage(es, h, at, x, b, names, finals + [x], q.history)
  {
    var last := |at| - 1;
    FinalTurn(es, h, first, at, x, names, b, c);
    assert !Had(es, h, at, x, b, names, finals, last);
    if last > 0 {
      BeforeNewest(es, h, first, at, x, b, names, finals, c);
    }
    RenameBoundary(r, last, c);
    if !Clash(es, h, at, last) {
      NewestStage(es, h, at, x, b, names, finals, r, c);
    }
  }

  // ---------------------------------------------------------------------------------------------
  // Which entry lists which version
  // ---------------------------------------------------------------------------------------------

  /** Where renumbering may be run: between commits, with no cleanup under way and some snapshot registered. */
  ghost predicate Quiescent(s: State) {
    Inv(s) && ListsOk(s) && s.phase.Idle? && s.inflight == multiset{} && |s.info.entries| > 0
  }

  /** The number of the last entry that lists `t`, or 0. */
  function NumberOf(es: seq<Entry>, t: Token): (r: nat)
    ensures r <= |es|
    ensures r > 0 ==> t in es[r - 1].cleanups
    ensures forall k :: r <= k < |es| ==> t !in es[k].cleanups
  {
    if |es| == 0 then 0
    else if t in es[|es| - 1].cleanups then |es|
    else NumberOf(es[..|es| - 1], t)
  }

  /** The numbers of the entries that list the versions of object `x`. */
  function Numbers(es: seq<Entry>, h: History<int>, first: nat, x: Obj): (r: seq<nat>)
    ensures |r| == |h.past|
  {
    seq(|h.past|, j requires 0 <= j < |h.past| => NumberOf(es, Token(x, Key(h, first, j))))
  }

  /** The lists and the objects, apart from the rest of the state. */
  datatype Tables = Tables(es: seq<Entry>, hist: seq<History<int>>, firstKey: seq<nat>)

  function TablesOf(s: State): Tables {
    Tables(s.info.entries, s.hist, s.firstKey)
  }

  function At(g: Tables, x: Obj): (r: seq<nat>)
    requires x < |g.hist| == |g.firstKey|
    ensures |r| == |g.hist[x].past|
  {
    Numbers(g.es, g.hist[x], g.firstKey[x], x)
  }

  lemma AtNumber(g: Tables, x: Obj, j: nat)
    requires x < |g.hist| == |g.firstKey| && j < |g.hist[x].past|
    ensures At(g, x)[j] == NumberOf(g.es, Token(x, Key(g.hist[x], g.firstKey[x], j)))
  {
  }

  lemma NumberIs(s: State, k: nat, t: Token)
    requires Inv(s) && k < |s.info.entries| && t in s.info.entries[k].cleanups
    ensures NumberOf(s.info.entries, t) == k + 1
  {
    var m := NumberOf(s.info.entries, t) - 1;
    if k < m {
      ListedTwice(s, k, m, t);
    }
  }

  lemma VersionPlaced(s: State, x: Obj, j: nat)
    requires Quiescent(s) && x < |s.hist| && j < |s.hist[x].past|
    ensures PlacedAt(s.info.entries, s.hist[x], s.firstKey[x], j, At(TablesOf(s), x)[j])
  {
    var es, t := s.info.entries, Token(x, Key(s.hist[x], s.firstKey[x], j));
    ObsoleteOutstanding(s, x, j);
    var k := ListedWhere(es, t);
    NumberIs(s, k, t);
    assert Before(s.hist, s.firstKey, t, es[k].epoch - 1);
    forall m | k < m < |es| ensures es[m].epoch >= s.hist[x].past[j].validTo {
      assert Beyond(s.hist, s.firstKey, t, es[m].epoch);
    }
  }

  ghost predicate Ready(g: Tables, x: Obj)
    requires x < |g.hist| == |g.firstKey|
  {
    && Sorted(g.hist[x]) && Placed(g.es, g.hist[x], g.firstKey[x], At(g, x))
    && (|g.hist[x].past| > 0 ==> g.firstKey[x] < g.hist[x].past[0].validTo)
  }

  /** What the renumbering relies on. */
  ghost predicate AllReady(g: Tables) {
    && Numberable(g.es) && ListsInOrder(g.es) && |g.hist| == |g.firstKey|
    && forall x :: 0 <= x < |g.hist| ==> Ready(g, x)
  }

  lemma ObjectReady(s: State, x: Obj)
    requires Quiescent(s) && x < |s.hist|
    ensures Ready(TablesOf(s), x)
  {
    forall j | 0 <= j < |s.hist[x].past|
      ensures PlacedAt(s.info.entries, s.hist[x], s.firstKey[x], j, At(TablesOf(s), x)[j])
    {
      VersionPlaced(s, x, j);
    }
    NewestIs(s, x);
  }

  lemma ReadyAll(s: State)
    requires Quiescent(s)
    ensures AllReady(TablesOf(s))
  {
    forall x | 0 <= x < |s.hist| ensures Ready(TablesOf(s), x) {
      ObjectReady(s, x);
    }
  }

  // ---------------------------------------------------------------------------------------------
  // The whole store
  // ---------------------------------------------------------------------------------------------

  /** All objects when `b` entries are gone through, and of the next one `names` and `finals`. */
  ghost predicate StoreStage(g: Tables, b: nat, names: seq<Token>, finals: seq<Obj>, hs: seq<History<int>>)
    requires |g.hist| == |g.firstKey|
  {
    && |hs| == |g.hist|
    && forall x :: 0 <= x < |hs| ==> IsStage(g.es, g.hist[x], At(g, x), x, b, names, finals, hs[x])
  }

  ghost predicate ClearAt(g: Tables, b: nat, names: seq<Token>, finals: seq<Obj>, x: Obj, i: nat)
    requires x < |g.hist| == |g.firstKey| && i < |g.hist[x].past|
  {
    Had(g.es, g.hist[x], At(g, x), x, b, names, finals, i) ==> !Clash(g.es, g.hist[x], At(g, x), i)
  }

  /** No renaming that has had its turn by then was refused. */
  ghost predicate NoneRefused(g: Tables, b: nat, names: seq<Token>, finals: seq<Obj>)
    requires |g.hist| == |g.firstKey|
  {
    forall x: Obj, i: nat :: x < |g.hist| && i < |g.hist[x].past| ==> ClearAt(g, b, names, finals, x, i)
  }

  predicate Gathered(extras: Extras, e: Epoch, x: Obj) {
    e in extras && x in extras[e]
  }

  /** The version before the newest one has been renamed by then. */
  ghost predicate ShouldGather(g: Tables, b: nat, names: seq<Token>, e: Epoch, x: Obj)
    requires |g.hist| == |g.firstKey|
  {
    && x < |g.hist| && |g.hist[x].past| > 0 && e == NewestFrom(g.hist[x])
    && var last := |g.hist[x].past| - 1;
       var c := At(g, x)[last];
       && !Passed(g.es, c)
       && (c <= b || (c == b + 1 && Token(x, Key(g.hist[x], g.firstKey[x], last)) in names))
  }

  ghost predicate ExtrasOk(g: Tables, b: nat, names: seq<Token>, extras: Extras)
    requires |g.hist| == |g.firstKey|
  {
    && (forall e: Epoch, x: Obj :: Gathered(extras, e, x) <==> ShouldGather(g, b, names, e, x))
    && (forall e :: e in extras ==> NoDup(extras[e]))
  }

  /** The loop has got to this point: it has been stopped exactly if a clash has had its turn. */
  ghost predicate Reached(g: Tables, b: nat, names: seq<Token>, finals: seq<Obj>, p: Progress)
    requires |g.hist| == |g.firstKey|
  {
    && |p.hist| == |g.hist|
    && (p.ok <==> NoneRefused(g, b, names, finals))
    && (p.ok ==> StoreStage(g, b, names, finals, p.hist) && ExtrasOk(g, b, names, p.extras))
  }

  // ---------------------------------------------------------------------------------------------
  // One listed version
  // ---------------------------------------------------------------------------------------------

  lemma OrderedTokens(cs: seq<Token>, i: nat, u: Token)
    requires InOrder(cs) && i < |cs| && u.obj == cs[i].obj
    ensures u in cs[..i] <==> u in cs && u.validFrom < cs[i].validFrom
  {
    if u in cs && u.validFrom < cs[i].validFrom {
      var a :| 0 <= a < |cs| && cs[a] == u;
      assert a < i;
      assert cs[..i][a] == u;
    }
    if u in cs[..i] {
      var a :| 0 <= a < i && cs[..i][a] == u;
      assert cs[a] == u;
    }
  }

  lemma TokenAbout(s: State, b: nat, c: nat, i: nat) returns (j: nat)
    requires Quiescent(s) && b < |s.info.entries| && c == b + 1 && i < |s.info.entries[b].cleanups|
    ensures Next(TablesOf(s), b, c, i, j)
  {
    var g, cs, t := TablesOf(s), s.info.entries[b].cleanups, s.info.entries[b].cleanups[i];
    j := ListedNamesOne(s, b, t);
    NumberIs(s, b, t);
    ReadyAll(s);
    TokenIsNext(g, b, c, i, j);
  }

  /** Where cleanup number `i` of an entry comes next, and names version `j`. */
  ghost predicate Next(g: Tables, b: nat, c: nat, i: nat, j: nat) {
    && AllReady(g) && b < |g.es| && c == b + 1 && i < |g.es[b].cleanups|
    && var cs := g.es[b].cleanups;
       var t := cs[i];
       && t.obj < |g.hist| && j < |g.hist[t.obj].past| && Key(g.hist[t.obj], g.firstKey[t.obj], j) == t.validFrom
       && AboutTo(g.hist[t.obj], At(g, t.obj), t.obj, cs[..i], j, c)
  }

  lemma TokenIsNext(g: Tables, b: nat, c: nat, i: nat, j: nat)
    requires AllReady(g) && b < |g.es| && c == b + 1 && i < |g.es[b].cleanups|
    requires var t := g.es[b].cleanups[i];
             && t.obj < |g.hist| && j < |g.hist[t.obj].past| && Key(g.hist[t.obj], g.firstKey[t.obj], j) == t.validFrom
             && NumberOf(g.es, t) == c
    ensures Next(g, b, c, i, j)
  {
    var cs, t, x := g.es[b].cleanups, g.es[b].cleanups[i], g.es[b].cleanups[i].obj;
    var h, first, at := g.hist[x], g.firstKey[x], At(g, x);
    assert Ready(g, x);
    OrderedTokens(cs, i, t);
    if j + 1 < |at| {
      OrderedTokens(cs, i, Token(x, h.past[j].validTo));
      KeysIncrease(h, first, j, j + 1);
    }
    if j > 1 {
      assert at[j - 1] == NumberOf(g.es, Token(x, h.past[j - 2].validTo));
      OrderedTokens(cs, i, Token(x, h.past[j - 2].validTo));
      KeysIncrease(h, first, j - 1, j);
    }
  }

  lemma HadOther(es: seq<Entry>, h: History<int>, at: seq<nat>, y: Obj, b: nat, names: seq<Token>, t: Token, i: nat)
    requires |at| == |h.past| && i < |at| && t.obj != y
    ensures Had(es, h, at, y, b, names + [t], [], i) <==> Had(es, h, at, y, b, names, [], i)
  {
  }

  lemma OtherStage(es: seq<Entry>, h: History<int>, at: seq<nat>, y: Obj, b: nat, names: seq<Token>, t: Token,
                   r: History<int>)
    requires |at| == |h.past| && t.obj != y && IsStage(es, h, at, y, b, names, [], r)
    ensures IsStage(es, h, at, y, b, names + [t], [], r)
  {
    forall i | 0 <= i < |at|
      ensures EndAt(es, h, at, y, b, names + [t], [], i) == EndAt(es, h, at, y, b, names, [], i)
    {
      HadOther(es, h, at, y, b, names, t, i);
    }
  }

  lemma HadToken(g: Tables, b: nat, c: nat, i: nat, j: nat, x: Obj, q: nat)
    requires Next(g, b, c, i, j) && x < |g.hist| && q < |g.hist[x].past|
    ensures var es, cs := g.es, g.es[b].cleanups;
            Had(es, g.hist[x], At(g, x), x, b, cs[..i] + [cs[i]], [], q) <==>
              Had(es, g.hist[x], At(g, x), x, b, cs[..i], [], q) || (x == cs[i].obj && q + 1 == j)
  {
    var es, cs := g.es, g.es[b].cleanups;
    if x == cs[i].obj {
      assert Ready(g, x);
      HadNext(es, g.hist[x], g.firstKey[x], At(g, x), x, b, cs[..i], j, c, q);
    } else {
      HadOther(es, g.hist[x], At(g, x), x, b, cs[..i], cs[i], q);
    }
  }

  /** Nothing more has been refused, or just this one. */
  lemma ClearNext(g: Tables, b: nat, c: nat, i: nat, j: nat)
    requires Next(g, b, c, i, j)
    ensures var cs := g.es[b].cleanups;
            NoneRefused(g, b, cs[..i] + [cs[i]], []) <==>
              NoneRefused(g, b, cs[..i], []) &&
              !(j > 0 && Clash(g.es, g.hist[cs[i].obj], At(g, cs[i].obj), j - 1))
  {
    var es, cs := g.es, g.es[b].cleanups;
    var t := cs[i];
    forall x: Obj, q: nat | x < |g.hist| && q < |g.hist[x].past|
      ensures ClearAt(g, b, cs[..i] + [t], [], x, q) <==>
                ClearAt(g, b, cs[..i], [], x, q) && !(x == t.obj && q + 1 == j && Clash(es, g.hist[x], At(g, x), q))
    {
      HadToken(g, b, c, i, j, x, q);
    }
    if j > 0 && NoneRefused(g, b, cs[..i] + [t], []) {
      assert ClearAt(g, b, cs[..i] + [t], [], t.obj, j - 1);
    }
  }

  lemma StageNext(g: Tables, b: nat, c: nat, i: nat, j: nat, hs: seq<History<int>>)
    requires Next(g, b, c, i, j) && !Skipped(g.es, b) && StoreStage(g, b, g.es[b].cleanups[..i], [], hs)
    ensures var es, cs, t := g.es, g.es[b].cleanups, g.es[b].cleanups[i];
            var q := Rename(hs[t.obj], t.validFrom, c);
            if j > 0 && Clash(es, g.hist[t.obj], At(g, t.obj), j - 1) then q.RenameFailed?
            else
              && q.Renamed? && StoreStage(g, b, cs[..i] + [t], [], hs[t.obj := q.history])
              && q.next == if j + 1 == |g.hist[t.obj].past| then NewestFrom(g.hist[t.obj]) else 0
  {
    var es, cs, t := g.es, g.es[b].cleanups, g.es[b].cleanups[i];
    var x := t.obj;
    assert Ready(g, x);
    assert IsStage(es, g.hist[x], At(g, x), x, b, cs[..i], [], hs[x]);
    RenameVersion(es, g.hist[x], g.firstKey[x], At(g, x), x, b, cs[..i], hs[x], j, c);
    var q := Rename(hs[x], t.validFrom, c);
    if q.Renamed? {
      forall y | 0 <= y < |hs| && y != x
        ensures IsStage(es, g.hist[y], At(g, y), y, b, cs[..i] + [t], [], hs[y])
      {
        OtherStage(es, g.hist[y], At(g, y), y, b, cs[..i], t, hs[y]);
      }
    }
  }

  lemma GatheredNext(extras: Extras, next: Epoch, x: Obj, e: Epoch, y: Obj)
    ensures Gathered(Gather(extras, next, x), e, y) <==> Gathered(extras, e, y) || (next != 0 && e == next && y == x)
  {
  }

  lemma ShouldNext(g: Tables, b: nat, c: nat, i: nat, j: nat, e: Epoch, y: Obj)
    requires Next(g, b, c, i, j) && !Skipped(g.es, b)
    ensures var cs, t := g.es[b].cleanups, g.es[b].cleanups[i];
            ShouldGather(g, b, cs[..i] + [t], e, y) <==>
              || ShouldGather(g, b, cs[..i], e, y)
              || (y == t.obj && j + 1 == |g.hist[y].past| && e == NewestFrom(g.hist[y]))
  {
    var cs, t := g.es[b].cleanups, g.es[b].cleanups[i];
    if y == t.obj {
      assert Ready(g, y);
      KeysIncrease(g.hist[y], g.firstKey[y], j, |g.hist[y].past| - 1);
    }
  }

  lemma NotGathered(g: Tables, b: nat, c: nat, i: nat, j: nat, e: Epoch)
    requires Next(g, b, c, i, j) && j + 1 == |g.hist[g.es[b].cleanups[i].obj].past|
    ensures !ShouldGather(g, b, g.es[b].cleanups[..i], e, g.es[b].cleanups[i].obj)
  {
    var t := g.es[b].cleanups[i];
    OrderedTokens(g.es[b].cleanups, i, t);
  }

  lemma ExtrasNext(g: Tables, b: nat, c: nat, i: nat, j: nat, extras: Extras)
    requires Next(g, b, c, i, j) && !Skipped(g.es, b) && ExtrasOk(g, b, g.es[b].cleanups[..i], extras)
    ensures var cs, t := g.es[b].cleanups, g.es[b].cleanups[i];
            var next := if j + 1 == |g.hist[t.obj].past| then NewestFrom(g.hist[t.obj]) else 0;
            ExtrasOk(g, b, cs[..i] + [t], Gather(extras, next, t.obj))
  {
    var cs, t := g.es[b].cleanups, g.es[b].cleanups[i];
    var next := if j + 1 == |g.hist[t.obj].past| then NewestFrom(g.hist[t.obj]) else 0;
    assert Ready(g, t.obj);
    var extras' := Gather(extras, next, t.obj);
    forall e: Epoch, y: Obj ensures Gathered(extras', e, y) <==> ShouldGather(g, b, cs[..i] + [t], e, y) {
      GatheredNext(extras, next, t.obj, e, y);
      ShouldNext(g, b, c, i, j, e, y);
      assert Gathered(extras, e, y) <==> ShouldGather(g, b, cs[..i], e, y);
    }
    if next != 0 && next in extras {
      NotGathered(g, b, c, i, j, next);
      assert !Gathered(extras, next, t.obj);
    }
  }

  /** One cleanup of a list. */
  lemma ListedReached(g: Tables, b: nat, c: nat, i: nat, j: nat, p: Progress)
    requires Next(g, b, c, i, j) && !Skipped(g.es, b) && Reached(g, b, g.es[b].cleanups[..i], [], p)
    ensures Reached(g, b, g.es[b].cleanups[..i] + [g.es[b].cleanups[i]], [], RenameListed(p, g.es[b].cleanups[i], c))
  {
    ClearNext(g, b, c, i, j);
    if p.ok {
      StageNext(g, b, c, i, j, p.hist);
      ExtrasNext(g, b, c, i, j, p.extras);
    }
  }

  ghost predicate IsNext(g: Tables, b: nat, c: nat, i: nat) {
    exists j :: Next(g, b, c, i, j)
  }

  /** Every cleanup on the list of an entry names a version of its object. */
  ghost predicate ListNames(g: Tables, b: nat, c: nat)
    requires b < |g.es|
  {
    forall i :: 0 <= i < |g.es[b].cleanups| ==> IsNext(g, b, c, i)
  }

  lemma TokensNext(s: State, b: nat, c: nat)
    requires Quiescent(s) && b < |s.info.entries| && c == b + 1
    ensures ListNames(TablesOf(s), b, c)
  {
    forall i | 0 <= i < |s.info.entries[b].cleanups| ensures IsNext(TablesOf(s), b, c, i) {
      var j := TokenAbout(s, b, c, i);
    }
  }

  lemma Taken<T>(cs: seq<T>, i: nat, k: nat)
    requires i == k + 1 <= |cs|
    ensures cs[..i] == cs[..k] + [cs[k]] && cs[..i][..k] == cs[..k] && cs[..i][k] == cs[k]
  {
  }

  lemma RenameListNext(p: Progress, cs: seq<Token>, c: nat, i: nat, k: nat)
    requires i == k + 1 <= |cs| && ListFits(cs[..k], |p.hist|) && cs[k].obj < |p.hist|
    ensures ListFits(cs[..i], |p.hist|)
    ensures RenameList(p, cs[..i], c) == RenameListed(RenameList(p, cs[..k], c), cs[k], c)
  {
    Taken(cs, i, k);
  }

  lemma {:induction false} ListSteps(g: Tables, b: nat, c: nat, i: nat, p: Progress)
    requires |g.hist| == |g.firstKey| && b < |g.es| && ListNames(g, b, c) && !Skipped(g.es, b)
    requires i <= |g.es[b].cleanups| && Reached(g, b, [], [], p)
    ensures ListFits(g.es[b].cleanups[..i], |p.hist|)
    ensures Reached(g, b, g.es[b].cleanups[..i], [], RenameList(p, g.es[b].cleanups[..i], c))
  {
    var cs := g.es[b].cleanups;
    if i == 0 {
      assert cs[..0] == [];
    } else {
      var k := i - 1;
      ListSteps(g, b, c, k, p);
      assert IsNext(g, b, c, k);
      var j :| Next(g, b, c, k, j);
      ListedReached(g, b, c, k, j, RenameList(p, cs[..k], c));
      RenameListNext(p, cs, c, i, k);
      Taken(cs, i, k);
    }
  }

  // ---------------------------------------------------------------------------------------------
  // The newest versions
  // ---------------------------------------------------------------------------------------------

  lemma GatheredDue(g: Tables, b: nat, c: nat, extras: Extras, x: Obj)
    requires AllReady(g) && b < |g.es| && c == b + 1
    requires ExtrasOk(g, b, g.es[b].cleanups, extras) && Gathered(extras, g.es[b].epoch, x)
    ensures x < |g.hist| && FinalDue(g.es, g.hist[x], At(g, x), x, g.es[b].cleanups, b, c)
  {
    assert ShouldGather(g, b, g.es[b].cleanups, g.es[b].epoch, x);
  }

  lemma FinalsNext(g: Tables, b: nat, c: nat, names: seq<Token>, finals: seq<Obj>, x: Obj, y: Obj, i: nat)
    requires |g.hist| == |g.firstKey| && y < |g.hist| && i < |g.hist[y].past| && c == b + 1
    ensures Had(g.es, g.hist[y], At(g, y), y, b, names, finals + [x], i) <==>
              || Had(g.es, g.hist[y], At(g, y), y, b, names, finals, i)
              || (y == x && i + 1 == |g.hist[y].past| && Turn(g.es, g.hist[y], At(g, y), i) == c)
  {
  }

  lemma ClearFinal(g: Tables, b: nat, c: nat, names: seq<Token>, finals: seq<Obj>, x: Obj)
    requires AllReady(g) && b < |g.es| && c == b + 1 && x < |g.hist|
    requires FinalDue(g.es, g.hist[x], At(g, x), x, names, b, c)
    ensures NoneRefused(g, b, names, finals + [x]) <==>
              NoneRefused(g, b, names, finals) && !Clash(g.es, g.hist[x], At(g, x), |g.hist[x].past| - 1)
  {
    assert Ready(g, x);
    FinalTurn(g.es, g.hist[x], g.firstKey[x], At(g, x), x, names, b, c);
    forall y: Obj, i: nat | y < |g.hist| && i < |g.hist[y].past|
      ensures ClearAt(g, b, names, finals + [x], y, i) <==>
                && ClearAt(g, b, names, finals, y, i)
                && !(y == x && i + 1 == |g.hist[y].past| && Clash(g.es, g.hist[y], At(g, y), i))
    {
      FinalsNext(g, b, c, names, finals, x, y, i);
    }
    if NoneRefused(g, b, names, finals + [x]) {
      assert ClearAt(g, b, names, finals + [x], x, |g.hist[x].past| - 1);
    }
  }

  lemma OtherFinal(g: Tables, b: nat, names: seq<Token>, finals: seq<Obj>, x: Obj, y: Obj, r: History<int>)
    requires |g.hist| == |g.firstKey| && y < |g.hist| && x != y
    requires IsStage(g.es, g.hist[y], At(g, y), y, b, names, finals, r)
    ensures IsStage(g.es, g.hist[y], At(g, y), y, b, names, finals + [x], r)
  {
  }

  lemma StageFinal(g: Tables, b: nat, c: nat, names: seq<Token>, finals: seq<Obj>, x: Obj, hs: seq<History<int>>)
    requires AllReady(g) && b < |g.es| && c == b + 1 && x < |g.hist|
    requires FinalDue(g.es, g.hist[x], At(g, x), x, names, b, c)
    requires x !in finals && StoreStage(g, b, names, finals, hs)
    ensures var q := Rename(hs[x], g.es[b].epoch, c);
            if Clash(g.es, g.hist[x], At(g, x), |g.hist[x].past| - 1) then q.RenameFailed?
            else q.Renamed? && StoreStage(g, b, names, finals + [x], hs[x := q.history])
  {
    assert Ready(g, x);
    assert IsStage(g.es, g.hist[x], At(g, x), x, b, names, finals, hs[x]);
    RenameNewest(g.es, g.hist[x], g.firstKey[x], At(g, x), x, b, names, finals, hs[x], c);
    var q := Rename(hs[x], g.es[b].epoch, c);
    if q.Renamed? {
      forall y | 0 <= y < |hs| && y != x
        ensures IsStage(g.es, g.hist[y], At(g, y), y, b, names, finals + [x], hs[y])
      {
        OtherFinal(g, b, names, finals, x, y, hs[y]);
      }
    }
  }

  /** One of the newest versions to be renamed at an entry. */
  lemma FinalStep(g: Tables, b: nat, c: nat, extras: Extras, i: nat, p: Progress)
    requires AllReady(g) && b < |g.es| && c == b + 1 && i < |FinalsAt(extras, g.es[b].epoch)|
    requires ExtrasOk(g, b, g.es[b].cleanups, extras) && p.extras == extras
    requires Reached(g, b, g.es[b].cleanups, FinalsAt(extras, g.es[b].epoch)[..i], p)
    ensures FinalsAt(extras, g.es[b].epoch)[i] < |p.hist|
    ensures var xs := FinalsAt(extras, g.es[b].epoch);
            Reached(g, b, g.es[b].cleanups, xs[..i] + [xs[i]], RenameFinal(p, xs[i], g.es[b].epoch, c))
  {
    var xs := FinalsAt(extras, g.es[b].epoch);
    var x := xs[i];
    assert Gathered(extras, g.es[b].epoch, x);
    GatheredDue(g, b, c, extras, x);
    ClearFinal(g, b, c, g.es[b].cleanups, xs[..i], x);
    if p.ok {
      assert NoDup(xs);
      StageFinal(g, b, c, g.es[b].cleanups, xs[..i], x, p.hist);
    }
  }

  lemma RenameFinalsNext(p: Progress, xs: seq<Obj>, e: Epoch, c: nat, i: nat, k: nat)
    requires i == k + 1 <= |xs| && forall a :: 0 <= a < i ==> xs[a] < |p.hist|
    ensures RenameFinals(p, xs[..i], e, c) == RenameFinal(RenameFinals(p, xs[..k], e, c), xs[k], e, c)
  {
    Taken(xs, i, k);
  }

  lemma {:induction false} FinalSteps(g: Tables, b: nat, c: nat, extras: Extras, i: nat, p: Progress)
    requires AllReady(g) && b < |g.es| && c == b + 1 && i <= |FinalsAt(extras, g.es[b].epoch)|
    requires ExtrasOk(g, b, g.es[b].cleanups, extras) && p.extras == extras && Reached(g, b, g.es[b].cleanups, [], p)
    ensures forall k :: 0 <= k < i ==> FinalsAt(extras, g.es[b].epoch)[k] < |p.hist|
    ensures var xs := FinalsAt(extras, g.es[b].epoch);
            Reached(g, b, g.es[b].cleanups, xs[..i], RenameFinals(p, xs[..i], g.es[b].epoch, c))
  {
    var xs := FinalsAt(extras, g.es[b].epoch);
    if i == 0 {
      assert xs[..0] == [];
    } else {
      var k := i - 1;
      FinalSteps(g, b, c, extras, k, p);
      FinalStep(g, b, c, extras, k, RenameFinals(p, xs[..k], g.es[b].epoch, c));
      RenameFinalsNext(p, xs, g.es[b].epoch, c, i, k);
      Taken(xs, i, k);
    }
  }

  // ---------------------------------------------------------------------------------------------
  // From one entry to the next
  // ---------------------------------------------------------------------------------------------

  /** Whatever is renamed at an entry has had its turn when its list and the gathered objects are gone through. */
  lemma HadEntry(g: Tables, b: nat, c: nat, extras: Extras, x: Obj, i: nat)
    requires AllReady(g) && b < |g.es| && c == b + 1 && x < |g.hist| && i < |g.hist[x].past|
    requires ExtrasOk(g, b, g.es[b].cleanups, extras) && Moves(g.es, g.hist[x], At(g, x), i)
    ensures Had(g.es, g.hist[x], At(g, x), x, b, g.es[b].cleanups, FinalsAt(extras, g.es[b].epoch), i) <==>
              Turn(g.es, g.hist[x], At(g, x), i) <= c
  {
    var h, at := g.hist[x], At(g, x);
    assert Ready(g, x);
    if Turn(g.es, h, at, i) == c {
      if i + 1 < |at| {
        assert at[i + 1] == NumberOf(g.es, Token(x, h.past[i].validTo));
      } else {
        FinalHere(g, b, c, extras, x);
      }
    }
  }

  lemma FinalHere(g: Tables, b: nat, c: nat, extras: Extras, x: Obj)
    requires AllReady(g) && b < |g.es| && c == b + 1 && x < |g.hist| && |g.hist[x].past| > 0
    requires ExtrasOk(g, b, g.es[b].cleanups, extras) && Moves(g.es, g.hist[x], At(g, x), |g.hist[x].past| - 1)
    requires Turn(g.es, g.hist[x], At(g, x), |g.hist[x].past| - 1) == c
    ensures x in FinalsAt(extras, g.es[b].epoch)
  {
    var h, at, last := g.hist[x], At(g, x), |g.hist[x].past| - 1;
    assert Ready(g, x);
    assert PlacedAt(g.es, h, g.firstKey[x], last, at[last]);
    EntryOrder(g.es, at[last] - 1, b);
    assert at[last] == NumberOf(g.es, Token(x, Key(h, g.firstKey[x], last)));
    assert ShouldGather(g, b, g.es[b].cleanups, g.es[b].epoch, x);
  }

  /** So the loop stands at the next entry, and what is gathered is right for it. */
  lemma EntryEnds(g: Tables, b: nat, c: nat, extras: Extras, p: Progress)
    requires AllReady(g) && b < |g.es| && c == b + 1
    requires ExtrasOk(g, b, g.es[b].cleanups, extras) && p.extras == extras
    requires Reached(g, b, g.es[b].cleanups, FinalsAt(extras, g.es[b].epoch), p)
    ensures Reached(g, c, [], [], p)
  {
    var cs, xs := g.es[b].cleanups, FinalsAt(extras, g.es[b].epoch);
    forall x: Obj, i: nat | x < |g.hist| && i < |g.hist[x].past|
      ensures ClearAt(g, b, cs, xs, x, i) <==> ClearAt(g, c, [], [], x, i)
      ensures EndAt(g.es, g.hist[x], At(g, x), x, b, cs, xs, i) == EndAt(g.es, g.hist[x], At(g, x), x, c, [], [], i)
    {
      if Moves(g.es, g.hist[x], At(g, x), i) {
        HadEntry(g, b, c, extras, x, i);
      }
    }
    forall x | 0 <= x < |g.hist| && p.ok ensures IsStage(g.es, g.hist[x], At(g, x), x, c, [], [], p.hist[x]) {
      assert IsStage(g.es, g.hist[x], At(g, x), x, b, cs, xs, p.hist[x]);
    }
    ExtrasEnd(g, b, c, extras);
  }

  lemma ExtrasEnd(g: Tables, b: nat, c: nat, extras: Extras)
    requires AllReady(g) && b < |g.es| && c == b + 1 && ExtrasOk(g, b, g.es[b].cleanups, extras)
    ensures ExtrasOk(g, c, [], extras)
  {
    forall e: Epoch, x: Obj ensures Gathered(extras, e, x) <==> ShouldGather(g, c, [], e, x) {
      assert Gathered(extras, e, x) <==> ShouldGather(g, b, g.es[b].cleanups, e, x);
      if x < |g.hist| && |g.hist[x].past| > 0 {
        var last := |g.hist[x].past| - 1;
        assert At(g, x)[last] == NumberOf(g.es, Token(x, Key(g.hist[x], g.firstKey[x], last)));
      }
    }
  }

  /** A loop that has been stopped stays where it is. */
  lemma ClearBefore(g: Tables, b: nat, c: nat, names: seq<Token>, finals: seq<Obj>)
    requires |g.hist| == |g.firstKey| && c == b + 1 && NoneRefused(g, c, [], [])
    ensures NoneRefused(g, b, names, finals)
  {
    forall x: Obj, i: nat | x < |g.hist| && i < |g.hist[x].past| ensures ClearAt(g, b, names, finals, x, i) {
      assert ClearAt(g, c, [], [], x, i);
    }
  }

  lemma {:induction false} FinalsStopped(p: Progress, xs: seq<Obj>, e: Epoch, c: nat)
    requires !p.ok && forall a :: 0 <= a < |xs| ==> xs[a] < |p.hist|
    ensures RenameFinals(p, xs, e, c) == p
  {
    if |xs| > 0 {
      FinalsStopped(p, xs[..|xs| - 1], e, c);
    }
  }

  /** An entry that is passed over has nothing due. */
  lemma NothingDue(g: Tables, b: nat, c: nat, x: Obj, i: nat)
    requires AllReady(g) && b < |g.es| && c == b + 1 && Skipped(g.es, b) && x < |g.hist| && i < |g.hist[x].past|
    ensures Moves(g.es, g.hist[x], At(g, x), i) ==> Turn(g.es, g.hist[x], At(g, x), i) != c
  {
    var h, at := g.hist[x], At(g, x);
    assert Ready(g, x);
    if i + 1 == |at| && Registered(g.es, h.past[i].validTo) && Turn(g.es, h, at, i) == c {
      assert PlacedAt(g.es, h, g.firstKey[x], i, at[i]);
      EntryOrder(g.es, at[i] - 1, b);
      NumberBelow(g.es, b);
    }
  }

  lemma EntryPassed(g: Tables, b: nat, c: nat, p: Progress)
    requires AllReady(g) && b < |g.es| && c == b + 1 && Skipped(g.es, b) && Reached(g, b, [], [], p)
    ensures Reached(g, c, [], [], p)
  {
    forall x: Obj, i: nat | x < |g.hist| && i < |g.hist[x].past|
      ensures ClearAt(g, b, [], [], x, i) <==> ClearAt(g, c, [], [], x, i)
      ensures EndAt(g.es, g.hist[x], At(g, x), x, b, [], [], i) == EndAt(g.es, g.hist[x], At(g, x), x, c, [], [], i)
    {
      NothingDue(g, b, c, x, i);
    }
    forall x | 0 <= x < |g.hist| && p.ok ensures IsStage(g.es, g.hist[x], At(g, x), x, c, [], [], p.hist[x]) {
      assert IsStage(g.es, g.hist[x], At(g, x), x, b, [], [], p.hist[x]);
    }
    if p.ok {
      forall e: Epoch, x: Obj ensures Gathered(p.extras, e, x) <==> ShouldGather(g, c, [], e, x) {
        assert Gathered(p.extras, e, x) <==> ShouldGather(g, b, [], e, x);
      }
    }
  }

  lemma ListDone(g: Tables, b: nat, c: nat, p: Progress)
    requires AllReady(g) && b < |g.es| && c == b + 1 && ListNames(g, b, c) && !Skipped(g.es, b)
    requires Reached(g, b, [], [], p)
    ensures ListFits(g.es[b].cleanups, |p.hist|)
    ensures Reached(g, b, g.es[b].cleanups, [], RenameList(p, g.es[b].cleanups, c))
  {
    var cs := g.es[b].cleanups;
    ListSteps(g, b, c, |cs|, p);
    assert cs[..|cs|] == cs;
  }

  lemma FinalsDone(g: Tables, b: nat, c: nat, q: Progress)
    requires AllReady(g) && b < |g.es| && c == b + 1 && Reached(g, b, g.es[b].cleanups, [], q)
    requires forall a :: 0 <= a < |FinalsAt(q.extras, g.es[b].epoch)| ==>
             FinalsAt(q.extras, g.es[b].epoch)[a] < |q.hist|
    ensures Reached(g, c, [], [], RenameFinals(q, FinalsAt(q.extras, g.es[b].epoch), g.es[b].epoch, c))
  {
    var xs := FinalsAt(q.extras, g.es[b].epoch);
    if q.ok {
      FinalSteps(g, b, c, q.extras, |xs|, q);
      assert xs[..|xs|] == xs;
      EntryEnds(g, b, c, q.extras, RenameFinals(q, xs, g.es[b].epoch, c));
    } else {
      FinalsStopped(q, xs, g.es[b].epoch, c);
      if NoneRefused(g, c, [], []) {
        ClearBefore(g, b, c, g.es[b].cleanups, []);
      }
    }
  }

  lemma GatheredFits(q: Progress, e: Epoch)
    requires Fits(q)
    ensures forall a :: 0 <= a < |FinalsAt(q.extras, e)| ==> FinalsAt(q.extras, e)[a] < |q.hist|
  {
    var xs := FinalsAt(q.extras, e);
    assert forall a :: 0 <= a < |xs| ==> xs[a] in xs;
  }

  /** One round of the loop. */
  lemma EntryStep(g: Tables, b: nat, c: nat, p: Progress)
    requires AllReady(g) && b < |g.es| && c == b + 1 && ListNames(g, b, c)
    requires Reached(g, b, [], [], p) && TableFits(g.es, |p.hist|) && Fits(p)
    ensures Reached(g, c, [], [], RenumberEntry(p, g.es, b))
  {
    if Skipped(g.es, b) {
      EntryPassed(g, b, c, p);
    } else {
      EntryRenamed(g, b, c, p);
    }
  }

  lemma EntryRenamed(g: Tables, b: nat, c: nat, p: Progress)
    requires AllReady(g) && b < |g.es| && c == b + 1 && ListNames(g, b, c) && !Skipped(g.es, b)
    requires Reached(g, b, [], [], p) && TableFits(g.es, |p.hist|) && Fits(p)
    ensures Reached(g, c, [], [], RenumberEntry(p, g.es, b))
  {
    ListDone(g, b, c, p);
    var q := RenameList(p, g.es[b].cleanups, c);
    GatheredFits(q, g.es[b].epoch);
    FinalsDone(g, b, c, q);
  }

  // ---------------------------------------------------------------------------------------------
  // The whole loop
  // ---------------------------------------------------------------------------------------------

  lemma ListsFit(s: State)
    requires Inv(s)
    ensures TableFits(s.info.entries, |s.hist|)
  {
    forall k, t | 0 <= k < |s.info.entries| && t in s.info.entries[k].cleanups ensures t.obj < |s.hist| {
      var j := ListedNamesOne(s, k, t);
    }
  }

  lemma Untouched(g: Tables)
    requires AllReady(g)
    ensures Reached(g, 0, [], [], Progress(true, g.hist, map[]))
  {
    forall x: Obj, i: nat | x < |g.hist| && i < |g.hist[x].past|
      ensures !Had(g.es, g.hist[x], At(g, x), x, 0, [], [], i)
    {
      assert Ready(g, x);
      if i + 1 < |g.hist[x].past| {
        assert PlacedAt(g.es, g.hist[x], g.firstKey[x], i + 1, At(g, x)[i + 1]);
      }
    }
    forall x | 0 <= x < |g.hist| ensures IsStage(g.es, g.hist[x], At(g, x), x, 0, [], [], g.hist[x]) {
      assert Ready(g, x);
    }
    forall e: Epoch, x: Obj ensures !ShouldGather(g, 0, [], e, x) {
      if x < |g.hist| && |g.hist[x].past| > 0 {
        assert Ready(g, x);
        var last := |g.hist[x].past| - 1;
        assert PlacedAt(g.es, g.hist[x], g.firstKey[x], last, At(g, x)[last]);
      }
    }
  }

  /** Where the loop is after `m` rounds. */
  lemma {:induction false} LoopReached(s: State, m: nat)
    requires Quiescent(s) && m <= |s.info.entries|
    ensures TableFits(s.info.entries, |s.hist|)
    ensures Reached(TablesOf(s), m, [], [], LoopTo(s.info.entries, s.hist, m))
  {
    ListsFit(s);
    ReadyAll(s);
    if m == 0 {
      Untouched(TablesOf(s));
    } else {
      var b := m - 1;
      LoopReached(s, b);
      TokensNext(s, b, m);
      LoopNext(s.info.entries, s.hist, b, m);
      EntryStep(TablesOf(s), b, m, LoopTo(s.info.entries, s.hist, b));
    }
  }

  /** Entry `k` is not passed over and lists version `j` of object `x`, which is not its first, and besides lists the
      next version, or, if the next version is the newest, has the epoch at which that one starts. */
  ghost predicate ClashesAt(g: Tables, k: nat, x: Obj, j: nat)
    requires |g.hist| == |g.firstKey|
  {
    && k < |g.es| && !Skipped(g.es, k) && x < |g.hist| && 1 <= j < |g.hist[x].past|
    && Token(x, Key(g.hist[x], g.firstKey[x], j)) in g.es[k].cleanups
    && if j + 1 < |g.hist[x].past| then Token(x, Key(g.hist[x], g.firstKey[x], j + 1)) in g.es[k].cleanups
       else g.es[k].epoch == NewestFrom(g.hist[x])
  }

  ghost predicate ClashesFor(g: Tables, x: Obj, j: nat)
    requires |g.hist| == |g.firstKey|
  {
    exists k: nat :: ClashesAt(g, k, x, j)
  }

  /** Some entry that is not passed over lists two successive versions of one object, neither of them its first, or
      lists the version before the newest one, which is not the first either, while the newest starts at that entry's
      own epoch. */
  ghost predicate Clashes(s: State)
    requires |s.hist| == |s.firstKey|
  {
    exists x: Obj, j: nat :: ClashesFor(TablesOf(s), x, j)
  }

  lemma ClashIs(s: State, x: Obj, i: nat)
    requires Quiescent(s) && x < |s.hist| && i < |s.hist[x].past|
    ensures Clash(s.info.entries, s.hist[x], At(TablesOf(s), x), i) <==> ClashesFor(TablesOf(s), x, i)
  {
    var g := TablesOf(s);
    ReadyAll(s);
    if i > 0 && Clash(g.es, g.hist[x], At(g, x), i) {
      assert Ready(g, x);
      assert PlacedAt(g.es, g.hist[x], g.firstKey[x], i, At(g, x)[i]);
      ClashHere(g, x, i, At(g, x)[i] - 1);
    }
    if ClashesFor(g, x, i) {
      var k: nat :| ClashesAt(g, k, x, i);
      NumberIs(s, k, Token(x, Key(g.hist[x], g.firstKey[x], i)));
      if i + 1 < |g.hist[x].past| {
        NumberIs(s, k, Token(x, Key(g.hist[x], g.firstKey[x], i + 1)));
      }
      ClashThere(g, x, i, k);
    }
  }

  lemma ClashHere(g: Tables, x: Obj, i: nat, k: nat)
    requires AllReady(g) && x < |g.hist| && 0 < i < |g.hist[x].past| && k < |g.es| && At(g, x)[i] == k + 1
    requires Clash(g.es, g.hist[x], At(g, x), i)
    ensures ClashesAt(g, k, x, i)
  {
    var h, at := g.hist[x], At(g, x);
    assert at[i] == NumberOf(g.es, Token(x, Key(h, g.firstKey[x], i)));
    if i + 1 < |at| {
      assert at[i + 1] == NumberOf(g.es, Token(x, Key(h, g.firstKey[x], i + 1)));
    }
  }

  lemma ClashThere(g: Tables, x: Obj, i: nat, k: nat)
    requires AllReady(g) && ClashesAt(g, k, x, i)
    requires NumberOf(g.es, Token(x, Key(g.hist[x], g.firstKey[x], i))) == k + 1
    requires i + 1 < |g.hist[x].past| ==> NumberOf(g.es, Token(x, Key(g.hist[x], g.firstKey[x], i + 1))) == k + 1
    ensures Clash(g.es, g.hist[x], At(g, x), i)
  {
    AtNumber(g, x, i);
    if i + 1 < |g.hist[x].past| {
      AtNumber(g, x, i + 1);
    } else {
      RankOfEntry(g.es, k);
    }
    ClashIf(g.es, g.hist[x], At(g, x), i, k + 1);
  }

  lemma ClashIf(es: seq<Entry>, h: History<int>, at: seq<nat>, i: nat, c: nat)
    requires 0 < i < |at| == |h.past| && at[i] == c && !Passed(es, c)
    requires if i + 1 < |at| then at[i + 1] == c
             else Registered(es, h.past[i].validTo) && Rank(es, h.past[i].validTo) + 1 == c
    ensures Clash(es, h, at, i)
  {
  }

  lemma AllHad(g: Tables, x: Obj, i: nat)
    requires AllReady(g) && x < |g.hist| && i < |g.hist[x].past| && Moves(g.es, g.hist[x], At(g, x), i)
    ensures Had(g.es, g.hist[x], At(g, x), x, |g.es|, [], [], i)
  {
    assert Ready(g, x);
    if i + 1 < |g.hist[x].past| {
      assert PlacedAt(g.es, g.hist[x], g.firstKey[x], i + 1, At(g, x)[i + 1]);
    }
  }

  /** Renumbering goes through if and only if no entry that is renumbered holds a clash. */
  lemma RefusedExactly(s: State)
    requires Quiescent(s)
    ensures TableFits(s.info.entries, |s.hist|)
    ensures Renumbering(s.info.entries, s.hist).ok <==> !Clashes(s)
  {
    var g, n := TablesOf(s), |s.info.entries|;
    ReadyAll(s);
    LoopReached(s, n);
    forall x: Obj, i: nat | x < |s.hist| && i < |s.hist[x].past|
      ensures ClearAt(g, n, [], [], x, i) <==> !ClashesFor(g, x, i)
    {
      ClashIs(s, x, i);
      if Moves(g.es, g.hist[x], At(g, x), i) {
        AllHad(g, x, i);
      }
    }
    if Clashes(s) {
      var x: Obj, i: nat :| ClashesFor(g, x, i);
      assert !ClearAt(g, n, [], [], x, i);
    }
  }
}
