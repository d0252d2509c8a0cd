/** The table of snapshots while renumbering goes through its entries, and what live snapshots see on the way. */
module CompressTable {
  import opened Histories
  import opened Snapshots
  import opened Mvcc
  import opened MvccSteps
  import opened MvccRuns
  import opened Compress
  import opened CompressLoop
  import opened CompressStages
  import opened CompressStore

  // ---------------------------------------------------------------------------------------------
  // The table when `b` entries are gone through
  // ---------------------------------------------------------------------------------------------

  function EntriesAt(es: seq<Entry>, b: nat): (r: seq<Entry>)
    requires b <= |es|
    ensures |r| == |es|
  {
    NewEntries(es)[..b] + es[b..]
  }

  lemma EntriesNext(es: seq<Entry>, b: nat, c: nat)
    requires Numberable(es) && b < |es| && c == b + 1
    ensures EntriesAt(es, b)[b] == es[b]
    ensures EntriesAt(es, b)[b := NewEntry(es, b)] == EntriesAt(es, c)
    ensures Skipped(es, b) ==> EntriesAt(es, b) == EntriesAt(es, c)
    ensures !Skipped(es, b) ==> forall k :: 0 <= k < |es| ==> EntriesAt(es, b)[k].epoch != c
  {
    forall k | 0 <= k < |es| && !Skipped(es, b) ensures EntriesAt(es, b)[k].epoch != c {
      NumberBelow(es, b);
    }
  }

  lemma EntriesEnds(es: seq<Entry>)
    ensures EntriesAt(es, 0) == es && EntriesAt(es, |es|) == NewEntries(es)
  {
  }

  function EpochsAt(es: seq<Entry>, epochOf: map<Snap, Epoch>, b: nat): map<Snap, Epoch> {
    map n | n in epochOf :: if IndexOf(es, epochOf[n]) < b then IndexOf(es, epochOf[n]) + 1 else epochOf[n]
  }

  function Moved(epochOf: map<Snap, Epoch>, snaps: set<Snap>, e: Epoch): map<Snap, Epoch> {
    map n | n in epochOf :: if n in snaps then e else epochOf[n]
  }

  lemma HeldIndex(info: Info, epochOf: map<Snap, Epoch>, n: Snap, b: nat)
    requires Increasing(info.entries) && SnapsOk(info, epochOf) && n in epochOf && b < |info.entries|
    ensures IndexOf(info.entries, epochOf[n]) < |info.entries|
    ensures n in info.entries[b].snapshots <==> IndexOf(info.entries, epochOf[n]) == b
    ensures n in info.entries[b].snapshots ==> epochOf[n] == info.entries[b].epoch
  {
    var es := info.entries;
    var k :| 0 <= k < |es| && es[k].epoch == epochOf[n] && n in es[k].snapshots;
    IndexOfEntry(es, k);
    IndexOfEntry(es, b);
  }

  lemma EpochNext(info: Info, epochOf: map<Snap, Epoch>, n: Snap, b: nat, c: nat)
    requires Increasing(info.entries) && SnapsOk(info, epochOf) && n in epochOf && b < |info.entries| && c == b + 1
    ensures var at, held := EpochsAt(info.entries, epochOf, b), info.entries[b].snapshots;
            && (n in held ==> at[n] == info.entries[b].epoch)
            && EpochsAt(info.entries, epochOf, c)[n] == if n in held then c else at[n]
  {
    HeldIndex(info, epochOf, n, b);
  }

  lemma AllHeld(info: Info, epochOf: map<Snap, Epoch>, b: nat)
    requires SnapsOk(info, epochOf) && b < |info.entries|
    ensures forall n :: n in info.entries[b].snapshots ==> n in epochOf
  {
  }

  lemma MovedIs(at: map<Snap, Epoch>, to: map<Snap, Epoch>, held: set<Snap>, c: nat)
    requires to.Keys == at.Keys && forall n :: n in at ==> to[n] == if n in held then c else at[n]
    ensures to == Moved(at, held, c)
  {
  }

  lemma EpochsNext(info: Info, epochOf: map<Snap, Epoch>, b: nat, c: nat)
    requires Increasing(info.entries) && SnapsOk(info, epochOf) && b < |info.entries| && c == b + 1
    ensures forall n :: n in info.entries[b].snapshots ==>
              n in EpochsAt(info.entries, epochOf, b) && EpochsAt(info.entries, epochOf, b)[n] == info.entries[b].epoch
    ensures EpochsAt(info.entries, epochOf, c) ==
            Moved(EpochsAt(info.entries, epochOf, b), info.entries[b].snapshots, c)
  {
    var at, to := EpochsAt(info.entries, epochOf, b), EpochsAt(info.entries, epochOf, c);
    var held := info.entries[b].snapshots;
    AllHeld(info, epochOf, b);
    forall n | n in at
      ensures n in held ==> at[n] == info.entries[b].epoch
      ensures to[n] == if n in held then c else at[n]
    {
      EpochNext(info, epochOf, n, b, c);
    }
    MovedIs(at, to, held, c);
  }

  lemma EpochsPassedOver(info: Info, epochOf: map<Snap, Epoch>, b: nat, c: nat)
    requires Increasing(info.entries) && SnapsOk(info, epochOf) && b < |info.entries| && c == b + 1
    requires Skipped(info.entries, b)
    ensures EpochsAt(info.entries, epochOf, b) == EpochsAt(info.entries, epochOf, c)
  {
    EpochsNext(info, epochOf, b, c);
  }

  lemma EpochsEnds(info: Info, epochOf: map<Snap, Epoch>)
    requires Increasing(info.entries) && SnapsOk(info, epochOf) && |info.entries| > 0
    ensures EpochsAt(info.entries, epochOf, 0) == epochOf
    ensures EpochsAt(info.entries, epochOf, |info.entries|) == NewEpochs(info.entries, epochOf)
  {
    forall n | n in epochOf ensures IndexOf(info.entries, epochOf[n]) < |info.entries| {
      HeldIndex(info, epochOf, n, 0);
    }
  }

  /** What renumbering finds at an entry it comes to. */
  lemma EntryFacts(s: State, b: nat, c: nat)
    requires Inv(s) && b < |s.info.entries| && c == b + 1
    ensures var es := s.info.entries;
            && EntriesAt(es, b)[b] == es[b] && c <= es[b].epoch
            && (es[b].epoch != c ==>
                  EntriesAt(es, b)[b := Entry(c, es[b].snapshots, Retag(es[b].cleanups, c))] == EntriesAt(es, c))
            && (es[b].epoch == c ==> EntriesAt(es, b) == EntriesAt(es, c))
            && (es[b].epoch != c ==> forall k :: 0 <= k < |es| ==> EntriesAt(es, b)[k].epoch != c)
            && (forall n :: n in es[b].snapshots ==>
                  n in EpochsAt(es, s.epochOf, b) && EpochsAt(es, s.epochOf, b)[n] == es[b].epoch)
            && EpochsAt(es, s.epochOf, c) == Moved(EpochsAt(es, s.epochOf, b), es[b].snapshots, c)
            && (es[b].epoch == c ==> EpochsAt(es, s.epochOf, b) == EpochsAt(es, s.epochOf, c))
  {
    EntriesNumberable(s);
    EntriesNext(s.info.entries, b, c);
    NumberBelow(s.info.entries, b);
    EpochsNext(s.info, s.epochOf, b, c);
    if Skipped(s.info.entries, b) {
      EpochsPassedOver(s.info, s.epochOf, b, c);
    }
  }

  /** When all entries are gone through, nothing having been thrown, the store is the renumbered one. */
  lemma CompressFields(s: State)
    requires Inv(s) && |s.info.entries| > 0
    ensures var es, r := s.info.entries, CompressAll(s);
            && r.info == Info(|es| + 1, 1, EntriesAt(es, |es|))
            && TableFits(es, |s.hist|) && r.hist == Renumbering(es, s.hist).hist
            && r.epochOf == EpochsAt(es, s.epochOf, |es|)
            && r.boxes == s.boxes
  {
    EntriesEnds(s.info.entries);
    EpochsEnds(s.info, s.epochOf);
    ListsFit(s);
  }

  lemma CompressBegins(s: State)
    requires Inv(s) && |s.info.entries| > 0
    ensures var es := s.info.entries; EntriesAt(es, 0) == es && EpochsAt(es, s.epochOf, 0) == s.epochOf
  {
    EntriesEnds(s.info.entries);
    EpochsEnds(s.info, s.epochOf);
  }

  // ---------------------------------------------------------------------------------------------
  // What live snapshots see on the way
  // ---------------------------------------------------------------------------------------------

  /** Where the rule holds and an object is renumberable, each renaming takes an end to one past the number of the
      registered epochs before it, and an end that is not renamed stands there already. */
  lemma RankedTurn(es: seq<Entry>, h: History<int>, first: nat, at: seq<nat>, i: nat)
    requires Numberable(es) && Sorted(h) && AllSeen(es, h) && Renumberable(es, h) && Ruled(es, h, first, at) && i < |at|
    ensures ListedBy(es, h, i) + 1 == if Moves(es, h, at, i) then Turn(es, h, at, i) else h.past[i].validTo
  {
    EndsRightIf(es, h);
    RankedEnd(es, h, first, at, 0, i);
    if Moves(es, h, at, i) {
      RankedHad(es, h, first, at, 0, i);
    }
  }

  lemma RankedHad(es: seq<Entry>, h: History<int>, first: nat, at: seq<nat>, x: Obj, i: nat)
    requires Ruled(es, h, first, at) && i < |at| && Moves(es, h, at, i)
    ensures Had(es, h, at, x, |es|, [], [], i)
  {
    if i + 1 < |at| {
      assert RuledAt(es, h, first, i + 1, at[i + 1]);
    }
  }

  /** Reader `e` is the snapshot of entry `k`, renumbered or not: it takes its new number after the renamings that were
      due by then, and not before them. */
  ghost predicate ReaderAt(es: seq<Entry>, b: nat, last: nat, k: nat, e: Epoch) {
    && b <= last && k < |es|
    && ((e == k + 1 && k < b) || (e == es[k].epoch && last <= k + 1))
  }

  lemma StageRead(es: seq<Entry>, h: History<int>, first: nat, at: seq<nat>, x: Obj, b: nat, names: seq<Token>,
                  finals: seq<Obj>, last: nat, k: nat, e: Epoch, i: nat)
    requires Numberable(es) && Sorted(h) && AllSeen(es, h) && Renumberable(es, h) && Ruled(es, h, first, at) && i < |at|
    requires ReaderAt(es, b, last, k, e) && (last == b + 1 || (last == b && names == [] && finals == []))
    ensures e >= EndAt(es, h, at, x, b, names, finals, i) <==> es[k].epoch >= h.past[i].validTo
  {
    RankedTurn(es, h, first, at, i);
    RankIs(es, h.past[i].validTo, k);
    NumberBelow(es, k);
  }

  lemma StageReads(es: seq<Entry>, h: History<int>, first: nat, at: seq<nat>, x: Obj, b: nat, names: seq<Token>,
                   finals: seq<Obj>, r: History<int>, last: nat, k: nat, e: Epoch)
    requires Numberable(es) && Sorted(h) && AllSeen(es, h) && Renumberable(es, h) && Ruled(es, h, first, at)
    requires IsStage(es, h, at, x, b, names, finals, r)
    requires ReaderAt(es, b, last, k, e) && (last == b + 1 || (last == b && names == [] && finals == []))
    ensures ValueAt(r, e) == ValueAt(h, es[k].epoch)
  {
    forall i | 0 <= i < |h.past|
      ensures e >= r.past[i].validTo <==> es[k].epoch >= h.past[i].validTo
    {
      StageRead(es, h, first, at, x, b, names, finals, last, k, e, i);
    }
    SameReads(h, es[k].epoch, r, e);
  }

  lemma StageViews(s: State, b: nat, names: seq<Token>, finals: seq<Obj>, hs: seq<History<int>>, last: nat, k: nat,
                   e: Epoch)
    requires Compressible(s) && AllRenumberable(s) && StoreStage(TablesOf(s), b, names, finals, hs)
    requires ReaderAt(s.info.entries, b, last, k, e) && (last == b + 1 || (last == b && names == [] && finals == []))
    ensures View(hs, e) == View(s.hist, s.info.entries[k].epoch)
  {
    var g := TablesOf(s);
    forall x | 0 <= x < |s.hist| ensures ValueAt(hs[x], e) == ValueAt(s.hist[x], s.info.entries[k].epoch) {
      VersionsSeen(s, x);
      ObjectRuled(s, x);
      assert IsStage(g.es, g.hist[x], At(g, x), x, b, names, finals, hs[x]);
      StageReads(g.es, g.hist[x], g.firstKey[x], At(g, x), x, b, names, finals, hs[x], last, k, e);
    }
  }

  lemma EpochAt(s: State, n: Snap, b: nat) returns (k: nat)
    requires Inv(s) && n in s.epochOf
    ensures k < |s.info.entries| && s.info.entries[k].epoch == s.epochOf[n] && n in s.info.entries[k].snapshots
    ensures EpochsAt(s.info.entries, s.epochOf, b)[n] == if k < b then k + 1 else s.epochOf[n]
  {
    k := SnapEntry(s, n);
  }

  lemma StageKeepsViews(s: State, b: nat, names: seq<Token>, finals: seq<Obj>, hs: seq<History<int>>, n: Snap)
    requires Compressible(s) && AllRenumberable(s) && b < |s.info.entries| && n in s.epochOf
    requires StoreStage(TablesOf(s), b, names, finals, hs)
    ensures View(hs, EpochsAt(s.info.entries, s.epochOf, b)[n]) == View(s.hist, s.epochOf[n])
  {
    var k := EpochAt(s, n, b);
    StageViews(s, b, names, finals, hs, b + 1, k, EpochsAt(s.info.entries, s.epochOf, b)[n]);
  }

  lemma StoreClear(s: State, b: nat, names: seq<Token>, finals: seq<Obj>)
    requires Compressible(s)
    ensures NoneRefused(TablesOf(s), b, names, finals)
  {
    var g := TablesOf(s);
    forall x: Obj, i: nat | x < |s.hist| && i < |s.hist[x].past| ensures ClearAt(g, b, names, finals, x, i) {
      ObjectRuled(s, x);
      RuleNoClash(g.es, g.hist[x], g.firstKey[x], At(g, x), i);
    }
  }

  lemma ListReached(s: State, b: nat, c: nat, i: nat) returns (q: Progress)
    requires Compressible(s) && b < |s.info.entries| && c == b + 1 && !Skipped(s.info.entries, b)
    requires i <= |s.info.entries[b].cleanups|
    ensures TableFits(s.info.entries, |s.hist|) && ListFits(s.info.entries[b].cleanups[..i], |s.hist|)
    ensures q == RenameList(LoopTo(s.info.entries, s.hist, b), s.info.entries[b].cleanups[..i], c)
    ensures q.ok && Reached(TablesOf(s), b, s.info.entries[b].cleanups[..i], [], q)
  {
    var cs := s.info.entries[b].cleanups;
    LoopReached(s, b);
    TokensNext(s, b, c);
    ListSteps(TablesOf(s), b, c, i, LoopTo(s.info.entries, s.hist, b));
    StoreClear(s, b, cs[..i], []);
    q := RenameList(LoopTo(s.info.entries, s.hist, b), cs[..i], c);
  }

  /** After each single renaming of a listed version, with the snapshots of the entries gone through renumbered and the
      others not, every live snapshot still has its whole view. */
  lemma ListKeepsViews(s: State, b: nat, c: nat, i: nat, n: Snap)
    requires Compressible(s) && AllRenumberable(s) && b < |s.info.entries| && c == b + 1 && !Skipped(s.info.entries, b)
    requires i <= |s.info.entries[b].cleanups| && n in s.epochOf
    ensures TableFits(s.info.entries, |s.hist|) && ListFits(s.info.entries[b].cleanups[..i], |s.hist|)
    ensures var q := RenameList(LoopTo(s.info.entries, s.hist, b), s.info.entries[b].cleanups[..i], c);
            q.ok && View(q.hist, EpochsAt(s.info.entries, s.epochOf, b)[n]) == View(s.hist, s.epochOf[n])
  {
    var q := ListReached(s, b, c, i);
    StageKeepsViews(s, b, s.info.entries[b].cleanups[..i], [], q.hist, n);
  }

  /** And after each single renaming of a newest version. */
  lemma FinalsKeepViews(s: State, b: nat, c: nat, p: Progress, i: nat, n: Snap)
    requires Compressible(s) && AllRenumberable(s) && b < |s.info.entries| && c == b + 1 && !Skipped(s.info.entries, b)
    requires TableFits(s.info.entries, |s.hist|) && n in s.epochOf
    requires p == RenameList(LoopTo(s.info.entries, s.hist, b), s.info.entries[b].cleanups, c)
    requires i <= |FinalsAt(p.extras, s.info.entries[b].epoch)|
    ensures var xs := FinalsAt(p.extras, s.info.entries[b].epoch);
            && (forall a :: 0 <= a < i ==> xs[a] < |p.hist|)
            && var q := RenameFinals(p, xs[..i], s.info.entries[b].epoch, c);
               q.ok && View(q.hist, EpochsAt(s.info.entries, s.epochOf, b)[n]) == View(s.hist, s.epochOf[n])
  {
    var cs := s.info.entries[b].cleanups;
    assert cs[..|cs|] == cs;
    var p' := ListReached(s, b, c, |cs|);
    ReadyAll(s);
    FinalSteps(TablesOf(s), b, c, p.extras, i, p);
    var xs := FinalsAt(p.extras, s.info.entries[b].epoch);
    StoreClear(s, b, cs, xs[..i]);
    StageKeepsViews(s, b, cs, xs[..i], RenameFinals(p, xs[..i], s.info.entries[b].epoch, c).hist, n);
  }

  /** And so it has while the snapshots of an entry, whose objects are all renamed, take their new epoch one by one. */
  lemma MovingKeepsViews(s: State, b: nat, c: nat, moved: set<Snap>, n: Snap)
    requires Compressible(s) && AllRenumberable(s) && b < |s.info.entries| && c == b + 1
    requires n in s.epochOf && moved <= s.info.entries[b].snapshots
    ensures TableFits(s.info.entries, |s.hist|)
    ensures View(LoopTo(s.info.entries, s.hist, c).hist, Moved(EpochsAt(s.info.entries, s.epochOf, b), moved, c)[n]) ==
            View(s.hist, s.epochOf[n])
  {
    LoopReached(s, c);
    StoreClear(s, c, [], []);
    var k := EpochAt(s, n, b);
    HeldIndex(s.info, s.epochOf, n, b);
    var hs := LoopTo(s.info.entries, s.hist, c).hist;
    StageViews(s, c, [], [], hs, c, k, Moved(EpochsAt(s.info.entries, s.epochOf, b), moved, c)[n]);
  }
}
