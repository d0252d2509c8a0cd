/** Version histories: the list of versions that one versioned object keeps.

    A history stores, for every version but the newest, the epoch from which that version is
    no longer current (`validTo`).  A version's first epoch is not stored: it is the `validTo` of the
    version before it, and 1 for the first version. */
module Histories {

  datatype Option<+T> = None | Some(value: T)

  datatype Past<T> = Past(validTo: nat, value: T)

  datatype History<T> = History(past: seq<Past<T>>, current: T)

  /** `validTo` strictly increases. */
  ghost predicate Rising<T>(h: History<T>) {
    forall i, j :: 0 <= i < j < |h.past| ==> h.past[i].validTo < h.past[j].validTo
  }

  /** `validTo` strictly increases and no version ends at or before epoch 1. */
  ghost predicate Sorted<T>(h: History<T>) {
    Rising(h) && forall i :: 0 <= i < |h.past| ==> h.past[i].validTo > 1
  }

  /** The first epoch of version `i`, as the code computes it. */
  function ValidFrom<T>(h: History<T>, i: nat): nat
    requires i <= |h.past|
  {
    if i == 0 then 1 else h.past[i - 1].validTo
  }

  /** The first epoch of the newest version. */
  function NewestFrom<T>(h: History<T>): nat {
    ValidFrom(h, |h.past|)
  }

  function ValueOf<T>(h: History<T>, i: nat): T
    requires i <= |h.past|
  {
    if i < |h.past| then h.past[i].value else h.current
  }

  // ---------------------------------------------------------------------------------------------
  // Reading
  // ---------------------------------------------------------------------------------------------

  /** Scans from version `i` back to the first one that starts at or before epoch `e`. */
  function Scan<T>(h: History<T>, i: nat, e: nat): (r: nat)
    requires i <= |h.past|
    ensures r <= i
  {
    if i == 0 || e >= h.past[i - 1].validTo then i else Scan(h, i - 1, e)
  }

  /** The index of the version that a reader at epoch `e` sees. */
  function ReadIndex<T>(h: History<T>, e: nat): (r: nat)
    ensures r <= |h.past|
  {
    Scan(h, |h.past|, e)
  }

  function ValueAt<T>(h: History<T>, e: nat): T {
    ValueOf(h, ReadIndex(h, e))
  }

  /** Version `i` is the one whose interval holds epoch `e`; the first version's interval has no lower end. */
  ghost predicate Covers<T>(h: History<T>, i: nat, e: nat)
    requires i <= |h.past|
  {
    (i == 0 || h.past[i - 1].validTo <= e) && (i == |h.past| || e < h.past[i].validTo)
  }

  lemma {:induction false} ScanCovers<T>(h: History<T>, i: nat, e: nat)
    requires Rising(h) && i <= |h.past| && (i == |h.past| || e < h.past[i].validTo)
    ensures Covers(h, Scan(h, i, e), e)
  {
    if i != 0 && e < h.past[i - 1].validTo {
      ScanCovers(h, i - 1, e);
    }
  }

  /** The backward scan finds the one version whose interval holds the epoch. */
  lemma ReadIndexCovers<T>(h: History<T>, e: nat, i: nat)
    requires Rising(h) && i <= |h.past|
    ensures Covers(h, i, e) <==> i == ReadIndex(h, e)
  {
    ScanCovers(h, |h.past|, e);
    var r := ReadIndex(h, e);
    assert i < r ==> h.past[i].validTo <= h.past[r - 1].validTo;
    assert r < i ==> h.past[r].validTo <= h.past[i - 1].validTo;
  }

  // ---------------------------------------------------------------------------------------------
  // Setting up and rolling back a commit
  // ---------------------------------------------------------------------------------------------

  /** The newest version becomes valid up to `to`, and `v` takes its place. */
  function Push<T>(h: History<T>, to: nat, v: T): History<T> {
    History(h.past + [Past(to, h.current)], v)
  }

  /** The newest version is dropped. */
  function Pop<T>(h: History<T>): History<T>
    requires |h.past| > 0
  {
    var n := |h.past| - 1;
    History(h.past[..n], h.past[n].value)
  }

  lemma PopUndoesPush<T>(h: History<T>, to: nat, v: T)
    ensures Pop(Push(h, to, v)) == h
  {
  }

  lemma PushUndoesPop<T>(h: History<T>)
    requires |h.past| > 0
    ensures Push(Pop(h), h.past[|h.past| - 1].validTo, h.current) == h
  {
  }

  /** A version set up for epoch `to` is read from `to` on, and nothing changes below it. */
  lemma PushReads<T>(h: History<T>, to: nat, v: T, e: nat)
    requires Sorted(h) && to > 1 && (|h.past| > 0 ==> h.past[|h.past| - 1].validTo < to)
    ensures Sorted(Push(h, to, v))
    ensures ValueAt(Push(h, to, v), e) == if e >= to then v else ValueAt(h, e)
    ensures e < to ==> ReadIndex(Push(h, to, v), e) == ReadIndex(h, e)
  {
    var p := Push(h, to, v);
    var i := if e >= to then |p.past| else ReadIndex(h, e);
    ReadIndexCovers(h, e, ReadIndex(h, e));
    assert Sorted(p);
    assert Covers(p, i, e);
    ReadIndexCovers(p, e, i);
  }

  lemma PopReads<T>(h: History<T>, e: nat)
    requires Sorted(h) && |h.past| > 0 && e < h.past[|h.past| - 1].validTo
    ensures Sorted(Pop(h)) && ValueAt(Pop(h), e) == ValueAt(h, e)
  {
    var n := |h.past| - 1;
    PushUndoesPop(h);
    assert Sorted(Pop(h));
    PushReads(Pop(h), h.past[n].validTo, h.current, e);
  }

  lemma NewestReads<T>(h: History<T>, e: nat)
    requires Sorted(h) && e >= NewestFrom(h)
    ensures ReadIndex(h, e) == |h.past| && ValueAt(h, e) == h.current
  {
  }

  // ---------------------------------------------------------------------------------------------
  // Removing a version
  // ---------------------------------------------------------------------------------------------

  /** Version `i` disappears; the version before it, if any, takes over its interval. */
  function RemoveAt<T>(h: History<T>, i: nat): (r: History<T>)
    requires i < |h.past|
    ensures |r.past| == |h.past| - 1
  {
    if i == 0 then History(h.past[1..], h.current)
    else History(h.past[..i - 1] + [Past(h.past[i].validTo, h.past[i - 1].value)] + h.past[i + 1..], h.current)
  }

  /** Position of the past entry whose `validTo` is the given epoch. */
  function FindValidTo<T>(h: History<T>, i: nat, e: nat): (r: Option<nat>)
    ensures r.Some? ==> i <= r.value < |h.past| && h.past[r.value].validTo == e
    ensures r.None? ==> forall j :: i <= j < |h.past| ==> h.past[j].validTo != e
    decreases |h.past| - i
  {
    if i >= |h.past| then None
    else if h.past[i].validTo == e then Some(i)
    else FindValidTo(h, i + 1, e)
  }

  /** Which version a cleanup request for `vf` denotes, searching as the code does: a request that
      starts before the first version ends denotes the first version, whatever its own start was. */
  function Find<T>(h: History<T>, vf: nat): (r: Option<nat>)
    ensures r.Some? ==> r.value < |h.past|
  {
    if |h.past| == 0 then None
    else if vf < h.past[0].validTo then Some(0)
    else match FindValidTo(h, 0, vf)
      case Some(k) => if k + 1 < |h.past| then Some(k + 1) else None
      case None => None
  }

  /** A request denotes version `i` exactly when it names the start of `i`, or, for the first
      version, any epoch before that version ends. */
  lemma FindDenotes<T>(h: History<T>, vf: nat, i: nat)
    requires Sorted(h) && i < |h.past|
    ensures Find(h, vf) == Some(i) <==> (if i == 0 then vf < h.past[0].validTo else vf == h.past[i - 1].validTo)
  {
  }

  lemma FindNothing<T>(h: History<T>, vf: nat)
    requires |h.past| > 0 && vf >= h.past[0].validTo && forall j :: 0 <= j < |h.past| ==> ValidFrom(h, j) != vf
    ensures Find(h, vf) == None
  {
    assert forall j :: 0 <= j < |h.past| - 1 ==> h.past[j].validTo == ValidFrom(h, j + 1);
  }

  lemma {:induction false} FindValidToFirst<T>(h: History<T>, i: nat, k: nat, e: nat)
    requires i <= k < |h.past| && h.past[k].validTo == e && forall j :: i <= j < k ==> h.past[j].validTo != e
    ensures FindValidTo(h, i, e) == Some(k)
    decreases k - i
  {
    if i < k {
      FindValidToFirst(h, i + 1, k, e);
    }
  }

  function Cleanup<T>(h: History<T>, vf: nat): Option<History<T>> {
    match Find(h, vf)
    case None => None
    case Some(i) => Some(RemoveAt(h, i))
  }

  /** What the bookkeeping calls version `i`: its start, with the given name for the first version. */
  function Key<T>(h: History<T>, first: nat, i: nat): nat
    requires i <= |h.past|
  {
    if i == 0 then first else h.past[i - 1].validTo
  }

  /** The name of the first version after version `i` is removed. */
  function FirstAfter<T>(h: History<T>, first: nat, i: nat): nat
    requires i < |h.past|
  {
    if i == 0 then h.past[0].validTo else first
  }

  /** Removal takes exactly one version out: the others keep their order, names and values. */
  lemma RemoveKeepsOthers<T>(h: History<T>, first: nat, i: nat, j: nat)
    requires i < |h.past| && j <= |h.past| - 1
    ensures Key(RemoveAt(h, i), FirstAfter(h, first, i), j) == Key(h, first, if j < i then j else j + 1)
    ensures ValueOf(RemoveAt(h, i), j) == ValueOf(h, if j < i then j else j + 1)
    ensures j < |h.past| - 1 ==>
              RemoveAt(h, i).past[j].validTo == h.past[if j + 1 < i then j else j + 1].validTo
  {
  }

  lemma RemoveSorted<T>(h: History<T>, i: nat)
    requires Sorted(h) && i < |h.past|
    ensures Sorted(RemoveAt(h, i))
  {
    var r := RemoveAt(h, i);
    forall j | 0 <= j < |r.past|
      ensures r.past[j].validTo == h.past[if j + 1 < i then j else j + 1].validTo
    {
      RemoveKeepsOthers(h, 1, i, j);
    }
  }

  /** Removing version `i` changes reads only inside that version's own interval. */
  lemma RemoveReads<T>(h: History<T>, i: nat, e: nat)
    requires Sorted(h) && i < |h.past| && !Covers(h, i, e)
    ensures Sorted(RemoveAt(h, i)) && ValueAt(RemoveAt(h, i), e) == ValueAt(h, e)
  {
    RemoveSorted(h, i);
    var r := RemoveAt(h, i);
    var k := ReadIndex(h, e);
    ReadIndexCovers(h, e, k);
    ReadIndexCovers(h, e, i);
    var k' := if k < i then k else k - 1;
    RemoveKeepsOthers(h, 1, i, k');
    if k' > 0 {
      RemoveKeepsOthers(h, 1, i, k' - 1);
      assert r.past[k' - 1].validTo <= e;
    }
    assert Covers(r, k', e);
    ReadIndexCovers(r, e, k');
  }

  /** Inside the removed interval the reader falls back to the version before it, or, when the first
      version went, to the new first version. */
  lemma RemovedReads<T>(h: History<T>, i: nat, e: nat)
    requires Sorted(h) && i < |h.past| && Covers(h, i, e)
    ensures ValueAt(h, e) == h.past[i].value
    ensures ValueAt(RemoveAt(h, i), e) == ValueOf(h, if i == 0 then 1 else i - 1)
  {
    RemoveSorted(h, i);
    ReadIndexCovers(h, e, i);
    var k := if i == 0 then 0 else i - 1;
    RemoveKeepsOthers(h, 1, i, k);
    var r := RemoveAt(h, i);
    if k > 0 {
      RemoveKeepsOthers(h, 1, i, k - 1);
    }
    assert Covers(r, k, e);
    ReadIndexCovers(r, e, k);
  }

  // ---------------------------------------------------------------------------------------------
  // Renaming a version's first epoch
  // ---------------------------------------------------------------------------------------------

  datatype RenameResult<T> =
    // `next` is the start of the newest version when the version before it was renamed, else 0
    | Renamed(history: History<T>, next: nat)
    | RenameFailed

  function SetValidTo<T>(h: History<T>, k: nat, e: nat): History<T>
    requires k < |h.past|
  {
    h.(past := h.past[k := h.past[k].(validTo := e)])
  }

  /** The lock-based object's renaming: the first version has no stored start and is left alone. */
  function Rename<T>(h: History<T>, oldFrom: nat, newFrom: nat): RenameResult<T> {
    if |h.past| == 0 then RenameFailed
    else if oldFrom < h.past[0].validTo then Renamed(h, if |h.past| == 1 then h.past[0].validTo else 0)
    else match FindValidTo(h, 0, oldFrom)
      case None => RenameFailed
      case Some(k) =>
        if k != 0 && h.past[k - 1].validTo >= newFrom then RenameFailed
        else if k != |h.past| - 1 && h.past[k + 1].validTo <= newFrom then RenameFailed
        else Renamed(SetValidTo(h, k, newFrom), if k + 2 == |h.past| then h.past[k + 1].validTo else 0)
  }

  /** A renaming that is accepted moves one boundary, keeps the boundaries strictly increasing and every value; they
      all stay above 1, the start of the first version, unless the first boundary itself is moved down there, which
      the checks do not exclude. */
  lemma RenameKeepsOrder<T>(h: History<T>, oldFrom: nat, newFrom: nat)
    requires Rising(h) && Rename(h, oldFrom, newFrom).Renamed?
    ensures var r := Rename(h, oldFrom, newFrom).history;
            && |r.past| == |h.past|
            && Rising(r)
            && (forall i :: 0 <= i <= |h.past| ==> ValueOf(r, i) == ValueOf(h, i))
            && (Sorted(h) ==> (Sorted(r) <==> newFrom > 1 || oldFrom < h.past[0].validTo))
  {
    var k := FindValidTo(h, 0, oldFrom);
    if oldFrom >= h.past[0].validTo && k.Some? {
      assert Rename(h, oldFrom, newFrom).history.past[k.value].validTo == newFrom;
    }
  }

  /** Boundary `k` would stay between its neighbours at `e`. */
  predicate Between<T>(h: History<T>, k: nat, e: nat)
    requires k < |h.past|
  {
    (k == 0 || h.past[k - 1].validTo < e) && (k + 1 == |h.past| || e < h.past[k + 1].validTo)
  }

  /** Which renamings are accepted, and which boundary is moved: the one that stands at the old start, if it stays
      between its neighbours; the first version has none, and its renaming changes nothing.  Where the newest version is
      next, its start is reported. */
  lemma RenameExactly<T>(h: History<T>, oldFrom: nat, newFrom: nat)
    requires Sorted(h)
    ensures Rename(h, oldFrom, newFrom).Renamed? <==>
              |h.past| > 0 &&
              (oldFrom < h.past[0].validTo ||
               exists k :: 0 <= k < |h.past| && h.past[k].validTo == oldFrom && Between(h, k, newFrom))
    ensures |h.past| > 0 && oldFrom < h.past[0].validTo ==>
              Rename(h, oldFrom, newFrom) == Renamed(h, if |h.past| == 1 then h.past[0].validTo else 0)
    ensures forall k :: 0 <= k < |h.past| && h.past[k].validTo == oldFrom && Between(h, k, newFrom) ==>
              Rename(h, oldFrom, newFrom) ==
              Renamed(History(h.past[k := Past(newFrom, h.past[k].value)], h.current),
                      if k + 2 == |h.past| then h.past[k + 1].validTo else 0)
  {
    forall k | 0 <= k < |h.past| && h.past[k].validTo == oldFrom ensures FindValidTo(h, 0, oldFrom) == Some(k) {
      FindValidToFirst(h, 0, k, oldFrom);
    }
    var found := FindValidTo(h, 0, oldFrom);
    if found.Some? {
      assert h.past[found.value].validTo == oldFrom;
    }
  }
}
