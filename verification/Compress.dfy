/** Renumbering the epochs in use to 1, 2, 3, ...: what it does to one object's history, when that
    keeps every snapshot's reads, and when it keeps the cleanup lists usable.

    Entry number `c` (counting from 1) is renumbered to epoch `c`.  An object's version is renamed when
    the entry that lists it is reached, which is the entry of the latest snapshot that sees it; the
    newest version, which is on no list, is renamed at the entry with exactly its epoch, if there is one. */
module Compress {
  import opened Histories
  import opened Snapshots

  /** How many registered epochs are before `v`. */
  function Rank(es: seq<Entry>, v: Epoch): (r: nat)
    ensures r <= |es|
    ensures r > 0 ==> es[r - 1].epoch < v
    ensures forall k :: r <= k < |es| ==> es[k].epoch >= v
  {
    if |es| == 0 then 0
    else if es[|es| - 1].epoch < v then |es|
    else Rank(es[..|es| - 1], v)
  }

  lemma RankIs(es: seq<Entry>, v: Epoch, k: nat)
    requires Increasing(es) && k < |es|
    ensures es[k].epoch < v <==> k < Rank(es, v)
  {
  }

  lemma RankMonotone(es: seq<Entry>, v: Epoch, w: Epoch)
    requires Increasing(es) && v <= w
    ensures Rank(es, v) <= Rank(es, w)
  {
  }

  /** Epochs are positive and increase, so the number of an entry never passes its epoch, and the
      entries that already carry their own number come first. */
  ghost predicate Numberable(es: seq<Entry>) {
    Increasing(es) && forall k :: 0 <= k < |es| ==> es[k].epoch >= 1
  }

  lemma {:induction false} EntryGap(es: seq<Entry>, j: nat, k: nat)
    requires Numberable(es) && j <= k < |es|
    ensures es[k].epoch - es[j].epoch >= k - j
  {
    if j < k {
      EntryGap(es, j, k - 1);
    }
  }

  lemma NumberBelow(es: seq<Entry>, k: nat)
    requires Numberable(es) && k < |es|
    ensures es[k].epoch >= k + 1
    ensures es[0].epoch > 1 ==> es[k].epoch > k + 1
    ensures forall j :: 0 <= j <= k && es[k].epoch == k + 1 ==> es[j].epoch == j + 1
  {
    EntryGap(es, 0, k);
    forall j | 0 <= j <= k && es[k].epoch == k + 1
      ensures es[j].epoch == j + 1
    {
      EntryGap(es, 0, j);
      EntryGap(es, j, k);
    }
  }

  /** Entries whose epoch is already their number are passed over, with everything they list. */
  predicate Skipped(es: seq<Entry>, k: int) {
    0 <= k < |es| && es[k].epoch == k + 1
  }

  // ---------------------------------------------------------------------------------------------
  // One object
  // ---------------------------------------------------------------------------------------------

  /** The number of the entry that lists version `j`. */
  function ListedBy<T>(es: seq<Entry>, h: History<T>, j: nat): nat
    requires j < |h.past|
  {
    Rank(es, h.past[j].validTo)
  }

  /** Every obsolete version is seen by some registered epoch. */
  ghost predicate AllSeen<T>(es: seq<Entry>, h: History<T>) {
    && (|h.past| > 0 ==> ListedBy(es, h, 0) > 0)
    && forall i, j :: 0 <= i < j < |h.past| ==> ListedBy(es, h, i) < ListedBy(es, h, j)
  }

  /** The entry number at which the end of version `i` is renamed, if it is renamed. */
  function When<T>(es: seq<Entry>, h: History<T>, i: nat): nat
    requires i < |h.past|
  {
    if i + 1 < |h.past| then ListedBy(es, h, i + 1) else ListedBy(es, h, i) + 1
  }

  predicate Registered(es: seq<Entry>, e: Epoch) {
    var r := Rank(es, e);
    r < |es| && es[r].epoch == e
  }

  /** The end of version `i` after renumbering. */
  function NewEnd<T>(es: seq<Entry>, h: History<T>, i: nat): nat
    requires i < |h.past|
  {
    var old_ := h.past[i].validTo;
    if i + 1 < |h.past| then
      if Skipped(es, When(es, h, i) - 1) then old_ else When(es, h, i)
    else
      if Skipped(es, ListedBy(es, h, i) - 1) || !Registered(es, old_) then old_ else When(es, h, i)
  }

  /** The history once all entries have been gone through. */
  function Renumber<T>(es: seq<Entry>, h: History<T>): (r: History<T>)
    ensures |r.past| == |h.past|
  {
    History(seq(|h.past|, i requires 0 <= i < |h.past| => Past(NewEnd(es, h, i), h.past[i].value)), h.current)
  }

  lemma EndsOrdered<T>(es: seq<Entry>, h: History<T>, i: nat)
    requires Numberable(es) && Sorted(h) && AllSeen(es, h) && i < |h.past|
    ensures ListedBy(es, h, i) < NewEnd(es, h, i)
    ensures ListedBy(es, h, i) < h.past[i].validTo
    ensures i + 1 < |h.past| ==> NewEnd(es, h, i) <= ListedBy(es, h, i + 1)
  {
    var c := ListedBy(es, h, i);
    assert c > 0;
    NumberBelow(es, c - 1);
    if i + 1 < |h.past| {
      var d := ListedBy(es, h, i + 1);
      NumberBelow(es, d - 1);
      RankIs(es, h.past[i].validTo, d - 1);
    }
  }

  lemma RenumberInOrder<T>(es: seq<Entry>, h: History<T>, i: nat, j: nat)
    requires Numberable(es) && Sorted(h) && AllSeen(es, h) && i < j < |h.past|
    ensures NewEnd(es, h, i) < NewEnd(es, h, j)
  {
    EndsOrdered(es, h, i);
    EndsOrdered(es, h, j);
    RankMonotone(es, h.past[i + 1].validTo, h.past[j].validTo);
  }

  lemma RenumberSorted<T>(es: seq<Entry>, h: History<T>)
    requires Numberable(es) && Sorted(h) && AllSeen(es, h)
    ensures Sorted(Renumber(es, h))
  {
    var r := Renumber(es, h);
    forall i | 0 <= i < |h.past|
      ensures 1 < r.past[i].validTo
    {
      EndsOrdered(es, h, i);
      assert ListedBy(es, h, 0) >= 1 && (i > 0 ==> ListedBy(es, h, 0) < ListedBy(es, h, i));
    }
    forall i, j | 0 <= i < j < |h.past|
      ensures r.past[i].validTo < r.past[j].validTo
    {
      RenumberInOrder(es, h, i, j);
    }
  }

  // ---------------------------------------------------------------------------------------------
  // When reads are kept
  // ---------------------------------------------------------------------------------------------

  /** Every registered snapshot, at its new number, and a new snapshot at the next number, read the
      same versions as before. */
  ghost predicate ReadsKept<T>(es: seq<Entry>, h: History<T>, r: History<T>)
    requires |r.past| == |h.past|
  {
    && (forall k :: 0 <= k < |es| ==> ReadIndex(r, k + 1) == ReadIndex(h, es[k].epoch))
    && ReadIndex(r, |es| + 1) == |h.past|
  }

  /** How many registered epochs see version `j`. */
  function SeenBy<T>(es: seq<Entry>, h: History<T>, j: nat): int
    requires j < |h.past|
  {
    ListedBy(es, h, j) - (if j == 0 then 0 else ListedBy(es, h, j - 1))
  }

  /** The condition on one object: each version between the first and the newest is seen by exactly one
      registered epoch, or is listed by an entry that keeps its epoch; and the newest version starts at
      a registered epoch, or, if the version before it is listed by an entry that keeps its epoch, at the next one. */
  predicate Renumberable<T>(es: seq<Entry>, h: History<T>) {
    && (forall j {:trigger SeenBy(es, h, j)} :: 1 <= j < |h.past| ==>
          Skipped(es, ListedBy(es, h, j) - 1) || SeenBy(es, h, j) == 1)
    && (|h.past| > 0 ==>
          var last := |h.past| - 1;
          if Skipped(es, ListedBy(es, h, last) - 1) then h.past[last].validTo == ListedBy(es, h, last) + 1
          else Registered(es, h.past[last].validTo))
  }

  /** Reads are kept exactly when every version's end is renamed to one past the number of registered epochs before
      it. */
  lemma ReadsKeptEnds<T>(es: seq<Entry>, h: History<T>, r: History<T>)
    requires Numberable(es) && |es| > 0 && Sorted(h) && Rising(r) && |r.past| == |h.past|
    requires forall i :: 0 <= i < |h.past| ==> r.past[i].validTo >= 1
    ensures ReadsKept(es, h, r) <==> forall i :: 0 <= i < |h.past| ==> r.past[i].validTo == ListedBy(es, h, i) + 1
  {
    if ReadsKept(es, h, r) {
      forall i | 0 <= i < |h.past|
        ensures r.past[i].validTo == ListedBy(es, h, i) + 1
      {
        KeptEnd(es, h, r, i);
      }
    }
    if forall i :: 0 <= i < |h.past| ==> r.past[i].validTo == ListedBy(es, h, i) + 1 {
      forall k | 0 <= k < |es|
        ensures ReadIndex(r, k + 1) == ReadIndex(h, es[k].epoch)
      {
        SameCover(es, h, r, k);
      }
      ReadIndexCovers(r, |es| + 1, |h.past|);
    }
  }

  lemma KeptEnd<T>(es: seq<Entry>, h: History<T>, r: History<T>, i: nat)
    requires Numberable(es) && |es| > 0 && Sorted(h) && Rising(r) && |r.past| == |h.past| && ReadsKept(es, h, r)
    requires i < |h.past| && r.past[i].validTo >= 1
    ensures r.past[i].validTo == ListedBy(es, h, i) + 1
  {
    var c := ListedBy(es, h, i);
    if c > 0 {
      SeesLater(h, es[c - 1].epoch, i);
      SeesLater(r, c, i);
    }
    SeesLater(r, c + 1, i);
    if c < |es| {
      SeesLater(h, es[c].epoch, i);
    }
  }

  /** A reader sees a version after `i` exactly when it is at or past the end of `i`. */
  lemma SeesLater<T>(h: History<T>, e: nat, i: nat)
    requires Rising(h) && i < |h.past|
    ensures ReadIndex(h, e) > i <==> e >= h.past[i].validTo
  {
    var k := ReadIndex(h, e);
    ReadIndexCovers(h, e, k);
  }

  /** Two readers of histories of the same shape see the same version when they have passed the same ends. */
  lemma SameReads<T>(h: History<T>, e: nat, r: History<T>, e': nat)
    requires Rising(h) && Rising(r) && |r.past| == |h.past|
    requires forall i :: 0 <= i < |h.past| ==> (e' >= r.past[i].validTo <==> e >= h.past[i].validTo)
    ensures ReadIndex(r, e') == ReadIndex(h, e)
  {
    var i := ReadIndex(h, e);
    ReadIndexCovers(h, e, i);
    ReadIndexCovers(r, e', i);
  }

  lemma SameCover<T>(es: seq<Entry>, h: History<T>, r: History<T>, k: nat)
    requires Numberable(es) && Rising(h) && Rising(r) && |r.past| == |h.past| && k < |es|
    requires forall i :: 0 <= i < |h.past| ==> r.past[i].validTo == ListedBy(es, h, i) + 1
    ensures ReadIndex(r, k + 1) == ReadIndex(h, es[k].epoch)
  {
    forall i | 0 <= i < |h.past|
      ensures k + 1 >= r.past[i].validTo <==> es[k].epoch >= h.past[i].validTo
    {
      RankIs(es, h.past[i].validTo, k);
    }
    SameReads(h, es[k].epoch, r, k + 1);
  }

  lemma EndRight<T>(es: seq<Entry>, h: History<T>, i: nat)
    requires Numberable(es) && Sorted(h) && AllSeen(es, h) && i + 1 < |h.past|
    ensures NewEnd(es, h, i) == ListedBy(es, h, i) + 1 <==>
              Skipped(es, ListedBy(es, h, i + 1) - 1) || SeenBy(es, h, i + 1) == 1
  {
    var c, d := ListedBy(es, h, i), ListedBy(es, h, i + 1);
    if Skipped(es, d - 1) {
      NumberBelow(es, d - 1);
      EndsOrdered(es, h, i);
      assert es[c].epoch == c + 1;
    }
  }

  /** Every version's end is renamed to one past the number of the entry that lists it. */
  ghost predicate EndsRight<T>(es: seq<Entry>, h: History<T>) {
    forall i {:trigger NewEnd(es, h, i)} :: 0 <= i < |h.past| ==> NewEnd(es, h, i) == ListedBy(es, h, i) + 1
  }

  lemma EndsRightAt<T>(es: seq<Entry>, h: History<T>, i: nat)
    requires EndsRight(es, h) && i < |h.past|
    ensures NewEnd(es, h, i) == ListedBy(es, h, i) + 1
  {
  }

  lemma EndsRightOnly<T>(es: seq<Entry>, h: History<T>)
    requires Numberable(es) && Sorted(h) && AllSeen(es, h) && EndsRight(es, h)
    ensures Renumberable(es, h)
  {
    forall j | 1 <= j < |h.past|
      ensures Skipped(es, ListedBy(es, h, j) - 1) || SeenBy(es, h, j) == 1
    {
      EndsRightAt(es, h, j - 1);
      EndRight(es, h, j - 1);
    }
    LastRight(es, h);
  }

  lemma EndsRightIf<T>(es: seq<Entry>, h: History<T>)
    requires Numberable(es) && Sorted(h) && AllSeen(es, h) && Renumberable(es, h)
    ensures EndsRight(es, h)
  {
    LastRight(es, h);
    forall i | 0 <= i < |h.past|
      ensures NewEnd(es, h, i) == ListedBy(es, h, i) + 1
    {
      if i + 1 < |h.past| {
        var j := i + 1;
        assert Skipped(es, ListedBy(es, h, j) - 1) || SeenBy(es, h, j) == 1;
        EndRight(es, h, i);
      }
    }
  }

  /** Renumbering keeps every read of an object if and only if the object is renumberable. */
  lemma RenumberKeepsReads<T>(es: seq<Entry>, h: History<T>)
    requires Numberable(es) && |es| > 0 && Sorted(h) && AllSeen(es, h)
    ensures ReadsKept(es, h, Renumber(es, h)) <==> Renumberable(es, h)
  {
    RenumberSorted(es, h);
    ReadsKeptEnds(es, h, Renumber(es, h));
    if Renumberable(es, h) {
      EndsRightIf(es, h);
    } else if EndsRight(es, h) {
      EndsRightOnly(es, h);
    }
  }

  /** The newest version ends up right exactly when it starts at a registered epoch, or already stands right. */
  lemma LastRight<T>(es: seq<Entry>, h: History<T>)
    requires Numberable(es) && Sorted(h) && AllSeen(es, h)
    ensures |h.past| > 0 ==>
              var last := |h.past| - 1;
              (NewEnd(es, h, last) == ListedBy(es, h, last) + 1 <==>
                 if Skipped(es, ListedBy(es, h, last) - 1) then h.past[last].validTo == ListedBy(es, h, last) + 1
                 else Registered(es, h.past[last].validTo))
  {
    if |h.past| > 0 {
      var last := |h.past| - 1;
      var c := ListedBy(es, h, last);
      NumberBelow(es, c - 1);
      assert !Skipped(es, c - 1) ==> h.past[last].validTo > c + 1;
    }
  }
}
