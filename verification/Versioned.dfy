/** The lock-based versioned object: a list of older values and the current one. */
module VersionedObject {
  import opened Histories

  datatype SetupResult = Accepted | Refused | OutOfOrder

  class Versioned<T> {
    var history: seq<Past<T>>
    var current: T

    /** The versions this object holds. */
    ghost function Hist(): History<T>
      reads this
    {
      History(history, current)
    }

    constructor (val: T)
      ensures Hist() == History([], val)
    {
      history := [];
      current := val;
    }

    method ValidFromNewest() returns (e: nat)
      ensures e == NewestFrom(Hist())
    {
      e := if |history| == 0 then 1 else history[|history| - 1].validTo;
    }

    method ValueAtEpoch(epoch: nat) returns (v: T)
      requires epoch >= 1 || |history| > 0
      ensures v == ValueAt(Hist(), epoch)
    {
      var newest := ValidFromNewest();
      if epoch >= newest {
        return current;
      }
      var i := |history| - 1;
      while i > 0
        invariant 0 <= i < |history|
        invariant ReadIndex(Hist(), epoch) == Scan(Hist(), i, epoch)
      {
        if epoch >= history[i - 1].validTo {
          return history[i].value;
        }
        i := i - 1;
      }
      v := history[0].value;
    }

    /** Checks that nothing newer than the reader's epoch was committed, and puts the new value on top. */
    method Setup(oldEpoch: nat, newEpoch: nat, currentEpoch: nat, val: T) returns (r: SetupResult)
      modifies this
      ensures r == if newEpoch != currentEpoch + 1 then OutOfOrder
                   else if NewestFrom(old(Hist())) > oldEpoch then Refused
                   else Accepted
      ensures Hist() == if r.Accepted? then Push(old(Hist()), newEpoch, val) else old(Hist())
    {
      if newEpoch != currentEpoch + 1 {
        return OutOfOrder;
      }
      var newest := ValidFromNewest();
      if newest > oldEpoch {
        return Refused;
      }
      history := history + [Past(newEpoch, current)];
      current := val;
      r := Accepted;
    }

    /** The start of the version that the commit just made obsolete. */
    method Commit() returns (validFrom: nat)
      requires |history| > 0
      ensures validFrom == ValidFrom(Hist(), |history| - 1)
    {
      validFrom := if |history| > 1 then history[|history| - 2].validTo else 1;
    }

    method Rollback()
      requires |history| > 0
      modifies this
      ensures Hist() == Pop(old(Hist()))
    {
      current := history[|history| - 1].value;
      history := history[..|history| - 1];
    }

    /** Removes the version that the request denotes; `ok` is false where the source throws. */
    method Cleanup(unusedValidFrom: nat) returns (ok: bool)
      requires Sorted(Hist())
      modifies this
      ensures ok <==> Histories.Cleanup(old(Hist()), unusedValidFrom).Some?
      ensures Hist() == if ok then Histories.Cleanup(old(Hist()), unusedValidFrom).value else old(Hist())
    {
      if |history| == 0 {
        return false;
      }
      if unusedValidFrom < history[0].validTo {
        history := history[1..];
        return true;
      }
      ghost var h := Hist();
      var validFrom := 1;
      var k := 0;
      while k < |history|
        invariant 0 <= k <= |history| && Hist() == h
        invariant validFrom == ValidFrom(h, k)
        invariant forall j :: 0 <= j < k ==> ValidFrom(h, j) != unusedValidFrom
      {
        if validFrom == unusedValidFrom {
          FindDenotes(h, unusedValidFrom, k);
          if validFrom != 1 {
            history := history[k - 1 := history[k - 1].(validTo := history[k].validTo)];
          }
          history := history[..k] + history[k + 1..];
          return true;
        }
        validFrom := history[k].validTo;
        k := k + 1;
      }
      FindNothing(h, unusedValidFrom);
      ok := false;
    }

    /** Moves the start of a version; `ok` is false where the source throws. */
    method RenameEpoch(oldValidFrom: nat, newValidFrom: nat) returns (ok: bool, next: nat)
      modifies this
      ensures ok <==> Rename(old(Hist()), oldValidFrom, newValidFrom).Renamed?
      ensures ok ==> Renamed(Hist(), next) == Rename(old(Hist()), oldValidFrom, newValidFrom)
      ensures !ok ==> Hist() == old(Hist())
    {
      if |history| == 0 {
        return false, 0;
      }
      if oldValidFrom < history[0].validTo {
        return true, if |history| == 1 then history[0].validTo else 0;
      }
      ghost var h := Hist();
      var i := 0;
      while i < |history|
        invariant 0 <= i <= |history| && Hist() == h
        invariant forall j :: 0 <= j < i ==> h.past[j].validTo != oldValidFrom
      {
        if history[i].validTo == oldValidFrom {
          FindValidToFirst(h, 0, i, oldValidFrom);
          if i != 0 && history[i - 1].validTo >= newValidFrom {
            return false, 0;
          }
          if i != |history| - 1 && history[i + 1].validTo <= newValidFrom {
            return false, 0;
          }
          history := history[i := history[i].(validTo := newValidFrom)];
          return true, if i + 2 == |history| then history[i + 1].validTo else 0;
        }
        i := i + 1;
      }
      ok, next := false, 0;
    }

    /** The object's own check of its epochs passes exactly when they increase strictly and none is past
        the epoch of a commit being set up. */
    method Validate(currentEpoch: nat) returns (ok: bool)
      ensures ok <==> (forall i :: 0 <= i < |history| ==> 0 < history[i].validTo <= currentEpoch + 1)
                      && (forall i, j :: 0 <= i < j < |history| ==> history[i].validTo < history[j].validTo)
    {
      var e := 0;
      var i := 0;
      while i < |history|
        invariant 0 <= i <= |history|
        invariant e == if i == 0 then 0 else history[i - 1].validTo
        invariant forall j :: 0 <= j < i ==> 0 < history[j].validTo <= e && history[j].validTo <= currentEpoch + 1
        invariant forall j, k :: 0 <= j < k < i ==> history[j].validTo < history[k].validTo
      {
        var e2 := history[i].validTo;
        if e2 > currentEpoch + 1 {
          return false;
        }
        if e2 <= e {
          assert i == 0 || history[i - 1].validTo >= history[i].validTo;
          return false;
        }
        e := e2;
        i := i + 1;
      }
      ok := true;
    }
  }
}
