/** All the versioned objects of a store, each updated in place. */
module ObjectTable {
  import opened Histories
  import opened VersionedObject

  class ObjectTable {
    const objs: seq<Versioned<int>>

    ghost predicate Valid()
      reads this
    {
      forall i, j :: 0 <= i < j < |objs| ==> objs[i] != objs[j]
    }

    ghost function Hists(): (r: seq<History<int>>)
      reads this, objs
      ensures |r| == |objs|
    {
      seq(|objs|, x requires 0 <= x < |objs| reads this, objs => objs[x].Hist())
    }

    constructor (values: seq<int>)
      ensures Valid() && Hists() == seq(|values|, x requires 0 <= x < |values| => History([], values[x]))
      ensures fresh(objs)
    {
      var made: seq<Versioned<int>> := [];
      while |made| < |values|
        invariant |made| <= |values|
        invariant forall i, j :: 0 <= i < j < |made| ==> made[i] != made[j]
        invariant forall i :: 0 <= i < |made| ==> fresh(made[i]) && made[i].Hist() == History([], values[i])
      {
        var obj := new Versioned(values[|made|]);
        made := made + [obj];
      }
      objs := made;
    }

    method ValueAtEpoch(x: nat, epoch: nat) returns (v: int)
      requires x < |objs| && epoch >= 1
      ensures v == ValueAt(Hists()[x], epoch)
    {
      v := objs[x].ValueAtEpoch(epoch);
    }

    method Setup(x: nat, oldEpoch: nat, newEpoch: nat, currentEpoch: nat, val: int) returns (r: SetupResult)
      requires Valid() && x < |objs|
      modifies objs
      ensures r == if newEpoch != currentEpoch + 1 then OutOfOrder
                   else if NewestFrom(old(Hists())[x]) > oldEpoch then Refused
                   else Accepted
      ensures Hists() == if r.Accepted? then old(Hists())[x := Push(old(Hists())[x], newEpoch, val)] else old(Hists())
    {
      r := objs[x].Setup(oldEpoch, newEpoch, currentEpoch, val);
    }

    /** The start of the version that the commit made obsolete. */
    method Commit(x: nat) returns (validFrom: nat)
      requires x < |objs| && |Hists()[x].past| > 0
      ensures validFrom == ValidFrom(Hists()[x], |Hists()[x].past| - 1)
    {
      validFrom := objs[x].Commit();
    }

    method Rollback(x: nat)
      requires Valid() && x < |objs| && |Hists()[x].past| > 0
      modifies objs
      ensures Hists() == old(Hists())[x := Pop(old(Hists())[x])]
    {
      objs[x].Rollback();
    }

    method Cleanup(x: nat, unusedValidFrom: nat) returns (ok: bool)
      requires Valid() && x < |objs| && Sorted(Hists()[x])
      modifies objs
      ensures ok <==> Histories.Cleanup(old(Hists())[x], unusedValidFrom).Some?
      ensures Hists() ==
              if ok then old(Hists())[x := Histories.Cleanup(old(Hists())[x], unusedValidFrom).value] else old(Hists())
    {
      ok := objs[x].Cleanup(unusedValidFrom);
    }

    method RenameEpoch(x: nat, oldValidFrom: nat, newValidFrom: nat) returns (ok: bool, next: nat)
      requires Valid() && x < |objs|
      modifies objs
      ensures ok <==> Rename(old(Hists())[x], oldValidFrom, newValidFrom).Renamed?
      ensures ok ==> Renamed(Hists()[x], next) == Rename(old(Hists())[x], oldValidFrom, newValidFrom)
      ensures Hists() == old(Hists())[x := Hists()[x]]
      ensures !ok ==> Hists() == old(Hists())
    {
      ok, next := objs[x].RenameEpoch(oldValidFrom, newValidFrom);
    }
  }
}
