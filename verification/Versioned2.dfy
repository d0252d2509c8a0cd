/** The lock-free versioned object: all versions in one block, which is never changed once it is
    published.  Every update fills a new block and swaps it in. */
module LockFreeObject {
  import opened Histories
  import opened VersionedObject

  /** The history that a block's elements stand for; the last element's `validTo` means nothing. */
  function Read<T>(es: seq<Past<T>>): History<T>
    requires |es| > 0
  {
    History(es[..|es| - 1], es[|es| - 1].value)
  }

  /** The elements without number `f`; the element before it takes over its `validTo`. */
  function Without<T>(es: seq<Past<T>>, f: nat): (r: seq<Past<T>>)
    requires f < |es|
    ensures |r| == |es| - 1
  {
    if f == 0 then es[1..] else es[..f - 1] + [Past(es[f].validTo, es[f - 1].value)] + es[f + 1..]
  }

  /** Dropping an element removes that version, and dropping the last one uncovers the version before. */
  lemma ReadWithout<T>(es: seq<Past<T>>, f: nat)
    requires |es| > 1 && f < |es|
    ensures Read(Without(es, f)) == if f + 1 < |es| then RemoveAt(Read(es), f) else Pop(Read(es))
  {
  }

  /** A commit ends the newest version and adds the new one, whose own end means nothing. */
  lemma ReadPushed<T>(es: seq<Past<T>>, newEpoch: nat, val: T)
    requires |es| > 0
    ensures Read(es[|es| - 1 := Past(newEpoch, es[|es| - 1].value)] + [Past(1, val)]) == Push(Read(es), newEpoch, val)
  {
  }

  /** What the copying loop has put in the new block when it has seen `n` elements: `f` is the one left out. */
  function Copied<T>(es: seq<Past<T>>, n: nat, f: nat): seq<Past<T>>
    requires n <= |es|
  {
    if f < n then Without(es[..n], f) else es[..n]
  }

  lemma CopiedGrows<T>(es: seq<Past<T>>, n: nat, f: nat)
    requires n < |es| && n != f
    ensures Copied(es, n + 1, f) == Copied(es, n, f) + [es[n]]
  {
    assert es[..n + 1] == es[..n] + [es[n]];
    if f < n {
      assert Without(es[..n + 1], f) == Without(es[..n], f) + [es[n]];
    }
  }

  lemma CopiedSkips<T>(es: seq<Past<T>>, n: nat)
    requires n < |es|
    ensures Copied(es, n + 1, n) == if n == 0 then [] else es[..n][n - 1 := Past(es[n].validTo, es[n - 1].value)]
  {
  }

  /** The lock-free object's cleanup also accepts a request that names its newest version. */
  function CleanupAny<T>(h: History<T>, vf: nat): Option<History<T>> {
    if |h.past| == 0 then None
    else if Histories.Cleanup(h, vf).Some? then Histories.Cleanup(h, vf)
    else if vf == NewestFrom(h) then Some(Pop(h))
    else None
  }

  /** The two kinds of object clean up alike unless the request names the newest version of several. */
  lemma CleanupsAgree<T>(h: History<T>, vf: nat)
    requires Sorted(h)
    ensures CleanupAny(h, vf) == Histories.Cleanup(h, vf) <==> !(|h.past| > 0 && vf == NewestFrom(h))
  {
  }

  class Data<T(0)> {
    const capacity: nat
    var first: nat
    var last: nat
    const history: array<Past<T>>

    ghost predicate Valid()
      reads this
    {
      first <= last <= capacity && history.Length == capacity + 1
    }

    ghost function Elements(): seq<Past<T>>
      requires Valid()
      reads this, history
    {
      history[first..last]
    }

    constructor (capacity: nat)
      ensures Valid() && this.capacity == capacity && Elements() == [] && first == 0
      ensures fresh(history)
    {
      this.capacity := capacity;
      first, last := 0, 0;
      history := new Past<T>[capacity + 1];
    }

    /** A block with room for `capacity` elements, holding those of `source`. */
    constructor CopyOf(source: Data<T>, capacity: nat)
      requires source.Valid() && |source.Elements()| <= capacity
      ensures Valid() && this.capacity == capacity && Elements() == source.Elements() && first == 0
      ensures fresh(history)
    {
      this.capacity := capacity;
      first, last := 0, 0;
      history := new Past<T>[capacity + 1];
      new;
      var i := 0;
      while i < source.last - source.first
        invariant 0 <= i <= |source.Elements()| && Valid() && first == 0 && last == i
        invariant Elements() == source.Elements()[..i]
        invariant fresh(this) && fresh(history) && source.Valid()
      {
        assert source.Elements()[..i + 1] == source.Elements()[..i] + [source.Elements()[i]];
        var ok := PushBack(source.history[source.first + i]);
        i := i + 1;
      }
    }

    function Size(): nat
      requires Valid()
      reads this
    {
      last - first
    }

    /** `ok` is false where the source throws for lack of room. */
    method PushBack(entry: Past<T>) returns (ok: bool)
      requires Valid()
      modifies this`last, history
      ensures Valid() && first == old(first)
      ensures ok <==> old(last) < capacity
      ensures Elements() == if ok then old(Elements()) + [entry] else old(Elements())
      ensures last == old(last) + if ok then 1 else 0
    {
      ok := last < capacity;
      if ok {
        history[last] := entry;
        last := last + 1;
      }
    }

    /** Gives the last element a new end. */
    method EndBack(validTo: nat)
      requires Valid() && |Elements()| > 0
      modifies history
      ensures Valid()
      ensures Elements() == old(Elements())[|Elements()| - 1 := Past(validTo, old(Elements())[|Elements()| - 1].value)]
    {
      history[last - 1] := Past(validTo, history[last - 1].value);
    }

    /** One round of the copying loop: an element that is left out gives its end to the one before it. */
    method Take(entry: Past<T>, skip: bool, ghost es: seq<Past<T>>, ghost n: nat, ghost f: nat)
      requires Valid() && last < capacity && n < |es| && entry == es[n]
      requires Elements() == Copied(es, n, f) && n != f && (skip ==> n < f)
      modifies this`last, history
      ensures Valid() && first == old(first)
      ensures Elements() == Copied(es, n + 1, if skip then n else f)
    {
      if !skip {
        CopiedGrows(es, n, f);
        var pushed := PushBack(entry);
      } else {
        CopiedSkips(es, n);
        if last != first {
          EndBack(entry.validTo);
        }
      }
    }

    /** `ok` is false where the source refuses to pop the last element. */
    method PopBack() returns (ok: bool)
      requires Valid()
      modifies this`last
      ensures Valid()
      ensures ok <==> |old(Elements())| >= 2
      ensures Elements() == if ok then old(Elements())[..|old(Elements())| - 1] else old(Elements())
    {
      ok := last - first >= 2;
      if ok {
        last := last - 1;
      }
    }

    method ValueAtEpoch(epoch: nat) returns (v: T)
      requires Valid() && |Elements()| > 0
      ensures v == ValueAt(Read(Elements()), epoch)
    {
      ghost var h := Read(Elements());
      var i := last - 1;
      while i > first
        invariant first <= i < last
        invariant ReadIndex(h, epoch) == Scan(h, i - first, epoch)
      {
        var validFrom := history[i - 1].validTo;
        assert validFrom == h.past[i - first - 1].validTo;
        if epoch >= validFrom {
          return history[i].value;
        }
        i := i - 1;
      }
      v := history[first].value;
    }
  }

  class Versioned2<T(0)> {
    var data: Data<T>
    var doomed: seq<Data<T>>    // the blocks handed over to be freed later
    var freed: seq<Data<T>>     // the blocks freed at once

    ghost predicate Valid()
      reads this, data
    {
      data.Valid() && data.first < data.last
    }

    /** The versions this object holds. */
    ghost function Hist(): History<T>
      requires Valid()
      reads this, data, data.history
    {
      Read(data.Elements())
    }

    constructor (val: T)
      ensures Valid() && Hist() == History([], val)
      ensures fresh(data) && fresh(data.history) && doomed == [] && freed == []
    {
      var d := new Data<T>(1);
      var ok := d.PushBack(Past(1, val));
      data, doomed, freed := d, [], [];
    }

    /** Publishes a new block if the old one is still in place, and hands over the old one; otherwise frees the new
        block at once and reports the one found instead. */
    method SetData(oldData: Data<T>, newData: Data<T>) returns (ok: bool, found: Data<T>)
      modifies this
      ensures (ok <==> old(data) == oldData) && found == old(data)
      ensures data == if ok then newData else old(data)
      ensures doomed == if ok then old(doomed) + [oldData] else old(doomed)
      ensures freed == if ok then old(freed) else old(freed) + [newData]
    {
      ok, found := data == oldData, data;
      if !ok {
        freed := freed + [newData];
      } else {
        data := newData;
        doomed := doomed + [oldData];
      }
    }

    method ReadAtEpoch(epoch: nat) returns (v: T)
      requires Valid()
      ensures v == ValueAt(Hist(), epoch)
    {
      v := data.ValueAtEpoch(epoch);
    }

    /** Only `this` is modified: the block that was in place is left as it was. */
    method Setup(oldEpoch: nat, newEpoch: nat, currentEpoch: nat, val: T) returns (r: SetupResult)
      requires Valid()
      modifies this
      ensures Valid()
      ensures r == if newEpoch != currentEpoch + 1 then OutOfOrder
                   else if NewestFrom(old(Hist())) > oldEpoch then Refused
                   else Accepted
      ensures Hist() == if r.Accepted? then Push(old(Hist()), newEpoch, val) else old(Hist())
      ensures if r.Accepted? then fresh(data) && fresh(data.history) else data == old(data)
      ensures doomed == (if r.Accepted? then old(doomed) + [old(data)] else old(doomed)) && freed == old(freed)
    {
      var d := data;
      if newEpoch != currentEpoch + 1 {
        return OutOfOrder;
      }
      var validFrom := if d.Size() > 1 then d.history[d.first + d.Size() - 2].validTo else 1;
      if validFrom > oldEpoch {
        return Refused;
      }
      var newData := CopyPushed(d, newEpoch, val);
      ReadPushed(d.Elements(), newEpoch, val);
      var set_, found := SetData(d, newData);
      r := Accepted;
    }

    /** A copy of the block with its last element ended and a new one behind it. */
    method CopyPushed(d: Data<T>, newEpoch: nat, val: T) returns (newData: Data<T>)
      requires d.Valid() && |d.Elements()| > 0
      ensures fresh(newData) && fresh(newData.history) && newData.Valid()
      ensures newData.Elements() ==
              d.Elements()[|d.Elements()| - 1 := Past(newEpoch, d.Elements()[|d.Elements()| - 1].value)]
                                    + [Past(1, val)]
    {
      newData := new Data<T>.CopyOf(d, d.Size() + 1);
      newData.EndBack(newEpoch);
      var pushed := newData.PushBack(Past(1, val));
    }

    /** The start of the version that the commit just made obsolete. */
    method Commit() returns (validFrom: nat)
      requires Valid() && |Hist().past| > 0
      ensures validFrom == ValidFrom(Hist(), |Hist().past| - 1)
    {
      validFrom := if data.Size() > 2 then data.history[data.first + data.Size() - 3].validTo else 1;
    }

    method Rollback()
      requires Valid() && |Hist().past| > 0
      modifies this
      ensures Valid() && Hist() == Pop(old(Hist()))
      ensures fresh(data) && fresh(data.history) && doomed == old(doomed) + [old(data)] && freed == old(freed)
    {
      var d := data;
      var d2 := new Data<T>.CopyOf(d, d.Size());
      var popped := d2.PopBack();
      assert d2.Elements()[..d.Size() - 2] == d.Elements()[..d.Size() - 2];
      var set_, found := SetData(d, d2);
    }

    /** Fills a new block with all versions but the one that the request names; `ok` is false where the source
        throws. */
    method Cleanup(unusedValidFrom: nat) returns (ok: bool)
      requires Valid() && Sorted(Hist())
      modifies this
      ensures Valid()
      ensures ok <==> CleanupAny(old(Hist()), unusedValidFrom).Some?
      ensures Hist() == if ok then CleanupAny(old(Hist()), unusedValidFrom).value else old(Hist())
      ensures if ok then fresh(data) && fresh(data.history) else data == old(data)
      ensures doomed == (if ok then old(doomed) + [old(data)] else old(doomed)) && freed == old(freed)
    {
      var d := data;
      if d.Size() < 2 {
        return false;
      }
      var data2, f := CopyWithout(d, unusedValidFrom);
      if f == d.Size() {
        NamesNone(d.Elements(), unusedValidFrom);
        return false;
      }
      ReadWithout(d.Elements(), f);
      NamesCleanup(d.Elements(), f, unusedValidFrom);
      var found;
      ok, found := SetData(d, data2);
    }

    /** The copying loop: `f` is the number of the element left out, or the number of elements when none matched. */
    method CopyWithout(d: Data<T>, vf: nat) returns (data2: Data<T>, f: nat)
      requires d.Valid() && |d.Elements()| >= 2 && Sorted(Read(d.Elements()))
      ensures fresh(data2) && fresh(data2.history) && data2.Valid()
      ensures f <= |d.Elements()|
      ensures f < |d.Elements()| ==> data2.Elements() == Without(d.Elements(), f) && Names(d.Elements(), f, vf)
      ensures f == |d.Elements()| ==> forall k :: 0 <= k < f ==> !Names(d.Elements(), k, vf)
    {
      ghost var es := d.Elements();
      ghost var n := 0;
      data2 := new Data<T>(d.Size());
      var validFrom := 1;
      f := d.Size();
      var i := d.first;
      while i != d.last
        invariant d.first <= i <= d.last && n == i - d.first && data2.Valid() && data2.first == 0
        invariant n < |es| ==> validFrom == StartOf(es, n)
        invariant data2.Elements() == Copied(es, n, f)
        invariant if f < n then Names(es, f, vf) else f == |es| && forall k :: 0 <= k < n ==> !Names(es, k, vf)
        decreases d.last - i
        modifies data2`last, data2.history
      {
        var entry := d.history[i];
        assert entry == es[n];
        var skip := validFrom == vf || (i == d.first && vf < entry.validTo);
        assert skip <==> Names(es, n, vf);
        if f < n {
          NamesOne(es, f, n, vf);
        }
        data2.Take(entry, skip, es, n, f);
        if skip {
          f := i - d.first;
        }
        validFrom := entry.validTo;
        i, n := i + 1, n + 1;
      }
      assert es[..|es|] == es;
    }
  }

  /** Where the copying loop takes element `k` to start. */
  function StartOf<T>(es: seq<Past<T>>, k: nat): nat
    requires k <= |es|
  {
    if k == 0 then 1 else es[k - 1].validTo
  }

  /** The test of the copying loop for element `k`. */
  predicate Names<T>(es: seq<Past<T>>, k: nat, vf: nat)
    requires k < |es|
  {
    StartOf(es, k) == vf || (k == 0 && vf < es[0].validTo)
  }

  /** No two elements pass the test, so the source's check for that never fires. */
  lemma NamesOne<T>(es: seq<Past<T>>, f: nat, k: nat, vf: nat)
    requires |es| > 1 && Sorted(Read(es)) && f < k < |es| && Names(es, f, vf)
    ensures !Names(es, k, vf)
  {
  }

  lemma NamesCleanup<T>(es: seq<Past<T>>, f: nat, vf: nat)
    requires |es| > 1 && Sorted(Read(es)) && f < |es| && Names(es, f, vf)
    ensures CleanupAny(Read(es), vf) == Some(if f + 1 < |es| then RemoveAt(Read(es), f) else Pop(Read(es)))
  {
  }

  lemma NamesNone<T>(es: seq<Past<T>>, vf: nat)
    requires |es| > 1 && Sorted(Read(es)) && forall k :: 0 <= k < |es| ==> !Names(es, k, vf)
    ensures CleanupAny(Read(es), vf) == None
  {
    var h := Read(es);
    assert !Names(es, |h.past|, vf) && !Names(es, 0, vf);
    if Find(h, vf).Some? {
      var k := Find(h, vf).value;
      assert !Names(es, k, vf);
      FindDenotes(h, vf, k);
    }
  }
}
