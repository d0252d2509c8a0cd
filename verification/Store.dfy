/** The store as the code runs it: the table of snapshots, the epochs and the objects, updated in place.
    `model` is the state of the machine that the fields stand for. */
module Store {
  import opened Histories
  import opened Snapshots
  import opened Mvcc
  import opened MvccSteps
  import opened MvccRuns
  import opened CommitStages
  import opened Latest
  import opened Compress
  import opened CompressLoop
  import opened CompressStages
  import opened CompressStore
  import opened CompressTable
  import Objects = ObjectTable

  // ---------------------------------------------------------------------------------------------
  // Loops over entries and cleanup lists
  // ---------------------------------------------------------------------------------------------

  method FindEntry(es: seq<Entry>, e: Epoch) returns (k: nat)
    ensures k == IndexOf(es, e)
  {
    k := 0;
    while k < |es| && es[k].epoch != e
      invariant k <= |es|
      invariant IndexOf(es, e) == k + IndexOf(es[k..], e)
    {
      k := k + 1;
    }
  }

  method HasEntry(es: seq<Entry>, e: Epoch) returns (has: bool)
    ensures has <==> exists k :: 0 <= k < |es| && es[k].epoch == e
  {
    var k := FindEntry(es, e);
    has := k < |es|;
  }

  /** Goes through a cleanup list once, handing what epoch `prev` still needs to the previous list and moving
      the rest to the front. */
  method Distribute(cleanups: seq<Token>, prev: Epoch, prevCleanups: seq<Token>)
    returns (kept: seq<Token>, toCleanUp: seq<Token>)
    ensures kept == prevCleanups + Needed(cleanups, prev)
    ensures toCleanUp == Unneeded(cleanups, prev)
  {
    kept, toCleanUp := prevCleanups, cleanups;
    var num, i := 0, 0;
    while i < |toCleanUp|
      invariant 0 <= num <= i <= |toCleanUp| == |cleanups|
      invariant kept == prevCleanups + Needed(cleanups[..i], prev)
      invariant toCleanUp[..num] == Unneeded(cleanups[..i], prev)
      invariant toCleanUp[i..] == cleanups[i..]
    {
      assert cleanups[..i + 1][..i] == cleanups[..i];
      assert toCleanUp[i] == toCleanUp[i..][0] == cleanups[i..][0];
      assert toCleanUp[i + 1..] == toCleanUp[i..][1..] == cleanups[i + 1..];
      if prev >= toCleanUp[i].validFrom {
        kept := kept + [toCleanUp[i]];
      } else {
        ghost var was := toCleanUp;
        toCleanUp := toCleanUp[num := toCleanUp[i]];
        assert toCleanUp[..num + 1] == was[..num] + [was[i]];
        assert toCleanUp[i + 1..] == was[i + 1..];
        num := num + 1;
      }
      i := i + 1;
    }
    assert cleanups[..i] == cleanups;
    toCleanUp := toCleanUp[..num];
  }

  // ---------------------------------------------------------------------------------------------
  // What whole operations do
  // ---------------------------------------------------------------------------------------------

  /** The local values of snapshot `n` once it has one for `x`. */
  function WithLocal(boxes: map<Snap, Box>, n: Snap, x: Obj, initial: int): map<Snap, Box>
    requires n in boxes
  {
    var box: Box := boxes[n];
    if x in box then boxes else boxes[n := box[x := Local(initial, initial, true)]]
  }

  lemma CleanRemoves(s: State, t: Token)
    requires Inv(s) && t in s.inflight
    ensures t.obj < |s.hist| && Inv(ApplyClean(s, t))
    ensures ApplyClean(s, t).inflight == s.inflight - multiset{t}
    ensures Histories.Cleanup(s.hist[t.obj], t.validFrom).Some?
    ensures ApplyClean(s, t).hist == s.hist[t.obj := Histories.Cleanup(s.hist[t.obj], t.validFrom).value]
  {
    var i := CleanDenotes(s, t);
    CleanKeeps(s, t);
  }

  /** Carries out cleanups one after the other. */
  ghost function CleanAll(s: State, ts: seq<Token>): (r: State)
    requires Inv(s) && multiset(ts) <= s.inflight
    ensures Inv(r) && r.inflight == s.inflight - multiset(ts)
    decreases |ts|
  {
    if |ts| == 0 then s
    else
      var n := |ts| - 1;
      assert ts == ts[..n] + [ts[n]];
      var p := CleanAll(s, ts[..n]);
      assert ts[n] in p.inflight;
      CleanRemoves(p, ts[n]);
      ApplyClean(p, ts[n])
  }

  /** Cleaning up touches histories only. */
  lemma {:induction false} CleanAllTouches(s: State, ts: seq<Token>)
    requires Inv(s) && multiset(ts) <= s.inflight
    ensures var r := CleanAll(s, ts);
            |r.hist| == |s.hist| && r.info == s.info && r.epochOf == s.epochOf && r.boxes == s.boxes
            && r.phase == s.phase && r.ideal == s.ideal
    decreases |ts|
  {
    if |ts| > 0 {
      assert ts == ts[..|ts| - 1] + [ts[|ts| - 1]];
      CleanAllTouches(s, ts[..|ts| - 1]);
    }
  }

  // ---------------------------------------------------------------------------------------------
  // The store
  // ---------------------------------------------------------------------------------------------

  class Store {
    const table: Objects.ObjectTable
    var currentEpoch: Epoch
    var earliestEpoch: Epoch
    var entries: seq<Entry>            // in the order of their epochs
    var epochOf: map<Snap, Epoch>      // each snapshot's own epoch
    var boxes: map<Snap, Box>          // each snapshot's local values
    ghost var model: State

    /** The fields are those of the machine's state `s`. */
    ghost predicate Shows(s: State)
      reads this`currentEpoch, this`earliestEpoch, this`entries, this`epochOf, this`boxes, table, table.objs
    {
      && s.info == Info(currentEpoch, earliestEpoch, entries)
      && s.hist == table.Hists()
      && s.epochOf == epochOf
      && s.boxes == boxes
    }

    ghost predicate Valid()
      reads this, table, table.objs
    {
      && table.Valid()
      && Shows(model)
      && model.phase.Idle?
      && model.inflight == multiset{}
      && Inv(model)
    }

    constructor (values: seq<int>, epoch: Epoch)
      requires epoch >= 1
      ensures Valid() && model == Init(values, epoch)
      ensures fresh(table) && fresh(table.objs)
      ensures currentEpoch == earliestEpoch == epoch && entries == [] && epochOf == map[] && boxes == map[]
      ensures |table.Hists()| == |values|
      ensures forall x :: 0 <= x < |values| ==> table.Hists()[x] == History([], values[x])
    {
      table := new Objects.ObjectTable(values);
      currentEpoch, earliestEpoch, entries, epochOf, boxes := epoch, epoch, [], map[], map[];
      model := Init(values, epoch);
      new;
      InitHolds(values, epoch);
    }

    /** A snapshot is registered at the current epoch, in the last entry, which is made for it if there is none for that
        epoch; local values that it finds stay what they are.  `stale` is where the source throws because the new
        snapshot is not at the last entry. */
    method TakeSnapshot(n: Snap) returns (epoch: Epoch, stale: bool)
      requires Valid() && n !in epochOf
      modifies this
      ensures Valid() && !stale && epoch == currentEpoch == old(currentEpoch)
      ensures model == ApplyTake(old(model), n)
      ensures epochOf == old(epochOf)[n := epoch] && boxes == old(boxes)[n := TakenBox(old(boxes), n)]
      ensures boxes[n].Keys == if n in old(boxes) then old(boxes)[n].Keys else {}
      ensures forall x :: x in boxes[n] ==>
                boxes[n][x].value == old(boxes)[n][x].value && boxes[n][x].base == old(boxes)[n][x].base
      ensures earliestEpoch == old(earliestEpoch) && table.Hists() == old(table.Hists())
      ensures var last := |old(entries)| - 1;
              entries == if last >= 0 && old(entries)[last].epoch == epoch
                         then old(entries)[last := old(entries)[last].(snapshots := old(entries)[last].snapshots + {n})]
                         else old(entries) + [Entry(epoch, {n}, [])]
    {
      TakeKeeps(model, n);
      epoch, stale := Register(n, model);
      model := ApplyTake(model, n);
    }

    method Register(n: Snap, ghost s: State) returns (epoch: Epoch, stale: bool)
      requires WF(s) && Shows(s) && InfoOk(s.info) && n !in epochOf
      modifies this`entries, this`epochOf, this`boxes
      ensures Shows(ApplyTake(s, n)) && !stale && epoch == currentEpoch
      ensures epochOf == old(epochOf)[n := epoch] && boxes == old(boxes)[n := TakenBox(old(boxes), n)]
    {
      epoch := currentEpoch;
      epochOf, boxes := epochOf[n := epoch], boxes[n := TakenBox(boxes, n)];
      var i := Insert(n, epoch);
      InsertedLast(s.info, entries, n, i);
      stale := i + 1 != |entries|;
    }

    /** Puts a snapshot into the entry for an epoch, which is made where it belongs if there is none. */
    method Insert(n: Snap, epoch: Epoch) returns (i: nat)
      requires Increasing(entries)
      modifies this`entries
      ensures Inserted(old(entries), entries, n, epoch, i)
    {
      i := |entries|;
      while i > 0 && entries[i - 1].epoch > epoch
        invariant i <= |entries|
        invariant forall j :: i <= j < |entries| ==> entries[j].epoch > epoch
      {
        i := i - 1;
      }
      if i > 0 && entries[i - 1].epoch == epoch {
        i := i - 1;
        entries := entries[i := entries[i].(snapshots := entries[i].snapshots + {n})];
      } else {
        entries := entries[..i] + [Entry(epoch, {n}, [])] + entries[i..];
      }
    }

    /** A snapshot goes away; when it was the last one of its entry the entry goes too, and what no other
        snapshot needs is cleaned up.  `ok` is false where the source throws. */
    method RemoveSnapshot(n: Snap) returns (ok: bool)
      requires Valid() && n in epochOf
      modifies this, table.objs
      ensures Valid() && ok
      ensures IndexOf(old(entries), old(epochOf)[n]) < |old(entries)|
      ensures var s := ApplyDrop(old(model), n);
              var ts := Leave(old(model).info, n, IndexOf(old(entries), old(epochOf)[n])).1;
              Inv(s) && multiset(ts) <= s.inflight && model == CleanAll(s, ts)
      ensures epochOf == old(epochOf) - {n} && boxes == old(boxes) && currentEpoch == old(currentEpoch)
      ensures model.ideal == old(model).ideal
    {
      ghost var k := SnapEntry(model, n);
      EarliestAdvances(model.info, n, k);
      DropKeeps(model, n);
      var toCleanUp;
      ok, toCleanUp := Unregister(n, model);
      model := ApplyDrop(model, n);
      ok := CleanUp(toCleanUp);
    }

    /** The part under the lock. */
    method Unregister(n: Snap, ghost s: State) returns (ok: bool, toCleanUp: seq<Token>)
      requires WF(s) && Shows(s) && s.phase.Idle? && n in epochOf
      requires var k := IndexOf(entries, epochOf[n]);
               && k < |entries| && n in entries[k].snapshots
               && earliestEpoch <= Leave(s.info, n, k).0.earliest <= currentEpoch
      modifies this`entries, this`earliestEpoch, this`epochOf
      ensures ok && Shows(ApplyDrop(s, n)) && epochOf == old(epochOf) - {n}
      ensures toCleanUp == Leave(s.info, n, IndexOf(old(entries), old(epochOf)[n])).1
    {
      var k := FindEntry(entries, epochOf[n]);
      ok, toCleanUp := k < |entries| && n in entries[k].snapshots, [];
      if !ok {
        return;
      }
      entries := entries[k := entries[k].(snapshots := entries[k].snapshots - {n})];
      if entries[k].snapshots == {} {
        ok, toCleanUp := PerformCleanup(k);
      }
      epochOf := epochOf - {n};
    }

    method SetEarliestEpoch(val: Epoch) returns (ok: bool)
      modifies this`earliestEpoch
      ensures ok <==> old(earliestEpoch) <= val <= currentEpoch
      ensures earliestEpoch == if ok then val else old(earliestEpoch)
    {
      ok := earliestEpoch <= val <= currentEpoch;
      if ok {
        earliestEpoch := val;
      }
    }

    /** Takes an entry out: what the entry before it needs goes on that one's list, the rest is handed back. */
    method PerformCleanup(k: nat) returns (ok: bool, toCleanUp: seq<Token>)
      requires k < |entries|
      requires var e := DropEntry(Info(currentEpoch, earliestEpoch, entries), k).0.earliest;
               earliestEpoch <= e <= currentEpoch
      modifies this`entries, this`earliestEpoch
      ensures ok
      ensures (Info(currentEpoch, earliestEpoch, entries), toCleanUp) ==
              DropEntry(Info(currentEpoch, old(earliestEpoch), old(entries)), k)
    {
      ok, toCleanUp := true, entries[k].cleanups;
      if k != 0 {
        var kept;
        kept, toCleanUp := Distribute(toCleanUp, entries[k - 1].epoch, entries[k - 1].cleanups);
        entries := entries[k - 1 := entries[k - 1].(cleanups := kept)];
      } else {
        ok := SetEarliestEpoch(if k + 1 == |entries| then currentEpoch else entries[k + 1].epoch);
      }
      ghost var es := old(entries);
      assert k != 0 ==> entries[..k] == es[..k - 1] + [entries[k - 1]] && entries[k + 1..] == es[k + 1..];
      assert k == 0 ==> entries[..k] + entries[k + 1..] == es[1..];
      entries := entries[..k] + entries[k + 1..];
    }

    /** The part after the lock is released. */
    method CleanUp(toCleanUp: seq<Token>) returns (ok: bool)
      requires table.Valid() && Shows(model) && model.phase.Idle? && Inv(model) && model.inflight == multiset(toCleanUp)
      modifies this`model, table.objs
      ensures Valid() && ok && model == CleanAll(old(model), toCleanUp) && model.ideal == old(model).ideal
    {
      ghost var m := model;
      model := CleanAll(m, toCleanUp);
      ok := CleanEach(toCleanUp, m);
      AllCleaned(m, toCleanUp);
    }

    method CleanEach(toCleanUp: seq<Token>, ghost s: State) returns (ok: bool)
      requires table.Valid() && Shows(s) && Inv(s) && multiset(toCleanUp) <= s.inflight
      modifies table.objs
      ensures ok && Shows(CleanAll(s, toCleanUp))
    {
      ok := true;
      var i := 0;
      assert toCleanUp[..0] == [];
      while i < |toCleanUp|
        invariant 0 <= i <= |toCleanUp| && ok && CleanedUpTo(toCleanUp, i, s)
      {
        var next := i + 1;
        var cleaned := CleanOne(toCleanUp, i, next, s);
        ok := ok && cleaned;
        i := next;
      }
      assert toCleanUp[..i] == toCleanUp;
    }

    /** The first `i` cleanups are carried out. */
    ghost predicate CleanedUpTo(toCleanUp: seq<Token>, i: nat, s: State)
      requires Inv(s) && i <= |toCleanUp|
      reads this`currentEpoch, this`earliestEpoch, this`entries, this`epochOf, this`boxes, table, table.objs
    {
      multiset(toCleanUp[..i]) <= s.inflight && Shows(CleanAll(s, toCleanUp[..i]))
    }

    method CleanOne(toCleanUp: seq<Token>, i: nat, next: nat, ghost s: State) returns (ok: bool)
      requires table.Valid() && Inv(s) && i < |toCleanUp| && next == i + 1 && multiset(toCleanUp) <= s.inflight
      requires CleanedUpTo(toCleanUp, i, s)
      modifies table.objs
      ensures ok && CleanedUpTo(toCleanUp, next, s)
    {
      CleanNext(s, toCleanUp, i);
      ok := CleanToken(toCleanUp[i], CleanAll(s, toCleanUp[..i]));
    }

    method CleanToken(t: Token, ghost p: State) returns (ok: bool)
      requires table.Valid() && Shows(p) && WF(p) && t in p.inflight && t.obj < |p.hist| && Sorted(p.hist[t.obj])
      modifies table.objs
      ensures ok <==> Histories.Cleanup(p.hist[t.obj], t.validFrom).Some?
      ensures Shows(ApplyClean(p, t))
    {
      ok := table.Cleanup(t.obj, t.validFrom);
    }

    // ---------------------------------------------------------------------------------------------
    // Reading and writing
    // ---------------------------------------------------------------------------------------------

    /** A transaction reads its own local value, or else what its snapshot sees. */
    method Read(n: Snap, x: Obj) returns (v: int)
      requires Valid() && n in epochOf && x < |table.objs|
      ensures v == if x in boxes[n] then boxes[n][x].value else ValueAt(model.ideal[x], epochOf[n])
    {
      ghost var k := SnapEntry(model, n);
      NewestIs(model, x);
      if x in boxes[n] {
        v := boxes[n][x].value;
      } else {
        v := table.ValueAtEpoch(x, epochOf[n]);
      }
    }

    /** The local values of a transaction are thrown away. */
    method ClearLocals(n: Snap)
      requires Valid()
      modifies this`boxes, this`model
      ensures Valid() && model == Apply(old(model), Clear(n))
      ensures boxes == old(boxes)[n := map[]] && model.ideal == old(model).ideal
    {
      ClearKeeps(model, n);
      model := Apply(model, Clear(n));
      boxes := boxes[n := map[]];
    }

    /** The first write to an object puts what the snapshot sees among the local values; a local value that is there
        stays.  Either way the transaction reads what it read before. */
    method Mutate(n: Snap, x: Obj) returns (v: int)
      requires Valid() && n in epochOf && x < |table.objs|
      modifies this`boxes, this`model
      ensures Valid() && model == ApplyMutate(old(model), n, x) && model.ideal == old(model).ideal
      ensures v == if x in old(boxes)[n] then old(boxes)[n][x].value else ValueAt(old(model).ideal[x], epochOf[n])
      ensures var was: Box := old(boxes)[n];
              boxes == if x in was then old(boxes) else old(boxes)[n := was[x := Local(v, v, true)]]
      ensures x in boxes[n] && v == boxes[n][x].value
    {
      ghost var m := model;
      ghost var k := SnapEntry(m, n);
      NewestIs(m, x);
      model := ApplyMutate(m, n, x);
      v := ShowMutate(n, x, m);
      assert Shows(model);
      MutateKeeps(m, n, x);
    }

    method ShowMutate(n: Snap, x: Obj, ghost m: State) returns (v: int)
      requires Shows(m) && WF(m) && n in epochOf && epochOf[n] >= 1 && x < |table.objs|
      modifies this`boxes
      ensures Shows(ApplyMutate(m, n, x)) && x in boxes[n] && v == boxes[n][x].value
      ensures v == if x in old(boxes)[n] then old(boxes)[n][x].value else ValueAt(m.hist[x], epochOf[n])
      ensures var was: Box := old(boxes)[n];
              boxes == if x in was then old(boxes) else old(boxes)[n := was[x := Local(v, v, true)]]
    {
      if x in boxes[n] {
        v := boxes[n][x].value;
      } else {
        v := table.ValueAtEpoch(x, epochOf[n]);
        LocalValue(n, x, v);
      }
    }

    /** Inserts a local value if there is none yet; one that is there is kept. */
    method LocalValue(n: Snap, x: Obj, initial: int)
      requires n in boxes
      modifies this`boxes
      ensures boxes == WithLocal(old(boxes), n, x, initial)
      ensures var was: Box := old(boxes)[n];
              boxes == if x in was then old(boxes) else old(boxes)[n := was[x := Local(initial, initial, true)]]
    {
      var box: Box := boxes[n];
      if x !in box {
        boxes := boxes[n := box[x := Local(initial, initial, true)]];
      }
    }

    /** Writing puts a local value in place and then changes it: it is what was written last, and no other changes. */
    method Write(n: Snap, x: Obj, v: int)
      requires Valid() && n in epochOf && x < |table.objs|
      modifies this`boxes, this`model
      ensures Valid() && x in ApplyMutate(old(model), n, x).boxes[n]
      ensures model == ApplyAssign(ApplyMutate(old(model), n, x), n, x, v) && model.ideal == old(model).ideal
      ensures x in boxes[n] && boxes[n][x].value == v
      ensures var was: Box := old(boxes)[n]; boxes == old(boxes)[n := was[x := boxes[n][x]]]
      ensures boxes[n][x].base ==
              if x in old(boxes)[n] then old(boxes)[n][x].base else ValueAt(old(model).ideal[x], epochOf[n])
    {
      ghost var before := boxes;
      var was := Mutate(n, x);
      ghost var mid := boxes;
      Assign(n, x, v);
      WrittenOver(before, mid, boxes, n, x, was, v);
    }

    method Assign(n: Snap, x: Obj, v: int)
      requires Valid() && n in epochOf && n in boxes && x in boxes[n]
      modifies this`boxes, this`model
      ensures model == ApplyAssign(old(model), n, x, v) && model.ideal == old(model).ideal
      ensures var was: Box := old(boxes)[n]; boxes == old(boxes)[n := was[x := was[x].(value := v)]]
      ensures Valid()
    {
      ghost var m := model;
      model := ApplyAssign(m, n, x, v);
      ShowAssign(n, x, v, m);
      AssignKeeps(m, n, x, v);
    }

    method ShowAssign(n: Snap, x: Obj, v: int, ghost m: State)
      requires Shows(m) && WF(m) && n in epochOf && x in boxes[n]
      modifies this`boxes
      ensures Shows(ApplyAssign(m, n, x, v))
      ensures var was: Box := old(boxes)[n]; boxes == old(boxes)[n := was[x := was[x].(value := v)]]
    {
      var box: Box := boxes[n];
      boxes := boxes[n := box[x := box[x].(value := v)]];
    }

    // ---------------------------------------------------------------------------------------------
    // Committing
    // ---------------------------------------------------------------------------------------------

    /** Sets up the objects in order until one refuses; `it` is how far the loop got, and `thrown` where the source
        throws because the new epoch is not the next one. */
    method SetupAll(order: seq<Obj>, box: Box, oldEpoch: Epoch, newEpoch: Epoch, ghost s: State)
      returns (ok: bool, thrown: bool, it: nat, ghost done: nat)
      requires table.Valid() && Begun(s) && s.hist == table.Hists() && s.info.current == currentEpoch
      requires s.phase.to == newEpoch
      requires s.phase.order == order && s.phase.box == box && s.epochOf[s.phase.snap] == oldEpoch
      modifies table.objs
      ensures done <= it <= |order| && it == (if ok then done else done + 1) && !thrown
      ensures Passes(s, done) && table.Hists() == Pushed(s, 0, done)
      ensures ok ==> done == |order|
      ensures !ok ==> order[done] < |s.hist| && NewestFrom(s.hist[order[done]]) > oldEpoch
    {
      ok, thrown, it, done := true, false, 0, 0;
      assert Pushed(s, 0, 0) == s.hist;
      while ok && it != |order|
        invariant done <= it <= |order| && it == (if ok then done else done + 1) && !thrown
        invariant Passes(s, done) && table.Hists() == Pushed(s, 0, done)
        invariant !ok ==> order[done] < |s.hist| && NewestFrom(s.hist[order[done]]) > oldEpoch
        decreases |order| - it
      {
        var next := it + 1;
        ok, thrown := SetupOne(order[it], oldEpoch, newEpoch, box, s, it, next);
        it := next;
        done := if ok then next else done;
      }
    }

    method SetupOne(x: Obj, oldEpoch: Epoch, newEpoch: Epoch, box: Box, ghost s: State, ghost it: nat, ghost next: nat)
      returns (ok: bool, thrown: bool)
      requires next == it + 1 && table.Valid() && Begun(s) && s.info.current == currentEpoch && s.phase.box == box
      requires it < |s.phase.order| && s.phase.order[it] == x && table.Hists() == Pushed(s, 0, it)
      requires s.phase.to == newEpoch
      modifies table.objs
      ensures x < |s.hist| && !thrown && (ok <==> NewestFrom(s.hist[x]) <= oldEpoch)
      ensures table.Hists() == if ok then Pushed(s, 0, next) else Pushed(s, 0, it)
    {
      PushedNext(s, it, next);
      var r := table.Setup(x, oldEpoch, newEpoch, currentEpoch, box[x].value);
      ok, thrown := r.Accepted?, r.OutOfOrder?;
    }

    /** Rolls back the objects before `end`, which were set up. */
    method RollbackAll(order: seq<Obj>, end: nat, ghost s: State)
      requires table.Valid() && Begun(s) && s.phase.order == order && end <= |order|
      requires table.Hists() == Pushed(s, 0, end)
      modifies table.objs
      ensures table.Hists() == s.hist
    {
      var it := 0;
      while it != end
        invariant it <= end && table.Hists() == Pushed(s, it, end)
      {
        var next := it + 1;
        PoppedNext(s, end, it, next);
        table.Rollback(order[it]);
        it := next;
      }
      assert Pushed(s, end, end) == s.hist;
    }

    /** Lists the versions that a commit made obsolete; `ok` is false where the source throws. */
    method RegisterAll(order: seq<Obj>, ghost b: State) returns (ok: bool)
      requires Bumped(b) && b.phase.order == order && b.hist == table.Hists()
      requires b.info == Info(currentEpoch, earliestEpoch, entries)
      modifies this`entries
      ensures ok && Info(currentEpoch, earliestEpoch, entries) == ListAll(b.info, Obsolete(b.hist, order))
    {
      ok := true;
      RegisterNone(b);
      var it := 0;
      while it != |order|
        invariant it <= |order| && ok
        invariant Info(currentEpoch, earliestEpoch, entries) == AtRegister(b, it).info
      {
        var next := it + 1;
        RegisterInfo(b, it, next);
        var validFrom := table.Commit(order[it]);
        ok := RegisterCleanup(Token(order[it], validFrom));
        it := next;
      }
      assert order[..it] == order;
    }

    method SetCurrentEpoch(val: Epoch) returns (ok: bool)
      modifies this`currentEpoch
      ensures ok <==> old(currentEpoch) <= val
      ensures currentEpoch == if ok then val else old(currentEpoch)
    {
      ok := currentEpoch <= val;
      if ok {
        currentEpoch := val;
      }
    }

    /** Commits the local values of snapshot `n`, going through them in the given order.  The result is the new
        epoch, or zero when the commit is refused; `stale` is then the number of the object that refused it.  `thrown`
        is where the source throws. */
    method Commit(n: Snap, order: seq<Obj>) returns (newEpoch: Epoch, thrown: bool, ghost stale: nat)
      requires Valid() && n in epochOf && NoDup(order) && forall x :: x in order <==> x in boxes[n]
      modifies this, table.objs
      ensures Valid() && CanCommit(old(model), n, order) && !thrown
      ensures newEpoch == if Current(old(model), n, order) then old(currentEpoch) + 1 else 0
      ensures newEpoch == 0 ==> FirstStale(old(model), n, order, stale)
      ensures Legal(old(model), CommitSteps(n, order, newEpoch != 0, stale))
      ensures model == Run(old(model), CommitSteps(n, order, newEpoch != 0, stale))
      ensures epochOf == old(epochOf) && boxes == old(boxes)[n := map[]] && earliestEpoch == old(earliestEpoch)
      ensures CommittedOrNot(newEpoch, Info(old(currentEpoch), old(earliestEpoch), old(entries)), old(table.Hists()),
                             old(boxes)[n], old(epochOf)[n], order,
                             Info(currentEpoch, earliestEpoch, entries), table.Hists())
    {
      ghost var m := model;
      MayCommit(m, n, order);
      newEpoch, thrown, stale := CommitRun(n, order, m);
      ghost var steps := CommitSteps(n, order, newEpoch != 0, stale);
      model := Run(m, steps);
      RunKeeps(m, steps);
    }

    method CommitRun(n: Snap, order: seq<Obj>, ghost m: State) returns (newEpoch: Epoch, thrown: bool, ghost stale: nat)
      requires table.Valid() && Shows(m) && CanCommit(m, n, order)
      modifies this`currentEpoch, this`entries, this`boxes, table.objs
      ensures !thrown && newEpoch == if Current(m, n, order) then old(currentEpoch) + 1 else 0
      ensures newEpoch == 0 ==> FirstStale(m, n, order, stale)
      ensures Legal(m, CommitSteps(n, order, newEpoch != 0, stale))
      ensures var r := Run(m, CommitSteps(n, order, newEpoch != 0, stale));
              Shows(r) && r.phase.Idle? && r.inflight == m.inflight
      ensures CommittedOrNot(newEpoch, m.info, m.hist, m.boxes[n], m.epochOf[n], order,
                             Info(currentEpoch, earliestEpoch, entries), table.Hists())
      ensures boxes == old(boxes)[n := map[]]
    {
      newEpoch, thrown, stale := CommitLocals(n, order, boxes[n], epochOf[n], m);
      boxes := boxes[n := map[]];
      CommitEnds(m, n, order, newEpoch != 0, stale, Info(currentEpoch, earliestEpoch, entries), table.Hists());
      OutcomeIs(m, n, order, newEpoch != 0, stale, Info(currentEpoch, earliestEpoch, entries), table.Hists());
    }

    method CommitLocals(n: Snap, order: seq<Obj>, box: Box, oldEpoch: Epoch, ghost m: State)
      returns (result: Epoch, thrown: bool, ghost stale: nat)
      requires table.Valid() && CanCommit(m, n, order) && m.boxes[n] == box && m.epochOf[n] == oldEpoch
      requires m.hist == table.Hists() && m.info == Info(currentEpoch, earliestEpoch, entries)
      modifies this`currentEpoch, this`entries, table.objs
      ensures !thrown && result == if Current(m, n, order) then m.info.current + 1 else 0
      ensures result == 0 ==> FirstStale(m, n, order, stale)
      ensures Outcome(m, n, order, result != 0, Info(currentEpoch, earliestEpoch, entries), table.Hists())
    {
      ghost var s := ApplyBegin(m, n, order);
      CurrentPasses(m, n, order);
      var newEpoch := currentEpoch + 1;
      var ok, outOfOrder, it, done := SetupAll(order, box, oldEpoch, newEpoch, s);
      thrown := outOfOrder;
      if ok {
        result, stale := newEpoch, 0;
        thrown := PublishCommit(n, order, newEpoch, m);
      } else {
        var end := it - 1;
        RollbackAll(order, end, s);
        result, stale := 0, done;
      }
    }

    method PublishCommit(n: Snap, order: seq<Obj>, newEpoch: Epoch, ghost m: State) returns (thrown: bool)
      requires CanCommit(m, n, order) && |entries| > 0 && table.Hists() == Pushed(ApplyBegin(m, n, order), 0, |order|)
      requires m.info == Info(currentEpoch, earliestEpoch, entries) && newEpoch == currentEpoch + 1
      modifies this`currentEpoch, this`entries
      ensures !thrown && Outcome(m, n, order, true, Info(currentEpoch, earliestEpoch, entries), table.Hists())
    {
      thrown := Publish(order, newEpoch, ApplyBegin(m, n, order));
      PublishedOutcome(m, n, order, Info(currentEpoch, earliestEpoch, entries), table.Hists());
    }

    /** Makes the new versions visible, and only then lists the ones they made obsolete. */
    method Publish(order: seq<Obj>, newEpoch: Epoch, ghost s: State) returns (thrown: bool)
      requires Begun(s) && s.phase.order == order && |entries| > 0 && table.Hists() == Pushed(s, 0, |order|)
      requires s.info == Info(currentEpoch, earliestEpoch, entries) && newEpoch == currentEpoch + 1
      modifies this`currentEpoch, this`entries
      ensures Bumped(BumpedFrom(s)) && !thrown
      ensures Info(currentEpoch, earliestEpoch, entries) == ListAll(BumpedFrom(s).info, Obsolete(table.Hists(), order))
    {
      BumpedIs(s);
      var forward := SetCurrentEpoch(newEpoch);
      var listed := RegisterAll(order, BumpedFrom(s));
      thrown := !forward || !listed;
      assert order[..|order|] == order;
    }

    method RegisterCleanup(t: Token) returns (ok: bool)
      modifies this`entries
      ensures ok <==> |old(entries)| > 0
      ensures ok ==> entries == AddCleanup(Info(currentEpoch, earliestEpoch, old(entries)), t).entries
      ensures !ok ==> entries == old(entries)
    {
      ok := |entries| > 0;
      if ok {
        var last := |entries| - 1;
        entries := entries[last := entries[last].(cleanups := entries[last].cleanups + [t])];
      }
    }

    // ---------------------------------------------------------------------------------------------
    // Renumbering the epochs
    // ---------------------------------------------------------------------------------------------

    /** Renames the versions on one cleanup list; `ok` is false where the source throws. */
    method RenameTokens(newEpoch: Epoch, cleanups: seq<Token>, gathered: Extras)
      returns (ok: bool, renamed: seq<Token>, extras: Extras)
      requires table.Valid() && ListFits(cleanups, |table.objs|)
      modifies table.objs
      ensures table.Valid()
      ensures Progress(ok, table.Hists(), extras) ==
              RenameList(Progress(true, old(table.Hists()), gathered), cleanups, newEpoch)
      ensures PartRetagged(cleanups, renamed, newEpoch) && (ok ==> renamed == Retag(cleanups, newEpoch))
    {
      ghost var p := Progress(true, table.Hists(), gathered);
      ok, renamed, extras := true, cleanups, gathered;
      assert PartRetag(cleanups, 0, newEpoch) == cleanups;
      var i := 0;
      while i < |cleanups| && ok
        invariant 0 <= i <= |cleanups| == |renamed| && ListFits(cleanups[..i], |p.hist|)
        invariant PartRetagged(cleanups, renamed, newEpoch) && (ok ==> renamed == PartRetag(cleanups, i, newEpoch))
        invariant Progress(ok, table.Hists(), extras) == RenameList(p, cleanups[..i], newEpoch)
      {
        ghost var next := i + 1;
        RenameListNext(p, cleanups, newEpoch, next, i);
        ok, extras := RenameToken(newEpoch, cleanups[i], extras);
        if ok {
          RetagNext(cleanups, i, newEpoch);
          renamed := renamed[i := Token(renamed[i].obj, newEpoch)];
          assert PartRetagged(cleanups, renamed, newEpoch);
        }
        i := i + 1;
      }
      ListStepped(p, cleanups, newEpoch, i, ok);
    }

    method RenameToken(newEpoch: Epoch, t: Token, gathered: Extras) returns (ok: bool, extras: Extras)
      requires table.Valid() && t.obj < |table.objs|
      modifies table.objs
      ensures table.Valid()
      ensures Progress(ok, table.Hists(), extras) ==
              RenameListed(Progress(true, old(table.Hists()), gathered), t, newEpoch)
    {
      var next;
      ok, next := table.RenameEpoch(t.obj, t.validFrom, newEpoch);
      extras := gathered;
      if ok && next != 0 {
        extras := extras[next := (if next in extras then extras[next] else []) + [t.obj]];
      }
    }

    /** Renames the newest versions that start at the old epoch of the entry. */
    method RenameFinals(oldEpoch: Epoch, newEpoch: Epoch, list: seq<Obj>, ghost extras: Extras) returns (ok: bool)
      requires table.Valid() && forall a :: 0 <= a < |list| ==> list[a] < |table.objs|
      modifies table.objs
      ensures table.Valid()
      ensures Progress(ok, table.Hists(), extras) ==
              CompressLoop.RenameFinals(Progress(true, old(table.Hists()), extras), list, oldEpoch, newEpoch)
    {
      ghost var p := Progress(true, table.Hists(), extras);
      ok := true;
      var i := 0;
      while i < |list| && ok
        invariant 0 <= i <= |list|
        invariant Progress(ok, table.Hists(), extras) == CompressLoop.RenameFinals(p, list[..i], oldEpoch, newEpoch)
      {
        ghost var next := i + 1;
        RenameFinalsNext(p, list, oldEpoch, newEpoch, next, i);
        ok := RenameNewest(oldEpoch, newEpoch, list[i], extras);
        i := i + 1;
      }
      FinalsStepped(p, list, oldEpoch, newEpoch, i, ok);
    }

    method RenameNewest(oldEpoch: Epoch, newEpoch: Epoch, x: Obj, ghost extras: Extras) returns (ok: bool)
      requires table.Valid() && x < |table.objs|
      modifies table.objs
      ensures table.Valid()
      ensures Progress(ok, table.Hists(), extras) ==
              RenameFinal(Progress(true, old(table.Hists()), extras), x, oldEpoch, newEpoch)
    {
      var next;
      ok, next := table.RenameEpoch(x, oldEpoch, newEpoch);
    }

    /** Every snapshot of an entry takes its new epoch; `ok` is false where the source throws. */
    method RenameSnapshots(snapshots: set<Snap>, oldEpoch: Epoch, newEpoch: Epoch) returns (ok: bool)
      requires forall n :: n in snapshots ==> n in epochOf && epochOf[n] == oldEpoch
      modifies this`epochOf
      ensures ok && epochOf == Moved(old(epochOf), snapshots, newEpoch)
    {
      ok := true;
      var left := snapshots;
      while left != {}
        invariant left <= snapshots && ok
        invariant epochOf == Moved(old(epochOf), snapshots - left, newEpoch)
      {
        var n :| n in left;
        ok := ok && epochOf[n] == oldEpoch;
        epochOf := epochOf[n := newEpoch];
        left := left - {n};
      }
      assert snapshots - left == snapshots;
    }

    /** Renames the versions that belong to an entry. */
    method RenameVersions(b: nat, oldEpoch: Epoch, newEpoch: Epoch, cleanups: seq<Token>, gathered: Extras,
                          ghost es: seq<Entry>)
      returns (ok: bool, renamed: seq<Token>, extras: Extras)
      requires table.Valid() && b < |es| && TableFits(es, |table.objs|) && !Skipped(es, b)
      requires newEpoch == b + 1 && oldEpoch == es[b].epoch && cleanups == es[b].cleanups
      requires Fits(Progress(true, table.Hists(), gathered))
      modifies table.objs
      ensures table.Valid()
      ensures Progress(ok, table.Hists(), extras) ==
              CompressLoop.RenumberEntry(Progress(true, old(table.Hists()), gathered), es, b)
      ensures PartRetagged(cleanups, renamed, newEpoch) && (ok ==> renamed == Retag(cleanups, newEpoch))
    {
      ghost var p := Progress(true, table.Hists(), gathered);
      ok, renamed, extras := RenameTokens(newEpoch, cleanups, gathered);
      ghost var q := Progress(ok, table.Hists(), extras);
      GatheredFits(q, oldEpoch);
      if ok && oldEpoch in extras {
        assert FinalsAt(q.extras, oldEpoch) == extras[oldEpoch];
        ok := RenameFinals(oldEpoch, newEpoch, extras[oldEpoch], extras);
      } else if !ok {
        FinalsStopped(q, FinalsAt(extras, oldEpoch), oldEpoch, newEpoch);
      }
    }

    /** The table of snapshots when `b` entries are gone through. */
    ghost predicate TableAt(s: State, b: nat)
      reads this`entries, this`epochOf
    {
      && b <= |s.info.entries| && entries == EntriesAt(s.info.entries, b)
      && epochOf == EpochsAt(s.info.entries, s.epochOf, b)
    }

    /** Where something was thrown at entry `b`: the entries before it are renumbered, and of its own list the front. */
    ghost predicate StoppedAt(s: State, b: nat)
      reads this`entries, this`epochOf
    {
      var es := s.info.entries;
      && b < |es| == |entries| && epochOf == EpochsAt(es, s.epochOf, b)
      && entries == EntriesAt(es, b)[b := es[b].(cleanups := entries[b].cleanups)]
      && PartRetagged(es[b].cleanups, entries[b].cleanups, b + 1)
    }

    /** The objects, and what is gathered, when `b` entries are gone through or something was thrown before. */
    ghost predicate LoopAt(s: State, b: nat, ok: bool, extras: Extras)
      reads table, table.objs
    {
      && table.Valid() && |table.objs| == |s.hist| && b <= |s.info.entries| && TableFits(s.info.entries, |s.hist|)
      && Progress(ok, table.Hists(), extras) == LoopTo(s.info.entries, s.hist, b)
    }

    /** Takes one entry to its new epoch: first its versions, then its snapshots, then the entry itself. */
    method RenumberEntry(b: nat, newEpoch: Epoch, gathered: Extras, ghost s: State) returns (ok: bool, extras: Extras)
      requires Inv(s) && b < |s.info.entries| && newEpoch == b + 1 && LoopAt(s, b, true, gathered) && TableAt(s, b)
      modifies this`entries, this`epochOf, table.objs
      ensures LoopAt(s, newEpoch, ok, extras)
      ensures if ok then TableAt(s, newEpoch) else StoppedAt(s, b)
    {
      EntryFacts(s, b, newEpoch);
      LoopNext(s.info.entries, s.hist, b, newEpoch);
      var oldEpoch := entries[b].epoch;
      if oldEpoch == newEpoch {
        return true, gathered;
      }
      ok, extras := RenameEntry(b, oldEpoch, newEpoch, gathered, s);
    }

    method RenameEntry(b: nat, oldEpoch: Epoch, newEpoch: Epoch, gathered: Extras, ghost s: State)
      returns (ok: bool, extras: Extras)
      requires Inv(s) && b < |s.info.entries| && newEpoch == b + 1 && LoopAt(s, b, true, gathered) && TableAt(s, b)
      requires oldEpoch == s.info.entries[b].epoch != newEpoch
      modifies this`entries, this`epochOf, table.objs
      ensures LoopAt(s, newEpoch, ok, extras)
      ensures if ok then TableAt(s, newEpoch) else StoppedAt(s, b)
    {
      EntryFacts(s, b, newEpoch);
      var renamed;
      ok, renamed, extras := RenameHere(b, oldEpoch, newEpoch, entries[b].cleanups, gathered, s);
      if ok {
        ok := MoveEntry(b, oldEpoch, newEpoch, renamed);
      } else {
        KeepRetagged(b, renamed, s);
      }
    }

    /** Where a renaming is refused, the list has the names given so far. */
    method KeepRetagged(b: nat, renamed: seq<Token>, ghost s: State)
      requires b < |s.info.entries| && TableAt(s, b) && EntriesAt(s.info.entries, b)[b] == s.info.entries[b]
      requires PartRetagged(s.info.entries[b].cleanups, renamed, b + 1)
      modifies this`entries
      ensures StoppedAt(s, b)
    {
      entries := entries[b := entries[b].(cleanups := renamed)];
    }

    method RenameHere(b: nat, oldEpoch: Epoch, newEpoch: Epoch, cleanups: seq<Token>, gathered: Extras,
                      ghost s: State)
      returns (ok: bool, renamed: seq<Token>, extras: Extras)
      requires b < |s.info.entries| && newEpoch == b + 1 && LoopAt(s, b, true, gathered)
      requires oldEpoch == s.info.entries[b].epoch != newEpoch && cleanups == s.info.entries[b].cleanups
      modifies table.objs
      ensures LoopAt(s, newEpoch, ok, extras)
      ensures PartRetagged(cleanups, renamed, newEpoch) && (ok ==> renamed == Retag(cleanups, newEpoch))
    {
      LoopNext(s.info.entries, s.hist, b, newEpoch);
      ok, renamed, extras := RenameVersions(b, oldEpoch, newEpoch, cleanups, gathered, s.info.entries);
    }

    method MoveEntry(b: nat, oldEpoch: Epoch, newEpoch: Epoch, renamed: seq<Token>) returns (ok: bool)
      requires b < |entries| && newEpoch <= oldEpoch
      requires forall n :: n in entries[b].snapshots ==> n in epochOf && epochOf[n] == oldEpoch
      requires forall k :: 0 <= k < |entries| ==> entries[k].epoch != newEpoch
      modifies this`entries, this`epochOf
      ensures ok && entries == old(entries)[b := Entry(newEpoch, old(entries)[b].snapshots, renamed)]
      ensures epochOf == Moved(old(epochOf), old(entries)[b].snapshots, newEpoch)
    {
      ok := RenameSnapshots(entries[b].snapshots, oldEpoch, newEpoch);
      var clash := HasEntry(entries, newEpoch);
      ok := ok && newEpoch <= oldEpoch && !clash;
      entries := entries[b := Entry(newEpoch, entries[b].snapshots, renamed)];
    }

    /** Renumbers the epochs in use to 1, 2, 3 and so on.  `ok` is false where the source throws, at entry `stop`; the
        objects and the table are then as the loop had left them. */
    method CompressEpochs() returns (ok: bool, ghost stop: nat)
      requires Valid()
      modifies this, table.objs
      ensures boxes == old(boxes)
      ensures old(entries) == [] ==>
                && ok && Valid() && currentEpoch == old(currentEpoch) && earliestEpoch == old(earliestEpoch)
                && entries == [] && table.Hists() == old(table.Hists()) && epochOf == old(epochOf)
      ensures ok && old(entries) != [] ==>
                Numbered(old(entries), old(epochOf), Info(currentEpoch, earliestEpoch, entries), epochOf)
      ensures Compressible(old(model)) && AllRenumberable(old(model)) && AllSeenOnce(old(model)) ==> ok && Valid()
      ensures TableFits(old(entries), |old(table.Hists())|) && table.Valid()
      ensures ok <==> CompressLoop.Renumbering(old(entries), old(table.Hists())).ok
      ensures table.Hists() == CompressLoop.Renumbering(old(entries), old(table.Hists())).hist
      ensures ok ==> Shows(model) && model == CompressAll(old(model))
      ensures !ok ==> StoppedAt(old(model), stop) && FirstRefused(old(entries), old(table.Hists()), stop)
    {
      ghost var s := model;
      CompressedValid(s);
      ok, stop := true, 0;
      if entries != [] {
        model := CompressAll(s);
        ok, stop := RenumberTable(s);
        CompressedTable(s);
      }
    }

    method RenumberTable(ghost s: State) returns (ok: bool, ghost stop: nat)
      requires Inv(s) && |s.info.entries| > 0 && table.Valid() && Shows(s)
      modifies this`currentEpoch, this`earliestEpoch, this`entries, this`epochOf, table.objs
      ensures TableFits(s.info.entries, |s.hist|)
      ensures ok <==> CompressLoop.Renumbering(s.info.entries, s.hist).ok
      ensures table.Hists() == CompressLoop.Renumbering(s.info.entries, s.hist).hist
      ensures ok ==> Shows(CompressAll(s))
      ensures !ok ==> StoppedAt(s, stop) && FirstRefused(s.info.entries, s.hist, stop)
    {
      CompressFields(s);
      ghost var r := CompressAll(s);
      ok, stop := RenumberAll(s);
      if ok {
        SettleEpochs(r);
      }
    }

    /** The epochs in use being 1 to n, the next one is n + 1. */
    method SettleEpochs(ghost r: State)
      requires r.info == Info(|entries| + 1, 1, entries) && r.hist == table.Hists() && r.epochOf == epochOf
      requires r.boxes == boxes
      modifies this`currentEpoch, this`earliestEpoch
      ensures Shows(r)
    {
      currentEpoch, earliestEpoch := |entries| + 1, 1;
    }

    method RenumberAll(ghost s: State) returns (ok: bool, ghost stop: nat)
      requires Inv(s) && |s.info.entries| > 0 && table.Valid()
      requires s.hist == table.Hists() && entries == s.info.entries && epochOf == s.epochOf
      modifies this`entries, this`epochOf, table.objs
      ensures TableFits(s.info.entries, |s.hist|)
      ensures ok <==> CompressLoop.Renumbering(s.info.entries, s.hist).ok
      ensures table.Hists() == CompressLoop.Renumbering(s.info.entries, s.hist).hist
      ensures ok ==> TableAt(s, |s.info.entries|)
      ensures !ok ==> StoppedAt(s, stop) && FirstRefused(s.info.entries, s.hist, stop)
    {
      RenumberBegins(s);
      ok, stop := true, 0;
      var n := |entries|;
      var extras: Extras := map[];
      var b := 0;
      while b < n && ok
        invariant 0 <= b <= n == |s.info.entries| && LoopAt(s, b, ok, extras)
        invariant if ok then TableAt(s, b)
                  else stop + 1 == b && StoppedAt(s, stop) && LoopTo(s.info.entries, s.hist, stop).ok
      {
        stop := b;
        var newEpoch := b + 1;
        ok, extras := RenumberEntry(b, newEpoch, extras, s);
        b := newEpoch;
      }
      LoopStepped(s.info.entries, s.hist, b, ok);
    }
  }

  lemma WrittenOver(before: map<Snap, Box>, mid: map<Snap, Box>, after: map<Snap, Box>, n: Snap, x: Obj, was: int,
                    v: int)
    requires n in before && n in mid && x in mid[n]
    requires var box: Box := before[n]; mid == if x in box then before else before[n := box[x := Local(was, was, true)]]
    requires var box: Box := mid[n]; after == mid[n := box[x := box[x].(value := v)]]
    ensures n in after && x in after[n] && after[n][x].value == v
    ensures var box: Box := before[n]; after == before[n := box[x := after[n][x]]]
    ensures after[n][x].base == if x in before[n] then before[n][x].base else was
  {
    var box: Box := before[n];
    assert after[n] == box[x := after[n][x]];
  }

  /** A commit has gone through: the next epoch is the current one, each object has the local value on top from then on,
      or is as it was, and the last list has behind what was there the start of each version that ended. */
  ghost predicate Committed(info: Info, hist: seq<History<int>>, box: Box, order: seq<Obj>,
                            info': Info, hist': seq<History<int>>) {
    && info'.current == info.current + 1 && info'.earliest == info.earliest
    && |hist'| == |hist|
    && (forall x :: 0 <= x < |hist| ==>
          hist'[x] == if x in box then History(hist[x].past + [Past(info'.current, hist[x].current)], box[x].value)
                      else hist[x])
    && |info'.entries| == |info.entries| > 0
    && var last := |info.entries| - 1;
       var was, now := info.entries[last], info'.entries[last];
       && info'.entries[..last] == info.entries[..last]
       && now.epoch == was.epoch && now.snapshots == was.snapshots
       && |now.cleanups| == |was.cleanups| + |order| && now.cleanups[..|was.cleanups|] == was.cleanups
       && (forall k :: 0 <= k < |order| ==> order[k] < |hist|)
       && forall k :: 0 <= k < |order| ==>
            now.cleanups[|was.cleanups| + k] == Token(order[k], NewestFrom(hist[order[k]]))
  }

  /** Refused exactly if some object with a local value has a version newer than the snapshot, and then nothing has
      changed; else it has gone through, and the result is the new epoch. */
  ghost predicate CommittedOrNot(newEpoch: Epoch, info: Info, hist: seq<History<int>>, box: Box, base: Epoch,
                                 order: seq<Obj>, info': Info, hist': seq<History<int>>) {
    if exists x :: x in box && x < |hist| && NewestFrom(hist[x]) > base
    then newEpoch == 0 && info' == info && hist' == hist
    else newEpoch == info'.current > 0 && Committed(info, hist, box, order, info', hist')
  }

  lemma OutcomeIs(m: State, n: Snap, order: seq<Obj>, through: bool, stale: nat, info: Info, hist: seq<History<int>>)
    requires CanCommit(m, n, order) && Outcome(m, n, order, through, info, hist)
    requires through <==> Current(m, n, order)
    requires !through ==> FirstStale(m, n, order, stale)
    ensures CommittedOrNot(if through then m.info.current + 1 else 0, m.info, m.hist, m.boxes[n], m.epochOf[n], order,
                           info, hist)
  {
    if through {
      forall k | 0 <= k < |order| ensures order[k] in order && order[k] in m.boxes[n] && order[k] < |m.hist| {
      }
    } else {
      assert order[stale] in order;
    }
  }

  /** The entries have the numbers from 1 on, in the order they had, each with the same snapshots, which have the number
      too; the current epoch is the next one, and the earliest the first. */
  ghost predicate Numbered(es: seq<Entry>, epochOf: map<Snap, Epoch>, info: Info, epochOf': map<Snap, Epoch>) {
    && info.current == |es| + 1 && info.earliest == 1 && |info.entries| == |es| && epochOf'.Keys == epochOf.Keys
    && (forall k :: 0 <= k < |es| ==>
          info.entries[k].epoch == k + 1 && info.entries[k].snapshots == es[k].snapshots)
    && forall k, n :: 0 <= k < |es| && n in es[k].snapshots ==> n in epochOf' && epochOf'[n] == k + 1
  }

  lemma NumberedIs(info: Info, epochOf: map<Snap, Epoch>)
    requires Increasing(info.entries) && SnapsOk(info, epochOf)
    ensures Numbered(info.entries, epochOf, Info(|info.entries| + 1, 1, NewEntries(info.entries)),
                     NewEpochs(info.entries, epochOf))
  {
    forall k, n | 0 <= k < |info.entries| && n in info.entries[k].snapshots
      ensures n in NewEpochs(info.entries, epochOf) && NewEpochs(info.entries, epochOf)[n] == k + 1
    {
      NewMember(info, epochOf, k, n);
    }
  }

  lemma CompressedTable(s: State)
    requires Inv(s) && s.info.entries != []
    ensures Numbered(s.info.entries, s.epochOf, CompressAll(s).info, CompressAll(s).epochOf)
    ensures CompressAll(s).boxes == s.boxes
  {
    NumberedIs(s.info, s.epochOf);
  }

  lemma CompressedValid(s: State)
    requires Inv(s)
    ensures TableFits(s.info.entries, |s.hist|)
    ensures Compressible(s) && AllRenumberable(s) && AllSeenOnce(s) ==>
              && CompressLoop.Renumbering(s.info.entries, s.hist).ok
              && Inv(CompressAll(s)) && CompressAll(s).phase.Idle? && CompressAll(s).inflight == multiset{}
  {
    ListsFit(s);
    if Compressible(s) && AllRenumberable(s) && AllSeenOnce(s) {
      CompressGoesThrough(s);
      CompressKeeps(s);
    }
  }

  lemma RenumberBegins(s: State)
    requires Inv(s) && |s.info.entries| > 0
    ensures var es := s.info.entries;
            && EntriesAt(es, 0) == es && EpochsAt(es, s.epochOf, 0) == s.epochOf && TableFits(es, |s.hist|)
            && LoopTo(es, s.hist, 0) == Progress(true, s.hist, map[])
  {
    ListsFit(s);
    CompressBegins(s);
  }

  /** Entry `stop` is the first at which the loop is stopped. */
  ghost predicate FirstRefused(es: seq<Entry>, hist: seq<History<int>>, stop: nat)
    requires TableFits(es, |hist|)
  {
    stop < |es| && LoopTo(es, hist, stop).ok && !LoopTo(es, hist, stop + 1).ok
  }

  /** A cleanup list whose first `m` members have their new names. */
  function PartRetag(cs: seq<Token>, m: nat, e: Epoch): seq<Token>
    requires m <= |cs|
  {
    Retag(cs[..m], e) + cs[m..]
  }

  ghost predicate PartRetagged(cs: seq<Token>, renamed: seq<Token>, e: Epoch) {
    exists m: nat :: m <= |cs| && renamed == PartRetag(cs, m, e)
  }

  lemma RetagNext(cs: seq<Token>, i: nat, e: Epoch)
    requires i < |cs|
    ensures PartRetag(cs, i, e)[i] == cs[i]
    ensures PartRetag(cs, i, e)[i := Token(cs[i].obj, e)] == PartRetag(cs, i + 1, e)
  {
  }

  lemma ListStepped(p: Progress, cs: seq<Token>, to: Epoch, i: nat, ok: bool)
    requires i <= |cs| && ListFits(cs, |p.hist|) && ListFits(cs[..i], |p.hist|) && ok == RenameList(p, cs[..i], to).ok
    requires i == |cs| || !ok
    ensures RenameList(p, cs[..i], to) == RenameList(p, cs, to) && (ok ==> cs[..i] == cs && cs[i..] == [])
  {
    if ok {
      assert cs[..i] == cs;
    } else {
      ListStays(p, cs, to, i);
    }
  }

  lemma FinalsStepped(p: Progress, xs: seq<Obj>, from: Epoch, to: Epoch, i: nat, ok: bool)
    requires i <= |xs| && (forall a :: 0 <= a < |xs| ==> xs[a] < |p.hist|) && (i == |xs| || !ok)
    requires ok == CompressLoop.RenameFinals(p, xs[..i], from, to).ok
    ensures CompressLoop.RenameFinals(p, xs[..i], from, to) == CompressLoop.RenameFinals(p, xs, from, to)
  {
    if ok {
      assert xs[..i] == xs;
    } else {
      FinalsStay(p, xs, from, to, i);
    }
  }

  lemma LoopStepped(es: seq<Entry>, hist: seq<History<int>>, b: nat, ok: bool)
    requires b <= |es| && TableFits(es, |hist|) && (b == |es| || !ok) && ok == LoopTo(es, hist, b).ok
    ensures CompressLoop.Renumbering(es, hist) == LoopTo(es, hist, b)
  {
    if !ok {
      LoopStays(es, hist, |es|, b);
    }
  }

  lemma AllCleaned(s: State, ts: seq<Token>)
    requires Inv(s) && s.phase.Idle? && s.inflight == multiset(ts)
    ensures var r := CleanAll(s, ts); Inv(r) && r.phase.Idle? && r.inflight == multiset{} && r.ideal == s.ideal
  {
    CleanAllTouches(s, ts);
  }

  lemma CleanNext(s: State, ts: seq<Token>, i: nat)
    requires Inv(s) && i < |ts| && multiset(ts) <= s.inflight
    ensures multiset(ts[..i]) <= s.inflight && multiset(ts[..i + 1]) <= s.inflight
    ensures var p := CleanAll(s, ts[..i]);
            && ts[i] in p.inflight && ts[i].obj < |p.hist| && Sorted(p.hist[ts[i].obj])
            && CleanAll(s, ts[..i + 1]) == ApplyClean(p, ts[i])
            && Histories.Cleanup(p.hist[ts[i].obj], ts[i].validFrom).Some?
            && ApplyClean(p, ts[i]).hist ==
              p.hist[ts[i].obj := Histories.Cleanup(p.hist[ts[i].obj], ts[i].validFrom).value]
  {
    assert ts == ts[..i] + [ts[i]] + ts[i + 1..];
    assert ts[..i + 1][..i] == ts[..i];
    assert ts[..i + 1] == ts[..i] + [ts[i]];
    var p := CleanAll(s, ts[..i]);
    assert ts[i] in p.inflight;
    CleanRemoves(p, ts[i]);
    NewestIs(p, ts[i].obj);
  }

  /** Snapshot `n` was put into entry `i`, which is the one for the epoch. */
  ghost predicate Inserted(es: seq<Entry>, es': seq<Entry>, n: Snap, epoch: Epoch, i: nat) {
    || (i < |es| && es[i].epoch == epoch && es' == es[i := es[i].(snapshots := es[i].snapshots + {n})])
    || (&& i <= |es| && es' == es[..i] + [Entry(epoch, {n}, [])] + es[i..]
        && (forall j :: 0 <= j < i ==> es[j].epoch < epoch)
        && (forall j :: i <= j < |es| ==> es[j].epoch > epoch))
  }

  /** Since no registered epoch is past the current one, a new snapshot always lands on the last entry. */
  lemma InsertedLast(info: Info, es': seq<Entry>, n: Snap, i: nat)
    requires InfoOk(info) && Inserted(info.entries, es', n, info.current, i)
    ensures i + 1 == |es'| && es' == Register(info, n).entries
  {
  }
}
