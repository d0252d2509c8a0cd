/** Transactions: a snapshot together with its local values, and what committing does to both. */
module Transactions {
  import opened Histories
  import opened Snapshots
  import opened Mvcc
  import opened MvccSteps
  import opened MvccRuns
  import opened CommitStages
  import S = Store

  datatype Status =
    | Uninitialized | Initialized | Restarting | Restarting0 | Restarting0A | Restarted
    | Committing | Committed | Failed

  class Transaction {
    const store: S.Store
    const id: Snap
    var status: Status
    var retries: nat
    ghost var taken: nat    // how many times a snapshot was taken

    ghost predicate Valid()
      reads store, store.table, store.table.objs
    {
      store.Valid() && id in store.epochOf
    }

    constructor (store: S.Store, id: Snap)
      requires store.Valid() && id !in store.epochOf
      modifies store
      ensures Valid() && this.store == store && this.id == id && status == Initialized && retries == 0 && taken == 1
      ensures store.model == ApplyTake(Apply(old(store.model), Clear(id)), id) && store.boxes[id] == map[]
    {
      this.store, this.id := store, id;
      status, retries, taken := Uninitialized, 0, 0;
      new;
      store.ClearLocals(id);
      RegisterMe();
    }

    /** The local values go first, then the snapshot. */
    method Destroy()
      requires Valid()
      modifies this`status, store, store.table.objs
      ensures store.Valid() && id !in store.epochOf && store.epochOf == old(store.epochOf) - {id}
      ensures store.boxes == old(store.boxes)[id := map[]] && store.model.ideal == old(store.model).ideal
    {
      store.ClearLocals(id);
      Remove();
    }

    method RegisterMe()
      requires store.Valid() && id !in store.epochOf
      modifies this`status, this`taken, store
      ensures Valid() && store.model == ApplyTake(old(store.model), id)
      ensures store.epochOf == old(store.epochOf)[id := store.currentEpoch]
      ensures store.boxes == old(store.boxes)[id := TakenBox(old(store.boxes), id)]
      ensures id in old(store.boxes) ==> SameLocals(old(store.boxes)[id], store.boxes[id])
      ensures store.model.ideal == old(store.model).ideal && store.currentEpoch == old(store.currentEpoch)
      ensures retries == old(retries) && taken == old(taken) + 1
      ensures status == match old(status)
                        case Uninitialized => Initialized
                        case Restarting => Restarted
                        case other => other
    {
      taken := taken + 1;
      var epoch, stale := store.TakeSnapshot(id);
      if status == Uninitialized {
        status := Initialized;
      } else if status == Restarting {
        status := Restarted;
      }
    }

    /** Taking the snapshot anew at the current epoch, unless it is at the given epoch already.  The local values come
        along, though they were copied from the snapshot before.  Registering finds the status that removing leaves
        behind, and does not change it. */
    method SetEpoch(newEpoch: Epoch)
      requires Valid()
      modifies this`status, this`taken, store, store.table.objs
      ensures Valid()
      ensures newEpoch == old(store.epochOf)[id] ==>
                && status == old(status) && taken == old(taken)
                && store.model == old(store.model) && store.boxes == old(store.boxes)
      ensures newEpoch != old(store.epochOf)[id] ==>
                && status == Restarting0A && taken == old(taken) + 1
                && store.epochOf == old(store.epochOf)[id := store.currentEpoch]
                && store.boxes == old(store.boxes)[id := Kept(old(store.boxes)[id])]
                && store.model.ideal == old(store.model).ideal
      ensures store.boxes == old(store.boxes)[id := store.boxes[id]]
      ensures store.boxes[id].Keys == old(store.boxes)[id].Keys
      ensures forall x :: x in store.boxes[id] ==>
                && store.boxes[id][x].value == old(store.boxes)[id][x].value
                && store.boxes[id][x].base == old(store.boxes)[id][x].base
      ensures old(store.boxes)[id] == map[] ==> store.boxes == old(store.boxes)
      ensures store.currentEpoch == old(store.currentEpoch) && retries == old(retries)
    {
      PutSame(store.boxes, id);
      if newEpoch != store.epochOf[id] {
        PutBack(store.epochOf, id, store.currentEpoch);
        Remove();
        RegisterMe();
      }
    }

    method Remove()
      requires Valid()
      modifies this`status, store, store.table.objs
      ensures store.Valid() && status == Restarting0A && retries == old(retries) && taken == old(taken)
      ensures store.epochOf == old(store.epochOf) - {id} && store.boxes == old(store.boxes)
      ensures store.model.ideal == old(store.model).ideal && store.currentEpoch == old(store.currentEpoch)
    {
      status := Restarting0;
      status := Restarting0A;
      Unregister();
    }

    method Unregister()
      requires Valid()
      modifies store, store.table.objs
      ensures store.Valid() && status == old(status) && retries == old(retries) && taken == old(taken)
      ensures store.epochOf == old(store.epochOf) - {id} && store.boxes == old(store.boxes)
      ensures store.model.ideal == old(store.model).ideal && store.currentEpoch == old(store.currentEpoch)
    {
      var ok := store.RemoveSnapshot(id);
    }

    method Restart()
      requires Valid()
      modifies this`status, this`retries, this`taken, store, store.table.objs
      ensures Valid() && retries == old(retries) + 1 && store.currentEpoch == old(store.currentEpoch)
      ensures store.epochOf == old(store.epochOf)[id := store.currentEpoch]
      ensures store.model.ideal == old(store.model).ideal
      ensures var was := old(store.epochOf)[id];
              if was == store.currentEpoch then
                status == Restarting && taken == old(taken) && store.model == old(store.model)
              else
                && status == Restarting0A && taken == old(taken) + 1
                && store.boxes == old(store.boxes)[id := Kept(old(store.boxes)[id])]
      ensures store.boxes == old(store.boxes)[id := store.boxes[id]]
      ensures store.boxes[id].Keys == old(store.boxes)[id].Keys
      ensures forall x :: x in store.boxes[id] ==>
                && store.boxes[id][x].value == old(store.boxes)[id][x].value
                && store.boxes[id][x].base == old(store.boxes)[id][x].base
      ensures old(store.boxes)[id] == map[] ==> store.boxes == old(store.boxes)
    {
      status := Restarting;
      retries := retries + 1;
      PutSame(store.epochOf, id);
      SetEpoch(store.currentEpoch);
    }

    /** Either way the local values are gone and the snapshot is taken anew at the current epoch, once after a commit
        and twice after a refusal, which counts as one more retry.  The status always ends up as the one that
        removing a snapshot sets. */
    method Commit(order: seq<Obj>) returns (ok: bool)
      requires Valid() && NoDup(order) && forall x :: x in order <==> x in store.boxes[id]
      modifies this`status, this`retries, this`taken, store, store.table.objs
      ensures Valid() && ok == Current(old(store.model), id, order)
      ensures status == Restarting0A && retries == old(retries) + if ok then 0 else 1
      ensures taken == old(taken) + if ok then 1 else 2
      ensures store.currentEpoch == old(store.currentEpoch) + if ok then 1 else 0
      ensures store.epochOf == old(store.epochOf)[id := store.currentEpoch]
      ensures store.boxes == old(store.boxes)[id := map[]]
      ensures store.model.ideal ==
              if ok then PushAll(old(store.model).ideal, order, old(store.boxes)[id], store.currentEpoch)
              else old(store.model).ideal
    {
      status := Committing;
      var result;
      ok, result := CommitSandbox(order);
      Finish(result);
    }

    method Finish(result: Epoch)
      requires Valid() && store.boxes[id] == map[] && 1 <= store.epochOf[id] <= store.currentEpoch
      requires if result != 0 then store.epochOf[id] < result else store.epochOf[id] < store.currentEpoch
      modifies this`status, this`retries, this`taken, store, store.table.objs
      ensures Valid() && status == Restarting0A && retries == old(retries) + if result != 0 then 0 else 1
      ensures taken == old(taken) + if result != 0 then 1 else 2
      ensures store.epochOf == old(store.epochOf)[id := store.currentEpoch]
      ensures store.model.ideal == old(store.model).ideal
      ensures store.currentEpoch == old(store.currentEpoch) && store.boxes == old(store.boxes)
    {
      PutTwice(store.epochOf, id, store.currentEpoch);
      status := if result != 0 then Committed else Failed;
      if result == 0 {
        Restart();
      }
      SetEpoch(result);
    }

    method CommitLocals(order: seq<Obj>) returns (result: Epoch, ghost stale: nat)
      requires Valid() && NoDup(order) && forall x :: x in order <==> x in store.boxes[id]
      modifies store, store.table.objs
      ensures store.Valid() && CanCommit(old(store.model), id, order) && retries == old(retries) && taken == old(taken)
      ensures result == if Current(old(store.model), id, order) then old(store.currentEpoch) + 1 else 0
      ensures result == 0 ==> FirstStale(old(store.model), id, order, stale)
      ensures Legal(old(store.model), CommitSteps(id, order, result != 0, stale))
      ensures store.model == Run(old(store.model), CommitSteps(id, order, result != 0, stale))
    {
      var thrown;
      result, thrown, stale := store.Commit(id, order);
    }

    method CommitSandbox(order: seq<Obj>) returns (ok: bool, result: Epoch)
      requires Valid() && NoDup(order) && forall x :: x in order <==> x in store.boxes[id]
      modifies store, store.table.objs
      ensures Valid() && ok == Current(old(store.model), id, order) && retries == old(retries) && taken == old(taken)
      ensures result == (if ok then store.currentEpoch else 0) && (ok <==> result != 0)
      ensures store.currentEpoch == old(store.currentEpoch) + if ok then 1 else 0
      ensures store.epochOf == old(store.epochOf) && store.boxes == old(store.boxes)[id := map[]]
      ensures 1 <= store.epochOf[id] < store.currentEpoch
      ensures store.model.ideal ==
              if ok then PushAll(old(store.model).ideal, order, old(store.boxes)[id], store.currentEpoch)
              else old(store.model).ideal
    {
      ghost var m := store.model;
      ghost var k := SnapEntry(m, id);
      ghost var stale;
      result, stale := CommitLocals(order);
      ok := result != 0;
      Outcomes(m, id, order, ok, stale);
      if !ok {
        StaleIsBehind(m, id, order, stale);
      }
    }
  }

  /** The same objects with the same values, copied from the same ones. */
  ghost predicate SameLocals(box: Box, box': Box) {
    box'.Keys == box.Keys && forall x :: x in box' ==> box'[x].value == box[x].value && box'[x].base == box[x].base
  }

  lemma NewestByCurrent(m: State, x: Obj)
    requires Inv(m) && m.phase.Idle? && x < |m.hist|
    ensures NewestFrom(m.hist[x]) <= m.info.current
  {
    NewestIs(m, x);
  }

  /** A snapshot that some object refuses is behind the current epoch. */
  lemma StaleIsBehind(m: State, n: Snap, order: seq<Obj>, i: nat)
    requires Inv(m) && CanCommit(m, n, order) && FirstStale(m, n, order, i)
    ensures m.epochOf[n] < m.info.current
  {
    var x := order[i];
    NewestByCurrent(m, x);
  }

  lemma Outcomes(m: State, n: Snap, order: seq<Obj>, through: bool, stale: nat)
    requires CanCommit(m, n, order) && (through <==> Current(m, n, order))
    requires !through ==> FirstStale(m, n, order, stale)
    ensures Legal(m, CommitSteps(n, order, through, stale))
    ensures var r := Run(m, CommitSteps(n, order, through, stale));
            && r.epochOf == m.epochOf && r.boxes == m.boxes[n := map[]]
            && r.info.current == (if through then m.info.current + 1 else m.info.current)
            && r.ideal == if through then PushAll(m.ideal, order, m.boxes[n], m.info.current + 1) else m.ideal
  {
    if through {
      CommitGoesThrough(m, n, order);
    } else {
      CommitIsRefused(m, n, order, stale);
    }
  }

  lemma PutSame<T>(m: map<Snap, T>, n: Snap)
    requires n in m
    ensures m[n := m[n]] == m
  {
  }

  lemma PutTwice<T>(m: map<Snap, T>, n: Snap, v: T)
    ensures m[n := v][n := v] == m[n := v]
  {
  }

  lemma PutBack<T>(m: map<Snap, T>, n: Snap, v: T)
    ensures (m - {n})[n := v] == m[n := v]
  {
  }
}
