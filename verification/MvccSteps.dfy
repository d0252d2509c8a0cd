/** Every step of the store keeps its invariant. */
module MvccSteps {
  import opened Histories
  import opened Snapshots
  import opened Mvcc

  // ---------------------------------------------------------------------------------------------
  // Names of versions
  // ---------------------------------------------------------------------------------------------

  lemma KeysIncrease(h: History<int>, first: nat, i: nat, j: nat)
    requires Sorted(h) && (|h.past| > 0 ==> first < h.past[0].validTo) && i <= |h.past| && j <= |h.past|
    ensures i < j ==> Key(h, first, i) < Key(h, first, j)
    ensures Key(h, first, i) == Key(h, first, j) ==> i == j
  {
  }

  lemma OutstandingExpected(s: State, t: Token)
    requires Inv(s) && t in Outstanding(s)
    ensures Expected(s, t) && Outstanding(s)[t] == 1
  {
  }

  lemma EndedByCurrent(h: History<int>, ideal: History<int>, first: nat, ahead: bool, open: bool, info: Info, i: nat)
    requires ObjOk(h, ideal, first, ahead, open, info) && i < |h.past| && Awaited(h, first, ahead, Key(h, first, i))
    ensures h.past[i].validTo <= info.current
  {
  }

  /** Every version with a cleanup outstanding has ended by the current epoch. */
  lemma BeyondCurrent(s: State, t: Token)
    requires Inv(s) && t in Outstanding(s)
    ensures Beyond(s.hist, s.firstKey, t, s.info.current)
  {
    OutstandingExpected(s, t);
    var h, first := s.hist[t.obj], s.firstKey[t.obj];
    forall i | 0 <= i < |h.past| && Key(h, first, i) == t.validFrom
      ensures s.info.current >= h.past[i].validTo
    {
      EndedByCurrent(h, s.ideal[t.obj], first, t.obj in Ahead(s.phase), Open(s.phase, t.obj), s.info, i);
    }
  }

  // ---------------------------------------------------------------------------------------------
  // Taking a snapshot
  // ---------------------------------------------------------------------------------------------

  /** A reader at the current epoch sees the newest committed version. */
  lemma CurrentReads(h: History<int>, ideal: History<int>, first: nat, ahead: bool, open: bool, info: Info)
    requires ObjOk(h, ideal, first, ahead, open, info)
    ensures ValueAt(h, info.current) == ideal.current == ValueAt(ideal, info.current)
  {
    NewestReads(ideal, info.current);
    if open {
      PopReads(h, info.current);
    }
    NewestReads(Settled(h, open), info.current);
  }

  lemma TakeEpochs(info: Info, n: Snap, m: nat)
    requires m < |Register(info, n).entries|
    ensures var es' := Register(info, n).entries;
            || es'[m].epoch == info.current
            || (m < |info.entries| && es'[m] == info.entries[m])
    ensures m + 1 < |Register(info, n).entries| ==>
              m < |info.entries| && Register(info, n).entries[m] == info.entries[m]
    ensures m + 1 == |Register(info, n).entries| ==> Register(info, n).entries[m].epoch == info.current
  {
  }

  lemma TakeObjs(s: State, n: Snap)
    requires Inv(s) && n !in s.epochOf
    ensures ObjsOk(ApplyTake(s, n))
  {
    var s' := ApplyTake(s, n);
    forall x | 0 <= x < |s.hist|
      ensures ObjOk(s'.hist[x], s'.ideal[x], s'.firstKey[x], x in Ahead(s'.phase), Open(s'.phase, x), s'.info)
    {
      CurrentReads(s.hist[x], s.ideal[x], s.firstKey[x], x in Ahead(s.phase), Open(s.phase, x), s.info);
      forall k | 0 <= k < |s'.info.entries|
        ensures s'.firstKey[x] <= s'.info.entries[k].epoch
        ensures ValueAt(s'.hist[x], s'.info.entries[k].epoch) == ValueAt(s'.ideal[x], s'.info.entries[k].epoch)
        ensures |Settled(s.hist[x], Open(s.phase, x)).past| == 0 ==> s'.info.entries[k].epoch >= NewestFrom(s.ideal[x])
      {
        TakeEpochs(s.info, n, k);
      }
    }
  }

  lemma TakeSnaps(info: Info, epochOf: map<Snap, Epoch>, n: Snap)
    requires InfoOk(info) && SnapsOk(info, epochOf) && n !in epochOf
    ensures SnapsOk(Register(info, n), epochOf[n := info.current])
  {
    var es, es' := info.entries, Register(info, n).entries;
    var epochOf' := epochOf[n := info.current];
    RegisterKeepsInfo(info, n);
    forall k, q | 0 <= k < |es'| && q in es'[k].snapshots
      ensures q in epochOf' && epochOf'[q] == es'[k].epoch
    {
      assert k < |es| && q in es[k].snapshots ==> q in epochOf && epochOf[q] == es[k].epoch;
    }
    forall q | q in epochOf'
      ensures HeldAt(es', epochOf'[q], q)
    {
      if q == n {
        assert n in es'[|es'| - 1].snapshots && es'[|es'| - 1].epoch == epochOf'[n];
      } else {
        var k :| 0 <= k < |es| && es[k].epoch == epochOf[q] && q in es[k].snapshots;
        assert q in es'[k].snapshots && es'[k].epoch == epochOf'[q];
      }
    }
  }

  lemma TakeTokens(s: State, n: Snap)
    requires Inv(s) && n !in s.epochOf
    ensures TokensOk(ApplyTake(s, n))
  {
    var s' := ApplyTake(s, n);
    RegisterListsNothing(s.info, n);
    forall t: Token
      ensures Outstanding(s')[t] == if Expected(s', t) then 1 else 0
    {
      assert Expected(s', t) == Expected(s, t);
    }
  }

  lemma TakeSafe(s: State, n: Snap)
    requires Inv(s) && n !in s.epochOf
    ensures ListedSafe(ApplyTake(s, n)) && InflightSafe(ApplyTake(s, n))
  {
    var s' := ApplyTake(s, n);
    forall k, t, m | 0 <= k < m < |s'.info.entries| && t in s'.info.entries[k].cleanups
      ensures Beyond(s'.hist, s'.firstKey, t, s'.info.entries[m].epoch)
    {
      TakeEpochs(s.info, n, k);
      TakeEpochs(s.info, n, m);
      ListedHas(s.info.entries, k, t);
      BeyondCurrent(s, t);
    }
    forall t, m | t in s'.inflight && 0 <= m < |s'.info.entries|
      ensures s'.info.entries[m].epoch < t.validFrom || Beyond(s'.hist, s'.firstKey, t, s'.info.entries[m].epoch)
    {
      TakeEpochs(s.info, n, m);
      BeyondCurrent(s, t);
    }
  }

  lemma TakeBoxes(s: State, n: Snap)
    requires Inv(s) && n !in s.epochOf
    ensures BoxesOk(ApplyTake(s, n)) && LogOk(ApplyTake(s, n))
  {
  }

  lemma TakeKeeps(s: State, n: Snap)
    requires Inv(s) && n !in s.epochOf
    ensures Inv(ApplyTake(s, n))
  {
    RegisterKeepsInfo(s.info, n);
    TakeObjs(s, n);
    TakeSnaps(s.info, s.epochOf, n);
    TakeTokens(s, n);
    TakeSafe(s, n);
    TakeBoxes(s, n);
  }

  // ---------------------------------------------------------------------------------------------
  // Dropping a snapshot
  // ---------------------------------------------------------------------------------------------

  /** The old index of entry `m` of the table after snapshot `n` left entry `k`. */
  function OldIndex(info: Info, n: Snap, k: nat, m: nat): nat
    requires k < |info.entries|
  {
    if info.entries[k].snapshots - {n} == {} && m >= k then m + 1 else m
  }

  lemma LeaveEntries(info: Info, n: Snap, k: nat, m: nat)
    requires k < |info.entries| && m < |Leave(info, n, k).0.entries|
    ensures OldIndex(info, n, k, m) < |info.entries|
    ensures var es' := Leave(info, n, k).0.entries;
            var o := OldIndex(info, n, k, m);
            && es'[m].epoch == info.entries[o].epoch
            && es'[m].snapshots == (if o == k then info.entries[o].snapshots - {n} else info.entries[o].snapshots)
            && (forall t :: t in es'[m].cleanups ==>
                  || t in info.entries[o].cleanups
                  || (m + 1 == k && info.entries[k].snapshots - {n} == {} && t in info.entries[k].cleanups))
  {
    var es := info.entries;
    var info' := info.(entries := es[k := es[k].(snapshots := es[k].snapshots - {n})]);
    if es[k].snapshots - {n} == {} {
      DropEntries(info', k);
      if k > 0 {
        NeededSplits(es[k].cleanups, es[k - 1].epoch);
      }
    }
  }

  lemma LeaveObjs(s: State, n: Snap, k: nat)
    requires Inv(s) && k < |s.info.entries|
    ensures ObjsOk(s.(info := Leave(s.info, n, k).0))
  {
    var s' := s.(info := Leave(s.info, n, k).0);
    forall x | 0 <= x < |s.hist|
      ensures ObjOk(s'.hist[x], s'.ideal[x], s'.firstKey[x], x in Ahead(s'.phase), Open(s'.phase, x), s'.info)
    {
      assert ObjOk(s.hist[x], s.ideal[x], s.firstKey[x], x in Ahead(s.phase), Open(s.phase, x), s.info);
      forall m | 0 <= m < |s'.info.entries|
        ensures exists o :: 0 <= o < |s.info.entries| && s'.info.entries[m].epoch == s.info.entries[o].epoch
      {
        LeaveEntries(s.info, n, k, m);
      }
    }
  }

  lemma LeaveMembers(info: Info, epochOf: map<Snap, Epoch>, n: Snap, k: nat, m: nat, q: Snap)
    requires InfoOk(info) && SnapsOk(info, epochOf) && n in epochOf && k < |info.entries|
    requires info.entries[k].epoch == epochOf[n]
    requires m < |Leave(info, n, k).0.entries| && q in Leave(info, n, k).0.entries[m].snapshots
    ensures q in epochOf && q != n && epochOf[q] == Leave(info, n, k).0.entries[m].epoch
  {
    LeaveEntries(info, n, k, m);
    var o := OldIndex(info, n, k, m);
    IndexOfEntry(info.entries, o);
    assert q in epochOf && epochOf[q] == info.entries[o].epoch;
  }

  lemma LeaveAllMembers(info: Info, epochOf: map<Snap, Epoch>, n: Snap, k: nat)
    requires InfoOk(info) && SnapsOk(info, epochOf) && n in epochOf && k < |info.entries|
    requires info.entries[k].epoch == epochOf[n]
    ensures forall m, q :: 0 <= m < |Leave(info, n, k).0.entries| && q in Leave(info, n, k).0.entries[m].snapshots ==>
              q in epochOf - {n} && epochOf[q] == Leave(info, n, k).0.entries[m].epoch
  {
    forall m, q | 0 <= m < |Leave(info, n, k).0.entries| && q in Leave(info, n, k).0.entries[m].snapshots
      ensures q in epochOf - {n} && epochOf[q] == Leave(info, n, k).0.entries[m].epoch
    {
      LeaveMembers(info, epochOf, n, k, m, q);
    }
  }

  lemma LeaveSnaps(info: Info, epochOf: map<Snap, Epoch>, n: Snap, k: nat)
    requires InfoOk(info) && SnapsOk(info, epochOf) && n in epochOf && k < |info.entries|
    requires info.entries[k].epoch == epochOf[n]
    ensures SnapsOk(Leave(info, n, k).0, epochOf - {n})
  {
    LeaveAllMembers(info, epochOf, n, k);
    forall q | q in epochOf - {n}
      ensures HeldAt(Leave(info, n, k).0.entries, (epochOf - {n})[q], q)
    {
      LeaveFinds(info, epochOf, n, k, q);
    }
  }

  lemma LeaveFinds(info: Info, epochOf: map<Snap, Epoch>, n: Snap, k: nat, q: Snap)
    requires InfoOk(info) && SnapsOk(info, epochOf) && k < |info.entries| && q in epochOf && q != n
    ensures HeldAt(Leave(info, n, k).0.entries, epochOf[q], q)
  {
    var es, es' := info.entries, Leave(info, n, k).0.entries;
    var o :| 0 <= o < |es| && es[o].epoch == epochOf[q] && q in es[o].snapshots;
    var gone := es[k].snapshots - {n} == {};
    var m := if gone && o > k then o - 1 else o;
    if gone {
      assert o != k;
      assert |es'| == |es| - 1;
    }
    LeaveEntries(info, n, k, m);
    assert es'[m].epoch == epochOf[q] && q in es'[m].snapshots;
  }

  lemma LeaveListed(s: State, n: Snap, k: nat)
    requires Inv(s) && k < |s.info.entries|
    ensures ListedSafe(s.(info := Leave(s.info, n, k).0))
  {
    var s' := s.(info := Leave(s.info, n, k).0);
    forall a, t, b | 0 <= a < b < |s'.info.entries| && t in s'.info.entries[a].cleanups
      ensures Beyond(s'.hist, s'.firstKey, t, s'.info.entries[b].epoch)
    {
      LeaveEntries(s.info, n, k, a);
      LeaveEntries(s.info, n, k, b);
    }
  }

  /** A cleanup that is handed back names a version that no remaining snapshot sees. */
  lemma LeaveHandsBack(s: State, n: Snap, k: nat, t: Token, m: nat)
    requires Inv(s) && k < |s.info.entries| && t in Leave(s.info, n, k).1 && m < |Leave(s.info, n, k).0.entries|
    ensures t in s.info.entries[k].cleanups
    ensures var e := Leave(s.info, n, k).0.entries[m].epoch;
            e < t.validFrom || Beyond(s.hist, s.firstKey, t, e)
  {
    var es := s.info.entries;
    LeaveEntries(s.info, n, k, m);
    if k > 0 {
      NeededSplits(es[k].cleanups, es[k - 1].epoch);
      assert m < k ==> es[m].epoch <= es[k - 1].epoch;
    }
  }

  lemma DropTokens(s: State, n: Snap)
    requires Inv(s) && n in s.epochOf && (s.phase.Idle? || s.phase.snap != n)
    ensures TokensOk(ApplyDrop(s, n))
  {
    var k := IndexOf(s.info.entries, s.epochOf[n]);
    var s' := ApplyDrop(s, n);
    if k < |s.info.entries| {
      LeaveConserves(s.info, n, k);
    }
    forall t: Token
      ensures Outstanding(s')[t] == if Expected(s', t) then 1 else 0
    {
      assert Expected(s', t) == Expected(s, t);
    }
  }

  lemma DropInflight(s: State, n: Snap)
    requires Inv(s) && n in s.epochOf && (s.phase.Idle? || s.phase.snap != n)
    ensures InflightSafe(ApplyDrop(s, n))
  {
    var k := IndexOf(s.info.entries, s.epochOf[n]);
    var s' := ApplyDrop(s, n);
    if k < |s.info.entries| {
      forall t, m | t in s'.inflight && 0 <= m < |s'.info.entries|
        ensures s'.info.entries[m].epoch < t.validFrom || Beyond(s'.hist, s'.firstKey, t, s'.info.entries[m].epoch)
      {
        LeaveEntries(s.info, n, k, m);
        if t !in s.inflight {
          LeaveHandsBack(s, n, k, t, m);
        }
      }
    }
  }

  lemma DropBoxes(s: State, n: Snap)
    requires Inv(s) && n in s.epochOf && (s.phase.Idle? || s.phase.snap != n)
    ensures BoxesOk(ApplyDrop(s, n)) && LogOk(ApplyDrop(s, n))
  {
  }

  lemma DropKeeps(s: State, n: Snap)
    requires Inv(s) && n in s.epochOf && (s.phase.Idle? || s.phase.snap != n)
    ensures Inv(ApplyDrop(s, n))
  {
    var k := SnapEntry(s, n);
    var s' := ApplyDrop(s, n);
    LeaveKeepsInfo(s.info, n, k);
    LeaveObjs(s, n, k);
    assert ObjsOk(s');
    LeaveSnaps(s.info, s.epochOf, n, k);
    LeaveListed(s, n, k);
    assert ListedSafe(s');
    DropTokens(s, n);
    DropInflight(s, n);
    DropBoxes(s, n);
  }

  // ---------------------------------------------------------------------------------------------
  // Steps that touch only a transaction's own state
  // ---------------------------------------------------------------------------------------------

  /** A registered snapshot's epoch is an entry of the table. */
  lemma SnapEntry(s: State, n: Snap) returns (k: nat)
    requires Inv(s) && n in s.epochOf
    ensures k == IndexOf(s.info.entries, s.epochOf[n]) < |s.info.entries|
    ensures s.info.entries[k].epoch == s.epochOf[n] && n in s.info.entries[k].snapshots
  {
    assert HeldAt(s.info.entries, s.epochOf[n], n);
    k :| 0 <= k < |s.info.entries| && s.info.entries[k].epoch == s.epochOf[n] && n in s.info.entries[k].snapshots;
    IndexOfEntry(s.info.entries, k);
  }

  /** `s'` differs from `s` only in the transactions' copies and in a phase with the same objects ahead. */
  ghost predicate LocalChange(s: State, s': State) {
    && s'.info == s.info && s'.hist == s.hist && s'.epochOf == s.epochOf && s'.inflight == s.inflight
    && s'.ideal == s.ideal && s'.firstKey == s.firstKey && s'.log == s.log && s'.since == s.since
    && forall x :: (x in Ahead(s'.phase) <==> x in Ahead(s.phase)) && (Open(s'.phase, x) <==> Open(s.phase, x))
  }

  lemma LocalObjs(s: State, s': State)
    requires WF(s) && WF(s') && ObjsOk(s) && LocalChange(s, s')
    ensures ObjsOk(s')
  {
  }

  lemma LocalTokens(s: State, s': State)
    requires WF(s) && WF(s') && TokensOk(s) && LocalChange(s, s')
    ensures TokensOk(s')
  {
    forall t: Token
      ensures Outstanding(s')[t] == if Expected(s', t) then 1 else 0
    {
      assert Expected(s', t) == Expected(s, t);
    }
  }

  lemma LocalKeeps(s: State, s': State)
    requires Inv(s) && WF(s') && NextEpoch(s') && BoxesOk(s') && LocalChange(s, s')
    ensures Inv(s')
  {
    LocalObjs(s, s');
    LocalTokens(s, s');
  }

  /** A copy taken from the cleaned-up history is the ideal value. */
  lemma MutateCopies(s: State, n: Snap, x: Obj)
    requires Inv(s) && n in s.epochOf && x < |s.hist|
    ensures ValueAt(s.hist[x], s.epochOf[n]) == ValueAt(s.ideal[x], s.epochOf[n])
  {
    var k := SnapEntry(s, n);
    NewestIs(s, x);
  }

  lemma MutateBoxes(s: State, n: Snap, x: Obj)
    requires WF(s) && BoxesOk(s) && n in s.epochOf && x < |s.hist|
    requires ValueAt(s.hist[x], s.epochOf[n]) == ValueAt(s.ideal[x], s.epochOf[n])
    ensures BoxesOk(ApplyMutate(s, n, x))
  {
  }

  lemma MutateKeeps(s: State, n: Snap, x: Obj)
    requires Inv(s) && n in s.epochOf && x < |s.hist|
    ensures Inv(ApplyMutate(s, n, x))
  {
    MutateCopies(s, n, x);
    MutateBoxes(s, n, x);
    LocalKeeps(s, ApplyMutate(s, n, x));
  }

  lemma AssignBoxes(s: State, n: Snap, x: Obj, v: int)
    requires WF(s) && BoxesOk(s) && n in s.epochOf && x in s.boxes[n]
    ensures BoxesOk(ApplyAssign(s, n, x, v))
  {
  }

  lemma AssignKeeps(s: State, n: Snap, x: Obj, v: int)
    requires Inv(s) && n in s.epochOf && x in s.boxes[n]
    ensures Inv(ApplyAssign(s, n, x, v))
  {
    AssignBoxes(s, n, x, v);
    LocalKeeps(s, ApplyAssign(s, n, x, v));
  }

  lemma ClearKeeps(s: State, n: Snap)
    requires Inv(s)
    ensures Inv(s.(boxes := s.boxes[n := map[]]))
  {
    LocalKeeps(s, s.(boxes := s.boxes[n := map[]]));
  }

  lemma BeginKeeps(s: State, n: Snap, order: seq<Obj>)
    requires Inv(s) && s.phase.Idle? && n in s.epochOf && NoDup(order) && (forall x :: x in order <==> x in s.boxes[n])
    ensures Inv(ApplyBegin(s, n, order))
  {
    LocalKeeps(s, ApplyBegin(s, n, order));
  }

  lemma FinishKeeps(s: State)
    requires Inv(s) && Enabled(s, Finish)
    ensures Inv(s.(phase := Idle))
  {
    LocalKeeps(s, s.(phase := Idle));
  }

  // ---------------------------------------------------------------------------------------------
  // Setting up an object
  // ---------------------------------------------------------------------------------------------

  lemma NewestIs(s: State, x: Obj)
    requires Inv(s) && x < |s.hist|
    ensures ObjOk(s.hist[x], s.ideal[x], s.firstKey[x], x in Ahead(s.phase), Open(s.phase, x), s.info)
  {
  }

  lemma CurrentEntry(h: History<int>, ideal: History<int>, first: nat, ahead: bool, open: bool, info: Info, k: nat)
    requires ObjOk(h, ideal, first, ahead, open, info) && k < |info.entries|
    ensures ValueAt(h, info.entries[k].epoch) == ValueAt(ideal, info.entries[k].epoch)
  {
  }

  /** An outstanding cleanup never names the newest version. */
  lemma OutstandingOlder(s: State, t: Token)
    requires Inv(s) && t in Outstanding(s)
    ensures t.obj < |s.hist|
    ensures var h := s.hist[t.obj];
            t.validFrom != Key(h, s.firstKey[t.obj], |h.past|) && t.validFrom <= s.info.current
  {
    OutstandingExpected(s, t);
    NewestIs(s, t.obj);
    var h, first := s.hist[t.obj], s.firstKey[t.obj];
    var n := |h.past| - (if t.obj in Ahead(s.phase) then 1 else 0);
    var j :| 0 <= j < n && Key(h, first, j) == t.validFrom;
    KeysIncrease(h, first, j, |h.past|);
    BeyondCurrent(s, t);
    KeysIncrease(h, first, j, j + 1);
  }

  /** The check of the set-up is exact: it passes only if no newer version than the reader's was committed. */
  lemma SetupCheck(s: State, n: Snap, x: Obj)
    requires Inv(s) && n in s.epochOf && x < |s.hist| && !Open(s.phase, x)
    ensures NewestFrom(s.hist[x]) <= s.epochOf[n] <==> NewestFrom(s.ideal[x]) <= s.epochOf[n]
  {
    var k := SnapEntry(s, n);
    NewestIs(s, x);
  }

  lemma SetupPhase(s: State)
    requires WF(s) && s.phase.SettingUp? && s.phase.done < |s.phase.order|
    ensures NextObj(s) !in Ahead(s.phase)
    ensures NewestFrom(s.hist[NextObj(s)]) <= s.epochOf[s.phase.snap] ==>
              forall x :: x in Ahead(ApplySetup(s).phase) <==> x in Ahead(s.phase) || x == NextObj(s)
    ensures NewestFrom(s.hist[NextObj(s)]) > s.epochOf[s.phase.snap] ==> Ahead(ApplySetup(s).phase) == Ahead(s.phase)
  {
  }

  lemma PushObj(h: History<int>, ideal: History<int>, first: nat, info: Info, v: int)
    requires ObjOk(h, ideal, first, false, false, info) && InfoOk(info)
    ensures ObjOk(Push(h, info.current + 1, v), ideal, first, true, true, info)
  {
    var to := info.current + 1;
    PopUndoesPush(h, to, v);
    PushReads(h, to, v, 0);
    forall k | 0 <= k < |info.entries|
      ensures ValueAt(Push(h, to, v), info.entries[k].epoch) == ValueAt(ideal, info.entries[k].epoch)
    {
      CurrentEntry(h, ideal, first, false, false, info, k);
      PushReads(h, to, v, info.entries[k].epoch);
    }
  }

  lemma SetupObjs(s: State)
    requires WF(s) && NextEpoch(s) && ObjsOk(s) && InfoOk(s.info) && s.phase.SettingUp?
    requires s.phase.done < |s.phase.order|
    requires NewestFrom(s.hist[NextObj(s)]) <= s.epochOf[s.phase.snap]
    ensures ObjsOk(ApplySetup(s))
  {
    var s' := ApplySetup(s);
    forall x | 0 <= x < |s.hist|
      ensures ObjOk(s'.hist[x], s'.ideal[x], s'.firstKey[x], x in Ahead(s'.phase), Open(s'.phase, x), s'.info)
    {
      SetupObjAt(s, x);
    }
  }

  lemma SetupObjAt(s: State, x: Obj)
    requires WF(s) && NextEpoch(s) && InfoOk(s.info) && s.phase.SettingUp? && s.phase.done < |s.phase.order|
    requires x < |s.hist|
    requires NewestFrom(s.hist[NextObj(s)]) <= s.epochOf[s.phase.snap]
    requires ObjOk(s.hist[x], s.ideal[x], s.firstKey[x], x in Ahead(s.phase), Open(s.phase, x), s.info)
    ensures var s' := ApplySetup(s);
            ObjOk(s'.hist[x], s'.ideal[x], s'.firstKey[x], x in Ahead(s'.phase), Open(s'.phase, x), s'.info)
  {
    var s' := ApplySetup(s);
    var h, ideal, first, info, v := s.hist[x], s.ideal[x], s.firstKey[x], s.info, s.phase.box[NextObj(s)].value;
    var ahead := x in Ahead(s.phase);
    assert Open(s.phase, x) == ahead;
    var ahead' := x in Ahead(s'.phase);
    assert Open(s'.phase, x) == ahead';
    assert ahead' == (ahead || x == NextObj(s)) && !(ahead && x == NextObj(s)) by { SetupPhase(s); }
    assert s'.hist[x] == if x == NextObj(s) then Push(h, info.current + 1, v) else h;
    if x == NextObj(s) {
      PushObj(h, ideal, first, info, v);
    }
  }

  lemma PushAwaited(h: History<int>, first: nat, to: nat, v: int, vf: nat)
    ensures Awaited(Push(h, to, v), first, true, vf) == Awaited(h, first, false, vf)
  {
    var h' := Push(h, to, v);
    assert forall i :: 0 <= i <= |h.past| ==> Key(h', first, i) == Key(h, first, i);
  }

  lemma SetupExpected(s: State, t: Token)
    requires WF(s) && s.phase.SettingUp? && s.phase.done < |s.phase.order|
    requires NewestFrom(s.hist[NextObj(s)]) <= s.epochOf[s.phase.snap]
    ensures Expected(ApplySetup(s), t) == Expected(s, t)
  {
    SetupPhase(s);
    var x := NextObj(s);
    if t.obj == x {
      PushAwaited(s.hist[x], s.firstKey[x], s.phase.to, s.phase.box[x].value, t.validFrom);
    }
  }

  lemma SetupTokens(s: State)
    requires WF(s) && TokensOk(s) && s.phase.SettingUp? && s.phase.done < |s.phase.order|
    requires NewestFrom(s.hist[NextObj(s)]) <= s.epochOf[s.phase.snap]
    ensures TokensOk(ApplySetup(s))
  {
    forall t: Token
      ensures Outstanding(ApplySetup(s))[t] == if Expected(ApplySetup(s), t) then 1 else 0
    {
      SetupExpected(s, t);
    }
  }

  /** No cleanup in `ts` names the newest version of its object. */
  ghost predicate OlderOnly(ts: multiset<Token>, hist: seq<History<int>>, firstKey: seq<nat>)
    requires |hist| == |firstKey|
  {
    forall t :: t in ts && t.obj < |hist| ==>
      t.validFrom != Key(hist[t.obj], firstKey[t.obj], |hist[t.obj].past|)
  }

  lemma AllOlder(s: State)
    requires Inv(s)
    ensures OlderOnly(Listed(s.info.entries), s.hist, s.firstKey) && OlderOnly(s.inflight, s.hist, s.firstKey)
  {
    forall t | t in Outstanding(s)
      ensures t.obj < |s.hist| && t.validFrom != Key(s.hist[t.obj], s.firstKey[t.obj], |s.hist[t.obj].past|)
    {
      OutstandingOlder(s, t);
    }
  }

  lemma PushBeyond(hist: seq<History<int>>, firstKey: seq<nat>, x: Obj, to: nat, v: int, t: Token, e: Epoch)
    requires |hist| == |firstKey| && x < |hist| && Beyond(hist, firstKey, t, e)
    requires t.obj == x ==> t.validFrom != Key(hist[x], firstKey[x], |hist[x].past|)
    ensures Beyond(hist[x := Push(hist[x], to, v)], firstKey, t, e)
  {
  }

  lemma PushListed(es: seq<Entry>, hist: seq<History<int>>, firstKey: seq<nat>, x: Obj, to: nat, v: int)
    requires |hist| == |firstKey| && x < |hist| && ListedAt(es, hist, firstKey) && OlderOnly(Listed(es), hist, firstKey)
    ensures ListedAt(es, hist[x := Push(hist[x], to, v)], firstKey)
  {
    forall k, t, m | 0 <= k < m < |es| && t in es[k].cleanups
      ensures Beyond(hist[x := Push(hist[x], to, v)], firstKey, t, es[m].epoch)
    {
      ListedHas(es, k, t);
      PushBeyond(hist, firstKey, x, to, v, t, es[m].epoch);
    }
  }

  lemma PushUnseen(es: seq<Entry>, inflight: multiset<Token>, hist: seq<History<int>>, firstKey: seq<nat>, x: Obj,
                   to: nat, v: int)
    requires |hist| == |firstKey| && x < |hist| && UnseenAt(es, inflight, hist, firstKey)
    requires OlderOnly(inflight, hist, firstKey)
    ensures UnseenAt(es, inflight, hist[x := Push(hist[x], to, v)], firstKey)
  {
  }

  lemma SetupSafe(s: State)
    requires WF(s) && s.phase.SettingUp? && s.phase.done < |s.phase.order| && ListedSafe(s) && InflightSafe(s)
    requires OlderOnly(Listed(s.info.entries), s.hist, s.firstKey) && OlderOnly(s.inflight, s.hist, s.firstKey)
    requires NewestFrom(s.hist[NextObj(s)]) <= s.epochOf[s.phase.snap]
    ensures ListedSafe(ApplySetup(s)) && InflightSafe(ApplySetup(s))
  {
    var x := NextObj(s);
    PushListed(s.info.entries, s.hist, s.firstKey, x, s.phase.to, s.phase.box[x].value);
    PushUnseen(s.info.entries, s.inflight, s.hist, s.firstKey, x, s.phase.to, s.phase.box[x].value);
  }

  lemma SetupBoxes(s: State)
    requires Inv(s) && s.phase.SettingUp? && s.phase.done < |s.phase.order|
    requires NewestFrom(s.hist[NextObj(s)]) <= s.epochOf[s.phase.snap]
    ensures BoxesOk(ApplySetup(s))
  {
    SetupPhase(s);
    SetupCheck(s, s.phase.snap, NextObj(s));
  }

  lemma SetupKeeps(s: State)
    requires Inv(s) && s.phase.SettingUp? && s.phase.done < |s.phase.order|
    ensures Inv(ApplySetup(s))
  {
    if NewestFrom(s.hist[NextObj(s)]) > s.epochOf[s.phase.snap] {
      SetupConflict(s);
    } else {
      SetupObjs(s);
      SetupTokens(s);
      AllOlder(s);
      SetupSafe(s);
      SetupBoxes(s);
      SetupLog(s);
    }
  }

  lemma SetupLog(s: State)
    requires WF(s) && LogOk(s) && s.phase.SettingUp? && s.phase.done < |s.phase.order|
    ensures LogOk(ApplySetup(s)) && ApplySetup(s).info == s.info && ApplySetup(s).epochOf == s.epochOf
  {
  }

  lemma SetupConflict(s: State)
    requires Inv(s) && s.phase.SettingUp? && s.phase.done < |s.phase.order|
    requires NewestFrom(s.hist[NextObj(s)]) > s.epochOf[s.phase.snap]
    ensures Inv(ApplySetup(s))
  {
    SetupPhase(s);
    assert BoxesOk(ApplySetup(s));
    LocalKeeps(s, ApplySetup(s));
  }

  // ---------------------------------------------------------------------------------------------
  // Making a commit visible
  // ---------------------------------------------------------------------------------------------

  /** An object that the commit wrote becomes visible with its new version on top. */
  lemma BumpObj(h: History<int>, ideal: History<int>, first: nat, info: Info)
    requires ObjOk(h, ideal, first, true, true, info) && InfoOk(info)
    ensures var to := info.current + 1;
            ObjOk(h, Push(ideal, to, h.current), first, true, false, info.(current := to))
  {
    var to := info.current + 1;
    PushReads(ideal, to, h.current, 0);
    forall k | 0 <= k < |info.entries|
      ensures ValueAt(h, info.entries[k].epoch) == ValueAt(Push(ideal, to, h.current), info.entries[k].epoch)
    {
      CurrentEntry(h, ideal, first, true, true, info, k);
      PushReads(ideal, to, h.current, info.entries[k].epoch);
    }
  }

  lemma BumpOther(h: History<int>, ideal: History<int>, first: nat, info: Info)
    requires ObjOk(h, ideal, first, false, false, info)
    ensures ObjOk(h, ideal, first, false, false, info.(current := info.current + 1))
  {
  }

  lemma BumpObjs(s: State)
    requires WF(s) && NextEpoch(s) && InfoOk(s.info) && ObjsOk(s) && BoxesOk(s) && Enabled(s, Bump)
    ensures ObjsOk(ApplyBump(s))
  {
    var s' := ApplyBump(s);
    forall x | 0 <= x < |s.hist|
      ensures ObjOk(s'.hist[x], s'.ideal[x], s'.firstKey[x], x in Ahead(s'.phase), Open(s'.phase, x), s'.info)
    {
      BumpObjAt(s, x);
    }
  }

  lemma BumpPhase(s: State, x: Obj)
    requires WF(s) && NextEpoch(s) && Enabled(s, Bump) && x < |s.hist|
    ensures var s' := ApplyBump(s);
            && (x in Ahead(s'.phase) <==> x in s.phase.order)
            && (x in Ahead(s.phase) <==> x in s.phase.order)
            && s'.ideal[x] ==
              if x in s.phase.order then Push(s.ideal[x], s.info.current + 1, s.phase.box[x].value) else s.ideal[x]
  {
  }

  lemma BumpObjAt(s: State, x: Obj)
    requires WF(s) && NextEpoch(s) && InfoOk(s.info) && Enabled(s, Bump) && x < |s.hist|
    requires x in Ahead(s.phase) ==> s.hist[x].current == s.phase.box[x].value
    requires ObjOk(s.hist[x], s.ideal[x], s.firstKey[x], x in Ahead(s.phase), Open(s.phase, x), s.info)
    ensures var s' := ApplyBump(s);
            ObjOk(s'.hist[x], s'.ideal[x], s'.firstKey[x], x in Ahead(s'.phase), Open(s'.phase, x), s'.info)
  {
    var s' := ApplyBump(s);
    var h, ideal, first, info := s.hist[x], s.ideal[x], s.firstKey[x], s.info;
    var ahead, ahead' := x in Ahead(s.phase), x in Ahead(s'.phase);
    assert Open(s.phase, x) == ahead && Open(s'.phase, x) == false;
    assert ahead' == ahead && s'.ideal[x] == if ahead then Push(ideal, info.current + 1, h.current) else ideal by {
      BumpPhase(s, x);
    }
    if ahead {
      BumpObj(h, ideal, first, info);
    } else {
      BumpOther(h, ideal, first, info);
    }
  }

  lemma BumpTokens(s: State)
    requires Inv(s) && Enabled(s, Bump)
    ensures TokensOk(ApplyBump(s))
  {
    var s' := ApplyBump(s);
    assert Ahead(s'.phase) == Ahead(s.phase);
    forall t: Token
      ensures Outstanding(s')[t] == if Expected(s', t) then 1 else 0
    {
      assert Expected(s', t) == Expected(s, t);
    }
  }

  lemma BumpReads(s: State, x: Obj, e: Epoch)
    requires WF(s) && NextEpoch(s) && s.phase.SettingUp? && x < |s.ideal|
    requires Sorted(s.ideal[x]) && NewestFrom(s.ideal[x]) <= s.info.current && 1 <= s.info.current
    ensures e <= s.info.current ==> ValueAt(ApplyBump(s).ideal[x], e) == ValueAt(s.ideal[x], e)
    ensures NewestFrom(ApplyBump(s).ideal[x]) ==
            if x in s.phase.order then s.info.current + 1 else NewestFrom(s.ideal[x])
  {
    if x in s.phase.order {
      PushReads(s.ideal[x], s.info.current + 1, s.phase.box[x].value, e);
    }
  }

  lemma BumpBoxes(s: State)
    requires Inv(s) && Enabled(s, Bump)
    ensures BoxesOk(ApplyBump(s))
  {
    var s' := ApplyBump(s);
    forall n, x | n in s'.epochOf && x in s'.boxes[n] && x < |s'.ideal| && s'.boxes[n][x].live
      ensures s'.boxes[n][x].base == ValueAt(s'.ideal[x], s'.epochOf[n])
    {
      var k := SnapEntry(s, n);
      NewestIs(s, x);
      BumpReads(s, x, s.epochOf[n]);
    }
  }

  lemma BumpWritten(s: State, x: Obj)
    requires Inv(s) && Enabled(s, Bump) && x < |s.ideal|
    ensures WrittenBy(ApplyBump(s).log, ApplyBump(s).ideal[x], x, s.since)
  {
    NewestIs(s, x);
    BumpReads(s, x, 0);
    var log, log' := s.log, ApplyBump(s).log;
    assert WrittenBy(log, s.ideal[x], x, s.since);
    if x in s.phase.order {
      assert Wrote(log', |log|, x);
    } else if NewestFrom(s.ideal[x]) > s.since {
      var i: nat :| Wrote(log, i, x) && log[i].at == NewestFrom(s.ideal[x]);
      assert Wrote(log', i, x);
    }
  }

  lemma BumpWrites(s: State, i: nat, x: Obj)
    requires Inv(s) && Enabled(s, Bump) && Wrote(ApplyBump(s).log, i, x)
    ensures x < |s.ideal| && ApplyBump(s).log[i].at <= NewestFrom(ApplyBump(s).ideal[x])
  {
    assert i < |s.log| ==> Wrote(s.log, i, x);
    NewestIs(s, x);
    BumpReads(s, x, 0);
  }

  /** The added commit read at or after every earlier commit to each object it writes. */
  lemma BumpWins(s: State, i: nat, j: nat, x: Obj)
    requires Inv(s) && Enabled(s, Bump) && Wrote(ApplyBump(s).log, i, x) && Wrote(ApplyBump(s).log, j, x) && i < j
    ensures ApplyBump(s).log[i].at <= ApplyBump(s).log[j].base
  {
    assert Wrote(s.log, i, x);
    if j == |s.log| {
      assert x in Prefix(s.phase.order, s.phase.done);
    } else {
      assert Wrote(s.log, j, x);
    }
  }

  lemma BumpLog(s: State)
    requires Inv(s) && Enabled(s, Bump)
    ensures LogOk(ApplyBump(s))
  {
    var s' := ApplyBump(s);
    var c := s'.log[|s.log|];
    var k := SnapEntry(s, s.phase.snap);
    forall i: nat, x: Obj | Wrote(s'.log, i, x)
      ensures x < |s'.ideal| && s'.log[i].at <= NewestFrom(s'.ideal[x])
    {
      BumpWrites(s, i, x);
    }
    forall x | 0 <= x < |s'.ideal| ensures WrittenBy(s'.log, s'.ideal[x], x, s'.since) {
      BumpWritten(s, x);
    }
    forall i: nat, j: nat, x: Obj | Wrote(s'.log, i, x) && Wrote(s'.log, j, x) && i < j
      ensures s'.log[i].at <= s'.log[j].base
    {
      BumpWins(s, i, j, x);
    }
  }

  lemma BumpInfo(info: Info, epochOf: map<Snap, Epoch>)
    requires InfoOk(info) && SnapsOk(info, epochOf) && |info.entries| > 0
    ensures InfoOk(info.(current := info.current + 1)) && SnapsOk(info.(current := info.current + 1), epochOf)
  {
  }

  lemma BumpChanges(s: State)
    requires WF(s) && NextEpoch(s) && Enabled(s, Bump)
    ensures ApplyBump(s).info == s.info.(current := s.info.current + 1) && ApplyBump(s).epochOf == s.epochOf
  {
  }

  lemma BumpSafe(s: State)
    requires Inv(s) && Enabled(s, Bump)
    ensures ListedSafe(ApplyBump(s)) && InflightSafe(ApplyBump(s))
  {
  }

  lemma BumpKeeps(s: State)
    requires Inv(s) && Enabled(s, Bump)
    ensures Inv(ApplyBump(s))
  {
    var k := SnapEntry(s, s.phase.snap);
    BumpInfo(s.info, s.epochOf);
    BumpChanges(s);
    BumpObjs(s);
    BumpTokens(s);
    BumpBoxes(s);
    BumpLog(s);
    BumpSafe(s);
  }

  // ---------------------------------------------------------------------------------------------
  // Rolling back an object
  // ---------------------------------------------------------------------------------------------

  lemma RollbackPhase(s: State)
    requires WF(s) && s.phase.RollingBack? && s.phase.done < s.phase.setUp
    ensures NextObj(s) in Ahead(s.phase)
    ensures |s.hist[NextObj(s)].past| > 0 ==>
              forall x :: x in Ahead(ApplyRollback(s).phase) <==> x in Ahead(s.phase) && x != NextObj(s)
  {
    var p := s.phase;
    var a := p.order[..p.setUp];
    assert a[p.done..] == [p.order[p.done]] + a[p.done + 1..];
    assert NextObj(s) !in a[p.done + 1..];
  }

  lemma PopObj(h: History<int>, ideal: History<int>, first: nat, info: Info)
    requires ObjOk(h, ideal, first, true, true, info) && InfoOk(info)
    ensures ObjOk(Pop(h), ideal, first, false, false, info)
  {
    PopReads(h, 0);
    forall k | 0 <= k < |info.entries|
      ensures ValueAt(Pop(h), info.entries[k].epoch) == ValueAt(ideal, info.entries[k].epoch)
    {
      CurrentEntry(h, ideal, first, true, true, info, k);
      PopReads(h, info.entries[k].epoch);
    }
  }

  lemma RollbackObjs(s: State)
    requires Inv(s) && Enabled(s, RollbackNext)
    ensures |s.hist[NextObj(s)].past| > 0
    ensures ObjsOk(ApplyRollback(s))
  {
    var s' := ApplyRollback(s);
    RollbackPhase(s);
    NewestIs(s, NextObj(s));
    forall x | 0 <= x < |s.hist|
      ensures ObjOk(s'.hist[x], s'.ideal[x], s'.firstKey[x], x in Ahead(s'.phase), Open(s'.phase, x), s'.info)
    {
      NewestIs(s, x);
      if x == NextObj(s) {
        PopObj(s.hist[x], s.ideal[x], s.firstKey[x], s.info);
      }
    }
  }

  lemma PopAwaited(h: History<int>, first: nat, vf: nat)
    requires |h.past| > 0
    ensures Awaited(Pop(h), first, false, vf) == Awaited(h, first, true, vf)
  {
    assert forall i :: 0 <= i < |h.past| ==> Key(Pop(h), first, i) == Key(h, first, i);
  }

  lemma RollbackExpected(s: State, t: Token)
    requires WF(s) && Enabled(s, RollbackNext) && |s.hist[NextObj(s)].past| > 0
    ensures Expected(ApplyRollback(s), t) == Expected(s, t)
  {
    RollbackPhase(s);
    var x := NextObj(s);
    if t.obj == x {
      PopAwaited(s.hist[x], s.firstKey[x], t.validFrom);
    }
  }

  lemma RollbackTokens(s: State)
    requires WF(s) && TokensOk(s) && Enabled(s, RollbackNext) && |s.hist[NextObj(s)].past| > 0
    ensures TokensOk(ApplyRollback(s))
  {
    forall t: Token
      ensures Outstanding(ApplyRollback(s))[t] == if Expected(ApplyRollback(s), t) then 1 else 0
    {
      RollbackExpected(s, t);
    }
  }

  lemma PopBeyond(h: History<int>, first: nat, hist: seq<History<int>>, firstKey: seq<nat>, x: Obj, t: Token, e: Epoch)
    requires |hist| == |firstKey| && x < |hist| && hist[x] == h && firstKey[x] == first && |h.past| > 0
    requires Beyond(hist, firstKey, t, e)
    ensures Beyond(hist[x := Pop(h)], firstKey, t, e)
  {
  }

  lemma RollbackSafe(s: State)
    requires WF(s) && ListedSafe(s) && InflightSafe(s) && Enabled(s, RollbackNext)
    requires |s.hist[NextObj(s)].past| > 0
    ensures ListedSafe(ApplyRollback(s)) && InflightSafe(ApplyRollback(s))
  {
    var x := NextObj(s);
    forall t, e | Beyond(s.hist, s.firstKey, t, e)
      ensures Beyond(ApplyRollback(s).hist, s.firstKey, t, e)
    {
      PopBeyond(s.hist[x], s.firstKey[x], s.hist, s.firstKey, x, t, e);
    }
  }

  lemma RollbackBoxes(s: State)
    requires Inv(s) && Enabled(s, RollbackNext)
    ensures BoxesOk(ApplyRollback(s)) && LogOk(ApplyRollback(s))
  {
  }

  lemma RollbackKeeps(s: State)
    requires Inv(s) && Enabled(s, RollbackNext)
    ensures Inv(ApplyRollback(s))
  {
    RollbackObjs(s);
    RollbackTokens(s);
    RollbackSafe(s);
    RollbackBoxes(s);
  }

  // ---------------------------------------------------------------------------------------------
  // Registering the cleanup of the version that a commit made obsolete
  // ---------------------------------------------------------------------------------------------

  lemma RegisterPhase(s: State)
    requires Inv(s) && Enabled(s, RegisterNext)
    ensures NextObj(s) in Ahead(s.phase) && |s.hist[NextObj(s)].past| > 0 && |s.info.entries| > 0
    ensures forall x :: x in Ahead(ApplyRegister(s).phase) <==> x in Ahead(s.phase) && x != NextObj(s)
  {
    var p := s.phase;
    assert p.order[p.done..] == [p.order[p.done]] + p.order[p.done + 1..];
    assert NextObj(s) !in p.order[p.done + 1..];
    NewestIs(s, NextObj(s));
    var k := SnapEntry(s, p.snap);
  }

  /** The registered name is the bookkeeping name of the version before the newest. */
  lemma RegisterName(s: State)
    requires WF(s) && Enabled(s, RegisterNext) && |s.hist[NextObj(s)].past| > 0 && |s.info.entries| > 0
    ensures var x := NextObj(s);
            && Key(s.hist[x], ApplyRegister(s).firstKey[x], |s.hist[x].past| - 1) == PreviousFrom(s.hist[x])
            && (forall i :: 0 < i <= |s.hist[x].past| ==>
                  Key(s.hist[x], ApplyRegister(s).firstKey[x], i) == Key(s.hist[x], s.firstKey[x], i))
            && (|s.hist[x].past| > 1 ==> ApplyRegister(s).firstKey[x] == s.firstKey[x])
  {
  }

  lemma AddCleanupEpochs(info: Info, t: Token, m: nat)
    requires |info.entries| > 0 && m < |info.entries|
    ensures |AddCleanup(info, t).entries| == |info.entries|
    ensures AddCleanup(info, t).entries[m].epoch == info.entries[m].epoch
    ensures AddCleanup(info, t).entries[m].snapshots == info.entries[m].snapshots
    ensures m + 1 < |info.entries| ==> AddCleanup(info, t).entries[m] == info.entries[m]
  {
  }

  lemma RegisterObjs(s: State)
    requires Inv(s) && Enabled(s, RegisterNext)
    ensures ObjsOk(ApplyRegister(s))
  {
    var s' := ApplyRegister(s);
    RegisterPhase(s);
    forall x | 0 <= x < |s.hist|
      ensures ObjOk(s'.hist[x], s'.ideal[x], s'.firstKey[x], x in Ahead(s'.phase), Open(s'.phase, x), s'.info)
    {
      NewestIs(s, x);
    }
  }

  lemma RegisterExpected(s: State, t: Token)
    requires Inv(s) && Enabled(s, RegisterNext)
    ensures |s.hist[NextObj(s)].past| > 0
    ensures var added := Token(NextObj(s), PreviousFrom(s.hist[NextObj(s)]));
            && (Expected(ApplyRegister(s), t) <==> Expected(s, t) || t == added)
            && (t == added ==> !Expected(s, t))
  {
    var s' := ApplyRegister(s);
    RegisterPhase(s);
    RegisterName(s);
    var x := NextObj(s);
    NewestIs(s, x);
    var h, first, first' := s.hist[x], s.firstKey[x], s'.firstKey[x];
    if t.obj == x {
      KeyAdded(h, first, first', |h.past| - 1, t.validFrom);
      assert Expected(s', t) == IsKey(h, first', |h.past|, t.validFrom);
      assert Expected(s, t) == IsKey(h, first, |h.past| - 1, t.validFrom);
    } else {
      assert Expected(s', t) == Expected(s, t);
    }
  }

  lemma RegisterTokens(s: State)
    requires Inv(s) && Enabled(s, RegisterNext)
    ensures TokensOk(ApplyRegister(s))
  {
    var s' := ApplyRegister(s);
    forall t: Token
      ensures Outstanding(s')[t] == if Expected(s', t) then 1 else 0
    {
      RegisterOutstanding(s, t);
      RegisterExpected(s, t);
    }
  }

  lemma RegisterOutstanding(s: State, t: Token)
    requires Inv(s) && Enabled(s, RegisterNext)
    ensures |s.hist[NextObj(s)].past| > 0
    ensures var added := Token(NextObj(s), PreviousFrom(s.hist[NextObj(s)]));
            Outstanding(ApplyRegister(s))[t] == Outstanding(s)[t] + if t == added then 1 else 0
  {
    RegisterPhase(s);
    AddCleanupLists(s.info, Token(NextObj(s), PreviousFrom(s.hist[NextObj(s)])));
  }

  /** Extending the range of names by one adds exactly one name. */
  lemma KeyAdded(h: History<int>, first: nat, first': nat, n: nat, vf: nat)
    requires Sorted(h) && n < |h.past| && first < h.past[0].validTo && first' < h.past[0].validTo
    requires n > 0 ==> first' == first
    ensures IsKey(h, first', n + 1, vf) <==> IsKey(h, first, n, vf) || vf == Key(h, first', n)
    ensures vf == Key(h, first', n) ==> !IsKey(h, first, n, vf)
  {
  }

  lemma RegisterSafe(s: State)
    requires Inv(s) && Enabled(s, RegisterNext)
    ensures ListedSafe(ApplyRegister(s)) && InflightSafe(ApplyRegister(s))
  {
    var s' := ApplyRegister(s);
    RegisterPhase(s);
    RegisterName(s);
    var x := NextObj(s);
    var h := s.hist[x];
    var es, es' := s.info.entries, s'.info.entries;
    var added := Token(x, PreviousFrom(h));
    forall t, e | t in Outstanding(s) && Beyond(s.hist, s.firstKey, t, e)
      ensures Beyond(s'.hist, s'.firstKey, t, e)
    {
      if t.obj == x {
        OutstandingExpected(s, t);
        assert |h.past| > 1;
      }
    }
    forall k, t, m | 0 <= k < m < |es'| && t in es'[k].cleanups
      ensures Beyond(s'.hist, s'.firstKey, t, es'[m].epoch)
    {
      AddCleanupEpochs(s.info, added, k);
      AddCleanupEpochs(s.info, added, m);
      ListedHas(es, k, t);
      assert Beyond(s.hist, s.firstKey, t, es[m].epoch);
    }
    forall t, m | t in s'.inflight && 0 <= m < |es'|
      ensures es'[m].epoch < t.validFrom || Beyond(s'.hist, s'.firstKey, t, es'[m].epoch)
    {
      AddCleanupEpochs(s.info, added, m);
      assert es[m].epoch < t.validFrom || Beyond(s.hist, s.firstKey, t, es[m].epoch);
    }
  }

  lemma RegisterSnaps(info: Info, epochOf: map<Snap, Epoch>, t: Token)
    requires InfoOk(info) && SnapsOk(info, epochOf) && |info.entries| > 0
    ensures SnapsOk(AddCleanup(info, t), epochOf)
  {
    var es, es' := info.entries, AddCleanup(info, t).entries;
    assert Increasing(es');
    forall k, q | 0 <= k < |es'| && q in es'[k].snapshots
      ensures q in epochOf && epochOf[q] == es'[k].epoch
    {
      AddCleanupEpochs(info, t, k);
    }
    forall q | q in epochOf
      ensures HeldAt(es', epochOf[q], q)
    {
      var k :| 0 <= k < |es| && es[k].epoch == epochOf[q] && q in es[k].snapshots;
      AddCleanupEpochs(info, t, k);
      assert es'[k].epoch == epochOf[q] && q in es'[k].snapshots;
    }
  }

  lemma RegisterBoxes(s: State)
    requires Inv(s) && Enabled(s, RegisterNext)
    ensures BoxesOk(ApplyRegister(s)) && LogOk(ApplyRegister(s))
  {
  }

  lemma RegisterKeeps(s: State)
    requires Inv(s) && Enabled(s, RegisterNext)
    ensures Inv(ApplyRegister(s))
  {
    RegisterPhase(s);
    var added := Token(NextObj(s), PreviousFrom(s.hist[NextObj(s)]));
    AddCleanupLists(s.info, added);
    RegisterSnaps(s.info, s.epochOf, added);
    RegisterObjs(s);
    RegisterTokens(s);
    RegisterSafe(s);
    RegisterBoxes(s);
  }

  // ---------------------------------------------------------------------------------------------
  // Carrying out a cleanup
  // ---------------------------------------------------------------------------------------------

  /** A cleanup under way denotes the version it names, which no registered snapshot sees. */
  lemma CleanDenotes(s: State, t: Token) returns (i: nat)
    requires Inv(s) && t in s.inflight
    ensures t.obj < |s.hist|
    ensures var h, first := s.hist[t.obj], s.firstKey[t.obj];
            && i < |h.past| - (if t.obj in Ahead(s.phase) then 1 else 0)
            && Key(h, first, i) == t.validFrom
            && Find(h, t.validFrom) == Some(i)
            && h.past[i].validTo <= s.info.current
            && forall m :: 0 <= m < |s.info.entries| ==>
                 s.info.entries[m].epoch < Key(h, first, i) || s.info.entries[m].epoch >= h.past[i].validTo
  {
    assert t in Outstanding(s);
    OutstandingExpected(s, t);
    var h, first := s.hist[t.obj], s.firstKey[t.obj];
    NewestIs(s, t.obj);
    i :| 0 <= i < |h.past| - (if t.obj in Ahead(s.phase) then 1 else 0) && Key(h, first, i) == t.validFrom;
    FindDenotes(h, t.validFrom, i);
    BeyondCurrent(s, t);
  }

  lemma SettledRemove(h: History<int>, i: nat)
    requires i + 1 < |h.past|
    ensures Pop(RemoveAt(h, i)) == RemoveAt(Pop(h), i)
  {
  }

  /** Removing an older version keeps the newest version and its start, unless only the newest is left. */
  lemma RemoveAligned(c: History<int>, ideal: History<int>, info: Info, i: nat)
    requires Sorted(c) && Aligned(c, ideal, info) && i < |c.past| && info.current >= 1
    requires i == 0 ==> forall m :: 0 <= m < |info.entries| ==> info.entries[m].epoch >= c.past[0].validTo
    ensures Aligned(RemoveAt(c, i), ideal, info)
  {
  }

  lemma RemoveReadsObj(h: History<int>, ideal: History<int>, first: nat, ahead: bool, open: bool, info: Info, i: nat,
                       k: nat)
    requires ObjOk(h, ideal, first, ahead, open, info) && i < |h.past| && k < |info.entries|
    requires info.entries[k].epoch < Key(h, first, i) || info.entries[k].epoch >= h.past[i].validTo
    ensures FirstAfter(h, first, i) <= info.entries[k].epoch
    ensures ValueAt(RemoveAt(h, i), info.entries[k].epoch) == ValueAt(ideal, info.entries[k].epoch)
  {
    RemoveReads(h, i, info.entries[k].epoch);
  }

  lemma RemoveObj(h: History<int>, ideal: History<int>, first: nat, ahead: bool, open: bool, info: Info, i: nat)
    requires ObjOk(h, ideal, first, ahead, open, info) && InfoOk(info)
    requires i < |h.past| - (if ahead then 1 else 0) && h.past[i].validTo <= info.current
    requires forall m :: 0 <= m < |info.entries| ==>
               info.entries[m].epoch < Key(h, first, i) || info.entries[m].epoch >= h.past[i].validTo
    ensures ObjOk(RemoveAt(h, i), ideal, FirstAfter(h, first, i), ahead, open, info)
  {
    var r := RemoveAt(h, i);
    forall k | 0 <= k < |info.entries|
      ensures FirstAfter(h, first, i) <= info.entries[k].epoch
      ensures ValueAt(r, info.entries[k].epoch) == ValueAt(ideal, info.entries[k].epoch)
    {
      RemoveReadsObj(h, ideal, first, ahead, open, info, i, k);
    }
    RemoveSorted(h, i);
    RemoveNewest(h, first, i);
    if open {
      SettledRemove(h, i);
      RemoveAligned(Pop(h), ideal, info, i);
    } else {
      RemoveAligned(h, ideal, info, i);
    }
  }

  lemma RemoveNewest(h: History<int>, first: nat, i: nat)
    requires Sorted(h) && i < |h.past| && first < h.past[0].validTo
    ensures var r := RemoveAt(h, i);
            |r.past| > 0 ==>
              && FirstAfter(h, first, i) < r.past[0].validTo
              && (i + 1 < |h.past| ==> r.past[|r.past| - 1].validTo == h.past[|h.past| - 1].validTo)
  {
  }

  lemma CleanObjs(s: State, t: Token)
    requires Inv(s) && t in s.inflight
    ensures t.obj < |s.hist| && ObjsOk(ApplyClean(s, t))
  {
    var i := CleanDenotes(s, t);
    var s' := ApplyClean(s, t);
    forall x | 0 <= x < |s.hist|
      ensures ObjOk(s'.hist[x], s'.ideal[x], s'.firstKey[x], x in Ahead(s'.phase), Open(s'.phase, x), s'.info)
    {
      NewestIs(s, x);
      if x == t.obj {
        RemoveObj(s.hist[x], s.ideal[x], s.firstKey[x], x in Ahead(s.phase), Open(s.phase, x), s.info, i);
      }
    }
  }

  lemma KeyStays(h: History<int>, first: nat, i: nat, n: nat, vf: nat)
    requires Sorted(h) && i < n <= |h.past| && first < h.past[0].validTo
    requires IsKey(h, first, n, vf) && vf != Key(h, first, i)
    ensures IsKey(RemoveAt(h, i), FirstAfter(h, first, i), n - 1, vf)
  {
    var o :| 0 <= o < n && Key(h, first, o) == vf;
    var j := if o < i then o else o - 1;
    RemoveKeepsOthers(h, first, i, j);
    assert Key(RemoveAt(h, i), FirstAfter(h, first, i), j) == vf;
  }

  /** Removing version `i` takes exactly its name away. */
  lemma KeyRemoved(h: History<int>, first: nat, i: nat, n: nat, vf: nat)
    requires Sorted(h) && i < n <= |h.past| && first < h.past[0].validTo
    ensures IsKey(RemoveAt(h, i), FirstAfter(h, first, i), n - 1, vf) <==>
              IsKey(h, first, n, vf) && vf != Key(h, first, i)
  {
    var r, first' := RemoveAt(h, i), FirstAfter(h, first, i);
    if IsKey(r, first', n - 1, vf) {
      var j :| 0 <= j < n - 1 && Key(r, first', j) == vf;
      RemoveKeepsOthers(h, first, i, j);
      var o := if j < i then j else j + 1;
      assert Key(h, first, o) == vf;
      KeysIncrease(h, first, i, o);
    } else if IsKey(h, first, n, vf) && vf != Key(h, first, i) {
      KeyStays(h, first, i, n, vf);
    }
  }

  lemma CleanNames(s: State, t: Token, i: nat, n: nat, vf: nat)
    requires WF(s) && t in s.inflight && t.obj < |s.hist| && Find(s.hist[t.obj], t.validFrom) == Some(i)
    requires i < n == |s.hist[t.obj].past| - (if t.obj in Ahead(s.phase) then 1 else 0)
    ensures var h, first := s.hist[t.obj], s.firstKey[t.obj];
            && (Expected(s, Token(t.obj, vf)) <==> IsKey(h, first, n, vf))
            && (Expected(ApplyClean(s, t), Token(t.obj, vf)) <==>
                  IsKey(RemoveAt(h, i), FirstAfter(h, first, i), n - 1, vf))
  {
  }

  lemma CleanExpected(s: State, t: Token, u: Token)
    requires Inv(s) && t in s.inflight
    ensures t.obj < |s.hist|
    ensures Expected(ApplyClean(s, t), u) <==> Expected(s, u) && u != t
  {
    var i := CleanDenotes(s, t);
    var x := t.obj;
    var s' := ApplyClean(s, t);
    NewestIs(s, x);
    var h, first := s.hist[x], s.firstKey[x];
    var n := |h.past| - (if x in Ahead(s.phase) then 1 else 0);
    if u.obj == x {
      KeyRemoved(h, first, i, n, u.validFrom);
      CleanNames(s, t, i, n, u.validFrom);
    } else {
      assert Expected(s', u) == Expected(s, u);
    }
  }

  lemma CleanTokens(s: State, t: Token)
    requires Inv(s) && t in s.inflight
    ensures t.obj < |s.hist| && TokensOk(ApplyClean(s, t))
  {
    var i := CleanDenotes(s, t);
    var s' := ApplyClean(s, t);
    assert Outstanding(s)[t] == 1;
    forall u: Token
      ensures Outstanding(s')[u] == if Expected(s', u) then 1 else 0
    {
      CleanExpected(s, t, u);
    }
  }

  /** A version other than the removed one, once ended, stays ended: it can only have grown over an
      interval that holds no registered epoch. */
  lemma RemoveBeyond(hist: seq<History<int>>, firstKey: seq<nat>, x: Obj, i: nat, u: Token, e: Epoch)
    requires |hist| == |firstKey| && x < |hist| && i < |hist[x].past| && Sorted(hist[x])
    requires firstKey[x] < hist[x].past[0].validTo
    requires e < Key(hist[x], firstKey[x], i) || e >= hist[x].past[i].validTo
    requires u != Token(x, Key(hist[x], firstKey[x], i)) && Beyond(hist, firstKey, u, e)
    ensures Beyond(hist[x := RemoveAt(hist[x], i)], firstKey[x := FirstAfter(hist[x], firstKey[x], i)], u, e)
  {
    var h, first := hist[x], firstKey[x];
    var r, first' := RemoveAt(h, i), FirstAfter(h, first, i);
    if u.obj == x {
      forall j | 0 <= j < |r.past| && Key(r, first', j) == u.validFrom
        ensures e >= r.past[j].validTo
      {
        RemoveKeepsOthers(h, first, i, j);
        var o := if j < i then j else j + 1;
        assert Key(h, first, o) == u.validFrom;
        assert e >= h.past[o].validTo;
      }
    }
  }

  lemma CleanBeyond(s: State, t: Token, u: Token, m: nat)
    requires Inv(s) && t in s.inflight && u in Outstanding(s) && u != t && m < |s.info.entries|
    requires Beyond(s.hist, s.firstKey, u, s.info.entries[m].epoch)
    ensures t.obj < |s.hist| && Beyond(ApplyClean(s, t).hist, ApplyClean(s, t).firstKey, u, s.info.entries[m].epoch)
  {
    var i := CleanDenotes(s, t);
    NewestIs(s, t.obj);
    RemoveBeyond(s.hist, s.firstKey, t.obj, i, u, s.info.entries[m].epoch);
  }

  lemma CleanSafe(s: State, t: Token)
    requires Inv(s) && t in s.inflight
    ensures t.obj < |s.hist| && ListedSafe(ApplyClean(s, t)) && InflightSafe(ApplyClean(s, t))
  {
    var i := CleanDenotes(s, t);
    var s' := ApplyClean(s, t);
    var es := s.info.entries;
    assert Outstanding(s)[t] == 1;
    forall k, u, m | 0 <= k < m < |es| && u in es[k].cleanups
      ensures Beyond(s'.hist, s'.firstKey, u, es[m].epoch)
    {
      ListedHas(es, k, u);
      CleanBeyond(s, t, u, m);
    }
    forall u, m | u in s'.inflight && 0 <= m < |es|
      ensures es[m].epoch < u.validFrom || Beyond(s'.hist, s'.firstKey, u, es[m].epoch)
    {
      if es[m].epoch >= u.validFrom {
        CleanBeyond(s, t, u, m);
      }
    }
  }

  lemma LogFrame(s: State, s': State)
    requires LogOk(s) && s'.log == s.log && s'.ideal == s.ideal && s'.info.current == s.info.current
    requires s'.since == s.since
    ensures LogOk(s')
  {
  }

  lemma CleanBoxes(s: State, t: Token)
    requires Inv(s) && t in s.inflight
    ensures t.obj < |s.hist| && BoxesOk(ApplyClean(s, t)) && LogOk(ApplyClean(s, t))
  {
    var i := CleanDenotes(s, t);
    LogFrame(s, ApplyClean(s, t));
  }

  lemma CleanKeeps(s: State, t: Token)
    requires Inv(s) && t in s.inflight
    ensures t.obj < |s.hist| && Inv(ApplyClean(s, t))
  {
    var i := CleanDenotes(s, t);
    CleanObjs(s, t);
    CleanTokens(s, t);
    CleanSafe(s, t);
    CleanBoxes(s, t);
  }
}
