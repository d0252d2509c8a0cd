/** Grace periods: what every run of the deferred-cleanup machine keeps. */
module GarbageRuns {
  import opened Garbage

  // ---------------------------------------------------------------------------------------------
  // The list of sections
  // ---------------------------------------------------------------------------------------------

  /** Where the sections of the new list come from. */
  lemma EndSectionAt(active: seq<Section>, k: nat, m: nat)
    requires k < |active| && m < |active| - 1
    ensures var o := active[if m < k then m else m + 1];
            && EndSection(active, k)[m].id == o.id
            && EndSection(active, k)[m].thread == o.thread
            && (m != k - 1 ==> EndSection(active, k)[m].cleanups == o.cleanups)
            && (m == k - 1 ==> EndSection(active, k)[m].cleanups == Merge(o.cleanups, active[k].cleanups))
  {
  }

  lemma GiveNewestAt(active: seq<Section>, list: seq<Cleanup>, m: nat)
    requires m < |active|
    ensures GiveNewest(active, list)[m].id == active[m].id
    ensures GiveNewest(active, list)[m].thread == active[m].thread
    ensures m != |active| - 1 ==> GiveNewest(active, list)[m].cleanups == active[m].cleanups
    ensures m == |active| - 1 ==> GiveNewest(active, list)[m].cleanups == Merge(active[m].cleanups, list)
  {
  }

  lemma EndSectionOk(active: seq<Section>, next: nat, k: nat)
    requires ActiveOk(active, next) && k < |active|
    ensures ActiveOk(EndSection(active, k), next)
    ensures forall t :: Owned(EndSection(active, k), t) <==> Owned(active, t) && t != active[k].thread
  {
    var r := EndSection(active, k);
    forall m | 0 <= m < |r|
      ensures r[m].id == active[if m < k then m else m + 1].id
      ensures r[m].thread == active[if m < k then m else m + 1].thread
    {
      EndSectionAt(active, k, m);
    }
    forall t
      ensures Owned(r, t) <==> Owned(active, t) && t != active[k].thread
    {
      if Owned(active, t) && t != active[k].thread {
        var o :| 0 <= o < |active| && active[o].thread == t;
        assert r[if o < k then o else o - 1].thread == t;
      }
    }
  }

  lemma GiveNewestOk(active: seq<Section>, next: nat, list: seq<Cleanup>)
    requires |active| > 0
    ensures ActiveOk(active, next) <==> ActiveOk(GiveNewest(active, list), next)
    ensures forall t :: Owned(GiveNewest(active, list), t) <==> Owned(active, t)
    ensures Ids(GiveNewest(active, list)) == Ids(active)
  {
    var r := GiveNewest(active, list);
    assert forall m :: 0 <= m < |r| ==> r[m].id == active[m].id && r[m].thread == active[m].thread;
    forall t
      ensures Owned(r, t) <==> Owned(active, t)
    {
      if Owned(active, t) {
        var o :| 0 <= o < |active| && active[o].thread == t;
        assert r[o].thread == t;
      }
    }
    forall i
      ensures i in Ids(r) <==> i in Ids(active)
    {
      if i in Ids(active) {
        var o :| 0 <= o < |active| && active[o].id == i;
        assert r[o].id == i;
      }
    }
  }

  // ---------------------------------------------------------------------------------------------
  // Waiting
  // ---------------------------------------------------------------------------------------------

  ghost predicate SectionsSafe(waits: map<Cleanup, set<nat>>, active: seq<Section>) {
    forall k :: 0 <= k < |active| ==> AllClear(waits, active[k].cleanups, active, k + 1)
  }

  lemma GiveNewestSafe(waits: map<Cleanup, set<nat>>, active: seq<Section>, list: seq<Cleanup>)
    requires |active| > 0 && SectionsSafe(waits, active) && forall c :: c in list ==> c in waits
    ensures SectionsSafe(waits, GiveNewest(active, list))
  {
  }

  lemma EndSectionSafe(waits: map<Cleanup, set<nat>>, active: seq<Section>, k: nat)
    requires k < |active| && SectionsSafe(waits, active)
    ensures SectionsSafe(waits, EndSection(active, k))
    ensures k == 0 ==> AllClear(waits, active[k].cleanups, EndSection(active, k), 0)
  {
  }

  lemma LocalKnown(s: State, t: ThreadId, c: Cleanup)
    requires Conserved(s) && t < |s.threads| && c in s.threads[t].local
    ensures c in s.waits
  {
    assert LocalLists(s.threads)[t] == s.threads[t].local;
    CountHas(LocalLists(s.threads), t, c);
    assert Places(s, c) > 0;
  }

  // ---------------------------------------------------------------------------------------------
  // Conservation
  // ---------------------------------------------------------------------------------------------

  lemma LocalUpdate(threads: seq<Thread>, t: ThreadId, th: Thread, c: Cleanup)
    requires t < |threads|
    ensures Count(LocalLists(threads[t := th]), c) ==
            Count(LocalLists(threads), c) - Times(threads[t].local, c) + Times(th.local, c)
  {
    CountUpdate(LocalLists(threads), t, th.local, c);
    assert LocalLists(threads[t := th]) == LocalLists(threads)[t := th.local];
  }

  lemma RunningUpdate(threads: seq<Thread>, t: ThreadId, th: Thread, c: Cleanup)
    requires t < |threads|
    ensures Count(RunningLists(threads[t := th]), c) ==
            Count(RunningLists(threads), c) - Times(threads[t].running, c) + Times(th.running, c)
  {
    CountUpdate(RunningLists(threads), t, th.running, c);
    assert RunningLists(threads[t := th]) == RunningLists(threads)[t := th.running];
  }

  lemma SectionUpdate(active: seq<Section>, k: nat, list: seq<Cleanup>, c: Cleanup)
    requires k < |active|
    ensures Count(SectionLists(active[k := active[k].(cleanups := list)]), c) ==
            Count(SectionLists(active), c) - Times(active[k].cleanups, c) + Times(list, c)
  {
    CountUpdate(SectionLists(active), k, list, c);
    assert SectionLists(active[k := active[k].(cleanups := list)]) == SectionLists(active)[k := list];
  }

  lemma GiveNewestConserves(active: seq<Section>, list: seq<Cleanup>, c: Cleanup)
    requires |active| > 0
    ensures Count(SectionLists(GiveNewest(active, list)), c) == Count(SectionLists(active), c) + Times(list, c)
  {
    var n := |active| - 1;
    SectionUpdate(active, n, Merge(active[n].cleanups, list), c);
    MergeConserves(active[n].cleanups, list, c);
  }

  lemma EndLists(active: seq<Section>, k: nat)
    requires k < |active|
    ensures var lists := SectionLists(active);
            SectionLists(EndSection(active, k)) ==
            if k == 0 then lists[1..] else lists[..k][k - 1 := Merge(lists[k - 1], lists[k])] + lists[k + 1..]
  {
  }

  /** The lists of the sections that are left, and of the one that ended if it was the oldest, hold what was there. */
  lemma EndSectionConserves(active: seq<Section>, k: nat, c: Cleanup)
    requires k < |active|
    ensures Count(SectionLists(active), c) ==
            Count(SectionLists(EndSection(active, k)), c) + if k == 0 then Times(active[k].cleanups, c) else 0
  {
    var lists := SectionLists(active);
    EndLists(active, k);
    CountSplit(lists, k, c);
    if k > 0 {
      var merged := Merge(lists[k - 1], lists[k]);
      MergeConserves(lists[k - 1], lists[k], c);
      CountUpdate(lists[..k], k - 1, merged, c);
      CountConcat(lists[..k][k - 1 := merged], lists[k + 1..], c);
    }
  }

  // ---------------------------------------------------------------------------------------------
  // Each step keeps the invariant
  // ---------------------------------------------------------------------------------------------

  lemma ThreadsOkUpdate(active: seq<Section>, active': seq<Section>, threads: seq<Thread>, t: ThreadId, th: Thread)
    requires ThreadsOk(active, threads) && t < |threads| && ThreadOk(active', t, th)
    requires forall k :: 0 <= k < |active'| ==> active'[k].thread < |threads|
    requires forall u :: u != t ==> (Owned(active', u) <==> Owned(active, u))
    ensures ThreadsOk(active', threads[t := th])
  {
  }

  lemma ThreadMoves(s: State, s': State, t: ThreadId, th: Thread, c: Cleanup)
    requires t < |s.threads| && s'.threads == s.threads[t := th]
    ensures Places(s', c) - Places(s, c) ==
            Times(th.local, c) - Times(s.threads[t].local, c) + Times(th.running, c) - Times(s.threads[t].running, c)
            + Count(SectionLists(s'.active), c) - Count(SectionLists(s.active), c)
            + Times(s'.done, c) - Times(s.done, c)
  {
    LocalUpdate(s.threads, t, th, c);
    RunningUpdate(s.threads, t, th, c);
  }

  lemma EnterConserves(s: State, t: ThreadId, c: Cleanup)
    requires t < |s.threads|
    ensures Places(ApplyEnter(s, t), c) == Places(s, c)
  {
    var th, s' := s.threads[t], ApplyEnter(s, t);
    ThreadMoves(s, s', t, th.(nesting := th.nesting + 1), c);
    if th.nesting == 0 {
      assert SectionLists(s'.active) == SectionLists(s.active) + [[]];
      CountConcat(SectionLists(s.active), [[]], c);
      CountOne([], c);
    }
  }

  lemma EnterKeeps(s: State, t: ThreadId)
    requires Inv(s) && Enabled(s, Enter(t))
    ensures Inv(ApplyEnter(s, t))
  {
    var th, s' := s.threads[t], ApplyEnter(s, t);
    var th' := th.(nesting := th.nesting + 1);
    if th.nesting == 0 {
      EnterActive(s, t);
      EnterSafe(s, t);
    }
    ThreadsOkUpdate(s.active, s'.active, s.threads, t, th');
    forall c: Cleanup ensures Places(s', c) == if c in s.waits then 1 else 0 {
      EnterConserves(s, t, c);
    }
  }

  lemma EnterActive(s: State, t: ThreadId)
    requires Inv(s) && Enabled(s, Enter(t)) && s.threads[t].nesting == 0
    ensures ActiveOk(ApplyEnter(s, t).active, ApplyEnter(s, t).nextId)
    ensures forall u :: Owned(ApplyEnter(s, t).active, u) <==> Owned(s.active, u) || u == t
  {
    var active' := ApplyEnter(s, t).active;
    assert !Owned(s.active, t);
    assert active'[|s.active|].thread == t;
    forall u | Owned(s.active, u)
      ensures Owned(active', u)
    {
      var k :| 0 <= k < |s.active| && s.active[k].thread == u;
      assert active'[k].thread == u;
    }
  }

  lemma EnterSafe(s: State, t: ThreadId)
    requires Inv(s) && Enabled(s, Enter(t)) && s.threads[t].nesting == 0
    ensures Safe(ApplyEnter(s, t))
  {
    var s' := ApplyEnter(s, t);
    forall c, from: nat | Clear(s.waits, c, s.active, from) ensures Clear(s.waits, c, s'.active, from) {
    }
    forall k | 0 <= k < |s'.active| ensures AllClear(s.waits, s'.active[k].cleanups, s'.active, k + 1) {
      if k < |s.active| {
        assert AllClear(s.waits, s.active[k].cleanups, s.active, k + 1);
      }
    }
    forall u | 0 <= u < |s'.threads| ensures AllClear(s.waits, s'.threads[u].running, s'.active, 0) {
      assert AllClear(s.waits, s.threads[u].running, s.active, 0);
    }
  }

  lemma LeaveKeeps(s: State, t: ThreadId)
    requires Inv(s) && Enabled(s, Leave(t))
    ensures Inv(ApplyLeave(s, t))
  {
    var th, s' := s.threads[t], ApplyLeave(s, t);
    if th.nesting > 1 {
      ThreadsOkUpdate(s.active, s.active, s.threads, t, th.(nesting := th.nesting - 1));
    } else {
      var k := SectionOf(s.active, t);
      LeaveActive(s, t, k);
      LeaveSafe(s, t, k);
    }
    forall c: Cleanup ensures Places(s', c) == if c in s.waits then 1 else 0 {
      LeaveConserves(s, t, c);
    }
  }

  lemma LeaveActive(s: State, t: ThreadId, k: nat)
    requires Inv(s) && Enabled(s, Leave(t)) && s.threads[t].nesting == 1 && k == SectionOf(s.active, t)
    ensures ActiveOk(ApplyLeave(s, t).active, s.nextId)
    ensures ThreadsOk(ApplyLeave(s, t).active, ApplyLeave(s, t).threads)
  {
    var given := GiveNewest(s.active, s.threads[t].local);
    GiveNewestOk(s.active, s.nextId, s.threads[t].local);
    EndSectionOk(given, s.nextId, k);
    GiveNewestAt(s.active, s.threads[t].local, k);
    var active' := EndSection(given, k);
    forall m | 0 <= m < |active'| ensures active'[m].thread < |s.threads| {
      EndSectionAt(given, k, m);
      GiveNewestAt(s.active, s.threads[t].local, if m < k then m else m + 1);
    }
    ThreadsOkUpdate(s.active, active', s.threads, t, Thread(0, [], if k == 0 then given[k].cleanups else []));
  }

  lemma LeaveSafe(s: State, t: ThreadId, k: nat)
    requires Inv(s) && Enabled(s, Leave(t)) && s.threads[t].nesting == 1 && k == SectionOf(s.active, t)
    ensures Safe(ApplyLeave(s, t))
  {
    var local := s.threads[t].local;
    var given := GiveNewest(s.active, local);
    var s' := ApplyLeave(s, t);
    forall c | c in local ensures c in s.waits {
      LocalKnown(s, t, c);
    }
    GiveNewestSafe(s.waits, s.active, local);
    EndSectionSafe(s.waits, given, k);
    forall list: seq<Cleanup> | AllClear(s.waits, list, s.active, 0) ensures AllClear(s.waits, list, s'.active, 0) {
      LeaveClear(s.waits, list, s.active, local, k);
    }
    forall u | 0 <= u < |s'.threads| ensures AllClear(s.waits, s'.threads[u].running, s'.active, 0) {
      assert u != t ==> AllClear(s.waits, s.threads[u].running, s.active, 0);
    }
  }

  lemma LeaveClear(waits: map<Cleanup, set<nat>>, list: seq<Cleanup>, active: seq<Section>, local: seq<Cleanup>, k: nat)
    requires k < |active| && AllClear(waits, list, active, 0)
    ensures AllClear(waits, list, EndSection(GiveNewest(active, local), k), 0)
  {
  }

  lemma LeaveConserves(s: State, t: ThreadId, c: Cleanup)
    requires InSection(s, t) && SectionOf(s.active, t) < |s.active| && s.threads[t].running == []
    ensures Places(ApplyLeave(s, t), c) == Places(s, c)
  {
    var th, s' := s.threads[t], ApplyLeave(s, t);
    if th.nesting > 1 {
      ThreadMoves(s, s', t, th.(nesting := th.nesting - 1), c);
    } else {
      var k := SectionOf(s.active, t);
      var given := GiveNewest(s.active, th.local);
      GiveNewestConserves(s.active, th.local, c);
      EndSectionConserves(given, k, c);
      ThreadMoves(s, s', t, Thread(0, [], if k == 0 then given[k].cleanups else []), c);
    }
  }

  lemma RunConserves(s: State, t: ThreadId, c: Cleanup)
    requires t < |s.threads| && s.threads[t].running != []
    ensures Places(ApplyRun(s, t), c) == Places(s, c)
  {
    var th := s.threads[t];
    ThreadMoves(s, ApplyRun(s, t), t, th.(running := th.running[1..]), c);
    assert th.running == [th.running[0]] + th.running[1..];
  }

  lemma RunKeeps(s: State, t: ThreadId)
    requires Inv(s) && Enabled(s, RunNext(t))
    ensures Inv(ApplyRun(s, t))
  {
    var th, s' := s.threads[t], ApplyRun(s, t);
    var th' := th.(running := th.running[1..]);
    ThreadsOkUpdate(s.active, s.active, s.threads, t, th');
    forall c: Cleanup ensures Places(s', c) == if c in s.waits then 1 else 0 {
      RunConserves(s, t, c);
    }
    RunSafe(s, t);
  }

  lemma RunSafe(s: State, t: ThreadId)
    requires Safe(s) && t < |s.threads| && s.threads[t].running != []
    ensures Safe(ApplyRun(s, t))
  {
  }

  lemma ScheduleConserves(s: State, t: ThreadId, c: Cleanup, d: Cleanup)
    requires t < |s.threads|
    ensures Places(ApplySchedule(s, t, c), d) == Places(s, d) + if d == c then 1 else 0
  {
    var th, s' := s.threads[t], ApplySchedule(s, t, c);
    if th.nesting > 0 {
      ThreadMoves(s, s', t, th.(local := th.local + [c]), d);
    } else if |s.active| > 0 {
      var n := |s.active| - 1;
      SectionUpdate(s.active, n, s.active[n].cleanups + [c], d);
    }
  }

  lemma SameOwners(active: seq<Section>, active': seq<Section>, next: nat)
    requires |active'| == |active| && ActiveOk(active, next)
    requires forall m :: 0 <= m < |active| ==> active'[m].id == active[m].id && active'[m].thread == active[m].thread
    ensures ActiveOk(active', next)
    ensures forall u :: Owned(active', u) <==> Owned(active, u)
  {
  }

  lemma ScheduleActive(s: State, t: ThreadId, c: Cleanup)
    requires ActiveOk(s.active, s.nextId) && ThreadsOk(s.active, s.threads) && t < |s.threads|
    ensures var s' := ApplySchedule(s, t, c);
            ActiveOk(s'.active, s'.nextId) && ThreadsOk(s'.active, s'.threads)
    ensures |ApplySchedule(s, t, c).active| == |s.active|
    ensures forall m :: 0 <= m < |s.active| ==> ApplySchedule(s, t, c).active[m].id == s.active[m].id
  {
    var th, s' := s.threads[t], ApplySchedule(s, t, c);
    SameOwners(s.active, s'.active, s.nextId);
    assert ThreadOk(s.active, t, th);
    ThreadsOkUpdate(s.active, s'.active, s.threads, t, s'.threads[t]);
    assert s'.threads == s.threads[t := s'.threads[t]];
  }

  lemma ClearCarry(waits: map<Cleanup, set<nat>>, c: Cleanup, w: set<nat>, list: seq<Cleanup>, active: seq<Section>,
                   active': seq<Section>, from: nat)
    requires AllClear(waits, list, active, from) && c !in waits && |active'| == |active|
    requires forall m :: 0 <= m < |active| ==> active'[m].id == active[m].id
    ensures AllClear(waits[c := w], list, active', from)
  {
  }

  lemma ScheduleSections(s: State, t: ThreadId, c: Cleanup, k: nat)
    requires Safe(s) && t < |s.threads| && c !in s.waits && k < |s.active|
    ensures var s' := ApplySchedule(s, t, c);
            |s'.active| == |s.active| && AllClear(s'.waits, s'.active[k].cleanups, s'.active, k + 1)
  {
  }

  lemma ScheduleSafe(s: State, t: ThreadId, c: Cleanup)
    requires Safe(s) && t < |s.threads| && c !in s.waits
    ensures Safe(ApplySchedule(s, t, c))
  {
    var s', w := ApplySchedule(s, t, c), Ids(s.active);
    forall k | 0 <= k < |s'.active| ensures AllClear(s'.waits, s'.active[k].cleanups, s'.active, k + 1) {
      ScheduleSections(s, t, c, k);
    }
    forall u | 0 <= u < |s'.threads| ensures AllClear(s'.waits, s'.threads[u].running, s'.active, 0) {
      ClearCarry(s.waits, c, w, s.threads[u].running, s.active, s'.active, 0);
    }
    ClearCarry(s.waits, c, w, s.done, s.active, s'.active, 0);
  }

  lemma ScheduleWaits(s: State, t: ThreadId, c: Cleanup)
    requires WaitsOk(s) && ActiveOk(s.active, s.nextId) && t < |s.threads|
    ensures WaitsOk(ApplySchedule(s, t, c))
  {
  }

  lemma ScheduleKeeps(s: State, t: ThreadId, c: Cleanup)
    requires Inv(s) && Enabled(s, Schedule(t, c))
    ensures Inv(ApplySchedule(s, t, c))
  {
    ScheduleActive(s, t, c);
    ScheduleSafe(s, t, c);
    var s' := ApplySchedule(s, t, c);
    ScheduleWaits(s, t, c);
    forall d: Cleanup ensures Places(s', d) == if d in s'.waits then 1 else 0 {
      ScheduleConserves(s, t, c, d);
    }
  }

  lemma StepKeeps(s: State, step: Step)
    requires Inv(s) && Enabled(s, step)
    ensures Inv(Apply(s, step))
  {
    match step
    case Enter(t) => EnterKeeps(s, t);
    case Leave(t) => LeaveKeeps(s, t);
    case RunNext(t) => RunKeeps(s, t);
    case Schedule(t, c) => ScheduleKeeps(s, t, c);
  }

  // ---------------------------------------------------------------------------------------------
  // Runs
  // ---------------------------------------------------------------------------------------------

  /** `n` threads, none in a critical section. */
  function Init(n: nat): State {
    State(0, [], seq(n, _ => Thread(0, [], [])), [], map[])
  }

  lemma {:induction false} NothingYet(lists: seq<seq<Cleanup>>, c: Cleanup)
    requires forall k :: 0 <= k < |lists| ==> lists[k] == []
    ensures Count(lists, c) == 0
  {
    if |lists| > 0 {
      NothingYet(lists[..|lists| - 1], c);
    }
  }

  lemma InitHolds(n: nat)
    ensures Inv(Init(n))
  {
    var s := Init(n);
    forall c: Cleanup ensures Places(s, c) == 0 {
      NothingYet(LocalLists(s.threads), c);
      NothingYet(RunningLists(s.threads), c);
    }
  }

  ghost predicate Legal(s: State, steps: seq<Step>)
    decreases |steps|
  {
    |steps| == 0 || (Enabled(s, steps[0]) && Legal(Apply(s, steps[0]), steps[1..]))
  }

  ghost function Run(s: State, steps: seq<Step>): State
    requires Legal(s, steps)
    decreases |steps|
  {
    if |steps| == 0 then s else Run(Apply(s, steps[0]), steps[1..])
  }

  /** Carrying out a whole list at once is a run of the machine. */
  lemma {:induction false} DrainedByRun(s: State, t: ThreadId) returns (steps: seq<Step>)
    requires t < |s.threads|
    ensures Legal(s, steps) && Run(s, steps) == Drained(s, t) && forall step :: step in steps ==> step == RunNext(t)
    decreases |s.threads[t].running|
  {
    var th := s.threads[t];
    if th.running == [] {
      steps := [];
      assert Drained(s, t) == s;
    } else {
      var s' := ApplyRun(s, t);
      var rest := DrainedByRun(s', t);
      steps := [RunNext(t)] + rest;
      assert steps[1..] == rest;
      assert s.done + [th.running[0]] + th.running[1..] == s.done + th.running;
      assert Drained(s', t).threads == s.threads[t := th.(running := [])];
    }
  }

  lemma {:induction false} InvThroughout(s: State, steps: seq<Step>)
    requires Inv(s) && Legal(s, steps)
    ensures Inv(Run(s, steps))
    decreases |steps|
  {
    if |steps| > 0 {
      StepKeeps(s, steps[0]);
      InvThroughout(Apply(s, steps[0]), steps[1..]);
    }
  }

  lemma {:induction false} WaitsStay(s: State, steps: seq<Step>, c: Cleanup)
    requires Legal(s, steps) && c in s.waits
    ensures c in Run(s, steps).waits && Run(s, steps).waits[c] == s.waits[c]
    decreases |steps|
  {
    if |steps| > 0 {
      WaitsStay(Apply(s, steps[0]), steps[1..], c);
    }
  }

  ghost predicate Started(s: State, c: Cleanup) {
    c in s.done || exists t :: 0 <= t < |s.threads| && c in s.threads[t].running
  }

  lemma StartedClear(s: State, c: Cleanup)
    requires Safe(s)
    ensures Started(s, c) ==> Clear(s.waits, c, s.active, 0)
  {
  }

  /** A cleanup is started, let alone carried out, only after every critical section that was active when
      it was scheduled has ended, whatever transfers its list goes through. */
  lemma GracePeriod(s: State, t: ThreadId, c: Cleanup, steps: seq<Step>, section: nat)
    requires Inv(s) && Enabled(s, Schedule(t, c)) && Legal(ApplySchedule(s, t, c), steps)
    requires section in Ids(s.active) && section in Ids(Run(ApplySchedule(s, t, c), steps).active)
    ensures !Started(Run(ApplySchedule(s, t, c), steps), c)
  {
    var s1 := ApplySchedule(s, t, c);
    var s2 := Run(s1, steps);
    ScheduleKeeps(s, t, c);
    InvThroughout(s1, steps);
    WaitsStay(s1, steps, c);
    StartedClear(s2, c);
    var k :| 0 <= k < |s2.active| && s2.active[k].id == section;
    assert s2.active[k].id in s2.waits[c];
  }

  /** A section that has ended never comes back. */
  lemma {:induction false} EndedStays(s: State, steps: seq<Step>, section: nat)
    requires Inv(s) && Legal(s, steps) && section < s.nextId && section !in Ids(s.active)
    ensures section !in Ids(Run(s, steps).active)
    decreases |steps|
  {
    if |steps| > 0 {
      StepKeeps(s, steps[0]);
      StepEnds(s, steps[0], section);
      EndedStays(Apply(s, steps[0]), steps[1..], section);
    }
  }

  lemma StepEnds(s: State, step: Step, section: nat)
    requires Inv(s) && Enabled(s, step) && section < s.nextId && section !in Ids(s.active)
    ensures section !in Ids(Apply(s, step).active) && section < Apply(s, step).nextId
  {
    var s' := Apply(s, step);
    forall m | 0 <= m < |s'.active| ensures s'.active[m].id != section {
      match step
      case Enter(t) => assert m < |s.active| ==> s'.active[m].id in Ids(s.active);
      case Leave(t) =>
        if s.threads[t].nesting == 1 {
          var k, o := SectionOf(s.active, t), s.active[if m < SectionOf(s.active, t) then m else m + 1];
          GiveNewestAt(s.active, s.threads[t].local, if m < k then m else m + 1);
          EndSectionAt(GiveNewest(s.active, s.threads[t].local), k, m);
          assert o.id in Ids(s.active);
        } else {
          assert s.active[m].id in Ids(s.active);
        }
      case RunNext(t) => assert s.active[m].id in Ids(s.active);
      case Schedule(t, c) =>
        ScheduleActive(s, t, c);
        assert s.active[m].id in Ids(s.active);
    }
  }

  /** No cleanup is lost and none is carried out twice: each one scheduled is in exactly one place. */
  lemma NeverLostNorRepeated(n: nat, steps: seq<Step>, c: Cleanup)
    requires Legal(Init(n), steps)
    ensures Places(Run(Init(n), steps), c) == if c in Run(Init(n), steps).waits then 1 else 0
    ensures Times(Run(Init(n), steps).done, c) <= 1
  {
    InitHolds(n);
    InvThroughout(Init(n), steps);
  }

  ghost function Inside(s: State): set<ThreadId> {
    set t | 0 <= t < |s.threads| && s.threads[t].nesting > 0
  }

  ghost function Owners(active: seq<Section>): set<ThreadId> {
    set k | 0 <= k < |active| :: active[k].thread
  }

  lemma {:induction false} OwnersCount(active: seq<Section>)
    requires forall i, j :: 0 <= i < j < |active| ==> active[i].thread != active[j].thread
    ensures |Owners(active)| == |active|
  {
    if |active| > 0 {
      var n := |active| - 1;
      OwnersCount(active[..n]);
      assert active[n].thread !in Owners(active[..n]);
      assert Owners(active) == Owners(active[..n]) + {active[n].thread};
    }
  }

  /** The list has one section for each thread that is inside one. */
  lemma OnePerThreadInside(s: State)
    requires Inv(s)
    ensures |s.active| == |Inside(s)|
  {
    OwnersCount(s.active);
    forall t ensures t in Owners(s.active) <==> t in Inside(s) {
      if 0 <= t < |s.threads| {
        assert ThreadOk(s.active, t, s.threads[t]);
      }
    }
    assert Owners(s.active) == Inside(s);
  }

  /** Once no section is active and every list being carried out is finished, every cleanup that was ever
      scheduled has been carried out, once. */
  lemma NoneOutstanding(s: State, c: Cleanup)
    requires Inv(s) && s.active == [] && forall t :: 0 <= t < |s.threads| ==> s.threads[t].running == []
    ensures Times(s.done, c) == if c in s.waits then 1 else 0
  {
    forall t | 0 <= t < |s.threads| ensures s.threads[t].local == [] {
      assert ThreadOk(s.active, t, s.threads[t]);
    }
    NothingYet(LocalLists(s.threads), c);
    NothingYet(RunningLists(s.threads), c);
    assert Places(s, c) == Times(s.done, c);
  }
}
