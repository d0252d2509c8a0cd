/** When a cleanup is started: exactly when the sections it was handed over to have ended. */
module Prompt {
  import opened Garbage
  import opened GarbageRuns
  import opened Nesting

  // ---------------------------------------------------------------------------------------------
  // Where a cleanup is
  // ---------------------------------------------------------------------------------------------

  /** The first `n` active sections are those of the numbers in `ids`, and the cleanup is on the list of the last of
      them, or, when there are none, it is started. */
  ghost predicate At(s: State, c: Cleanup, ids: set<nat>, n: nat) {
    && n <= |s.active|
    && (forall i :: 0 <= i < |s.active| ==> (s.active[i].id in ids <==> i < n))
    && if n > 0 then c in s.active[n - 1].cleanups else Started(s, c)
  }

  lemma StartedStays(s: State, step: Step, c: Cleanup)
    requires Inv(s) && Enabled(s, step) && Started(s, c)
    ensures Started(Apply(s, step), c)
  {
    var s' := Apply(s, step);
    if c in s.done {
      assert c in s'.done;
    } else {
      var t :| 0 <= t < |s.threads| && c in s.threads[t].running;
      assert ThreadOk(s.active, t, s.threads[t]);
      match step
      case RunNext(u) =>
        if u == t && c == s.threads[t].running[0] {
          assert c in s'.done;
        } else {
          assert c in s'.threads[t].running;
        }
      case _ => assert s'.threads[t].running == s.threads[t].running;
    }
  }

  lemma EnterAt(s: State, t: ThreadId, c: Cleanup, ids: set<nat>, n: nat)
    requires Inv(s) && Enabled(s, Enter(t)) && At(s, c, ids, n) && forall i :: i in ids ==> i < s.nextId
    ensures At(Apply(s, Enter(t)), c, ids, n)
  {
    if n == 0 {
      StartedStays(s, Enter(t), c);
    }
  }

  lemma OtherAt(s: State, step: Step, c: Cleanup, ids: set<nat>, n: nat)
    requires Inv(s) && Enabled(s, step) && At(s, c, ids, n) && (step.RunNext? || step.Schedule?)
    ensures At(Apply(s, step), c, ids, n)
  {
    var s' := Apply(s, step);
    assert |s'.active| == |s.active|;
    assert forall i :: 0 <= i < |s.active| ==> s'.active[i].id == s.active[i].id;
    if n == 0 {
      StartedStays(s, step, c);
    } else {
      var m := n - 1;
      assert s.active[m].cleanups <= s'.active[m].cleanups;
    }
  }

  /** The list of a section that ends goes to the one before, or is carried out. */
  lemma EndAt(active: seq<Section>, k: nat, c: Cleanup, ids: set<nat>, n: nat, n': nat)
    requires k < |active| && n <= |active| && forall i :: 0 <= i < |active| ==> (active[i].id in ids <==> i < n)
    requires n > 0 && c in active[n - 1].cleanups && n' == if k < n then n - 1 else n
    ensures var r := EndSection(active, k);
            && n' <= |r| && (forall i :: 0 <= i < |r| ==> (r[i].id in ids <==> i < n'))
            && if n' > 0 then c in r[n' - 1].cleanups else k == 0 && c in active[k].cleanups
  {
    var r := EndSection(active, k);
    forall i | 0 <= i < |r| ensures r[i].id in ids <==> i < n' {
      EndSectionAt(active, k, i);
    }
    if n' > 0 {
      var last := n' - 1;
      EndSectionAt(active, k, last);
      if k < |active| && k > 0 {
        MergeConserves(active[k - 1].cleanups, active[k].cleanups, c);
      }
    }
  }

  lemma GivenAt(active: seq<Section>, list: seq<Cleanup>, c: Cleanup, ids: set<nat>, n: nat)
    requires 0 < n <= |active| && c in active[n - 1].cleanups
    requires forall i :: 0 <= i < |active| ==> (active[i].id in ids <==> i < n)
    ensures var r := GiveNewest(active, list);
            c in r[n - 1].cleanups && forall i :: 0 <= i < |r| ==> (r[i].id in ids <==> i < n)
  {
    var last := |active| - 1;
    MergeConserves(active[last].cleanups, list, c);
  }

  lemma LeaveAt(s: State, t: ThreadId, c: Cleanup, ids: set<nat>, n: nat) returns (n': nat)
    requires Inv(s) && Enabled(s, Leave(t)) && At(s, c, ids, n)
    ensures At(ApplyLeave(s, t), c, ids, n')
  {
    if s.threads[t].nesting > 1 || n == 0 {
      n' := n;
      if n == 0 {
        StartedStays(s, Leave(t), c);
        LeaveNone(s, t, ids);
      }
    } else {
      n' := if SectionOf(s.active, t) < n then n - 1 else n;
      EndsAt(s, t, c, ids, n, n');
    }
  }

  lemma EndsAt(s: State, t: ThreadId, c: Cleanup, ids: set<nat>, n: nat, n': nat)
    requires Enabled(s, Leave(t)) && s.threads[t].nesting == 1 && n > 0 && At(s, c, ids, n)
    requires n' == if SectionOf(s.active, t) < n then n - 1 else n
    ensures At(ApplyLeave(s, t), c, ids, n')
  {
    var k, local := SectionOf(s.active, t), s.threads[t].local;
    var given := GiveNewest(s.active, local);
    GivenAt(s.active, local, c, ids, n);
    EndAt(given, k, c, ids, n, n');
    if n' == 0 {
      assert c in ApplyLeave(s, t).threads[t].running;
    }
  }

  lemma LeaveNone(s: State, t: ThreadId, ids: set<nat>)
    requires Inv(s) && Enabled(s, Leave(t)) && forall i :: 0 <= i < |s.active| ==> s.active[i].id !in ids
    ensures forall i :: 0 <= i < |ApplyLeave(s, t).active| ==> ApplyLeave(s, t).active[i].id !in ids
  {
    var given, k := GiveNewest(s.active, s.threads[t].local), SectionOf(s.active, t);
    if s.threads[t].nesting == 1 {
      forall i | 0 <= i < |ApplyLeave(s, t).active| ensures ApplyLeave(s, t).active[i].id !in ids {
        EndSectionAt(given, k, i);
        GiveNewestAt(s.active, s.threads[t].local, if i < k then i else i + 1);
      }
    }
  }

  lemma StepAt(s: State, step: Step, c: Cleanup, ids: set<nat>, n: nat) returns (n': nat)
    requires Inv(s) && Enabled(s, step) && At(s, c, ids, n) && forall i :: i in ids ==> i < s.nextId
    ensures At(Apply(s, step), c, ids, n') && forall i :: i in ids ==> i < Apply(s, step).nextId
  {
    n' := n;
    match step
    case Enter(t) => EnterAt(s, t, c, ids, n);
    case Leave(t) => n' := LeaveAt(s, t, c, ids, n);
    case _ => OtherAt(s, step, c, ids, n);
  }

  lemma {:induction false} RunAt(s: State, steps: seq<Step>, c: Cleanup, ids: set<nat>, n: nat) returns (n': nat)
    requires Inv(s) && Legal(s, steps) && At(s, c, ids, n) && forall i :: i in ids ==> i < s.nextId
    ensures Inv(Run(s, steps)) && At(Run(s, steps), c, ids, n')
    decreases |steps|
  {
    n' := n;
    if |steps| > 0 {
      StepKeeps(s, steps[0]);
      n' := StepAt(s, steps[0], c, ids, n);
      n' := RunAt(Apply(s, steps[0]), steps[1..], c, ids, n');
    }
  }

  // ---------------------------------------------------------------------------------------------
  // When it is started
  // ---------------------------------------------------------------------------------------------

  /** A cleanup on a section's list is not started. */
  lemma ListedNotStarted(s: State, k: nat, c: Cleanup)
    requires Inv(s) && k < |s.active| && c in s.active[k].cleanups
    ensures !Started(s, c)
  {
    assert SectionLists(s.active)[k] == s.active[k].cleanups;
    CountHas(SectionLists(s.active), k, c);
    if Started(s, c) && c !in s.done {
      var t :| 0 <= t < |s.threads| && c in s.threads[t].running;
      assert RunningLists(s.threads)[t] == s.threads[t].running;
      CountHas(RunningLists(s.threads), t, c);
    }
    assert Places(s, c) <= 1;
  }

  lemma AtMeans(s: State, c: Cleanup, ids: set<nat>, n: nat)
    requires Inv(s) && At(s, c, ids, n)
    ensures Started(s, c) <==> ids !! Ids(s.active)
  {
    if n > 0 {
      var k := n - 1;
      ListedNotStarted(s, k, c);
      assert s.active[k].id in Ids(s.active);
    }
  }

  /** The numbers of the first `n` sections. */
  ghost function FirstIds(active: seq<Section>, n: nat): set<nat>
    requires n <= |active|
  {
    set i | 0 <= i < n :: active[i].id
  }

  /** A cleanup on the list of a section is started exactly when that section and all older ones have ended. */
  lemma StartedExactly(s: State, k: nat, c: Cleanup, steps: seq<Step>)
    requires Inv(s) && k < |s.active| && c in s.active[k].cleanups && Legal(s, steps)
    ensures Started(Run(s, steps), c) <==>
              forall i :: 0 <= i <= k ==> s.active[i].id !in Ids(Run(s, steps).active)
  {
    var n := k + 1;
    var ids := FirstIds(s.active, n);
    forall i | 0 <= i < |s.active| ensures s.active[i].id in ids <==> i < n {
      if s.active[i].id in ids {
        var j :| 0 <= j < n && s.active[j].id == s.active[i].id;
      }
    }
    var n' := RunAt(s, steps, c, ids, n);
    AtMeans(Run(s, steps), c, ids, n');
    forall i | 0 <= i <= k ensures s.active[i].id in ids {
    }
  }

  /** A cleanup scheduled outside critical sections is started exactly when every section that was active has ended. */
  lemma OutsideExactly(s: State, t: ThreadId, c: Cleanup, steps: seq<Step>)
    requires Inv(s) && Enabled(s, Schedule(t, c)) && !Owned(s.active, t) && Legal(Apply(s, Schedule(t, c)), steps)
    ensures Started(Run(Apply(s, Schedule(t, c)), steps), c) <==>
              Ids(s.active) !! Ids(Run(Apply(s, Schedule(t, c)), steps).active)
  {
    var s' := Apply(s, Schedule(t, c));
    StepKeeps(s, Schedule(t, c));
    ScheduledOutside(s, t, c);
    var n' := RunAt(s', steps, c, Ids(s.active), |s.active|);
    AtMeans(Run(s', steps), c, Ids(s.active), n');
  }

  lemma ScheduledOutside(s: State, t: ThreadId, c: Cleanup)
    requires Inv(s) && Enabled(s, Schedule(t, c)) && !Owned(s.active, t)
    ensures At(Apply(s, Schedule(t, c)), c, Ids(s.active), |s.active|)
    ensures forall i :: i in Ids(s.active) ==> i < Apply(s, Schedule(t, c)).nextId
  {
    var s' := Apply(s, Schedule(t, c));
    assert ThreadOk(s.active, t, s.threads[t]);
    forall i | 0 <= i < |s'.active| ensures i < |s.active| && s'.active[i].id in Ids(s.active) {
      assert s'.active[i].id == s.active[i].id;
    }
  }

  /** A cleanup scheduled inside a section is kept by its thread until that ends, and then handed over: from then on it
      is started exactly when every section that was active at the end of its own has ended. */
  lemma InsideExactly(s: State, t: ThreadId, c: Cleanup, steps: seq<Step>)
    requires Inv(s) && Enabled(s, Leave(t)) && c in s.threads[t].local && !Owned(Apply(s, Leave(t)).active, t)
    requires Legal(Apply(s, Leave(t)), steps)
    ensures Started(Run(Apply(s, Leave(t)), steps), c) <==>
              Ids(Apply(s, Leave(t)).active) !! Ids(Run(Apply(s, Leave(t)), steps).active)
  {
    var s' := Apply(s, Leave(t));
    StepKeeps(s, Leave(t));
    assert ThreadOk(s'.active, t, s'.threads[t]);
    var n, ids := |s'.active|, Ids(s'.active);
    HandedOver(s, t, c);
    var n' := RunAt(s', steps, c, ids, n);
    AtMeans(Run(s', steps), c, ids, n');
  }

  lemma HandedOver(s: State, t: ThreadId, c: Cleanup)
    requires Inv(s) && Enabled(s, Leave(t)) && c in s.threads[t].local && s.threads[t].nesting == 1
    ensures var s' := ApplyLeave(s, t); At(s', c, Ids(s'.active), |s'.active|)
  {
    var s', k, local := ApplyLeave(s, t), SectionOf(s.active, t), s.threads[t].local;
    var given, last := GiveNewest(s.active, local), |s.active| - 1;
    MergeConserves(s.active[last].cleanups, local, c);
    assert c in given[last].cleanups;
    if |s'.active| > 0 {
      EndSectionAt(given, k, last - 1);
      if k == last {
        MergeConserves(given[k - 1].cleanups, given[k].cleanups, c);
      }
    } else {
      assert c in s'.threads[t].running;
    }
  }

  /** Until then it stays where it is. */
  lemma LocalWaits(s: State, step: Step, t: ThreadId, c: Cleanup)
    requires Inv(s) && Enabled(s, step) && t < |s.threads| && c in s.threads[t].local
    requires Owned(Apply(s, step).active, t)
    ensures c in Apply(s, step).threads[t].local
  {
    StepDepth(s, step, t);
    StepKeeps(s, step);
    assert ThreadOk(Apply(s, step).active, t, Apply(s, step).threads[t]);
    LocalStays(s, step, t, c);
  }

  lemma LocalStays(s: State, step: Step, t: ThreadId, c: Cleanup)
    requires Enabled(s, step) && t < |s.threads| && c in s.threads[t].local
    requires step == Leave(t) ==> s.threads[t].nesting > 1
    ensures c in Apply(s, step).threads[t].local
  {
  }

  /** Scheduling inside a section puts it there. */
  lemma ScheduledInside(s: State, t: ThreadId, c: Cleanup)
    requires Inv(s) && Enabled(s, Schedule(t, c)) && Owned(s.active, t)
    ensures c in Apply(s, Schedule(t, c)).threads[t].local && !Started(Apply(s, Schedule(t, c)), c)
  {
    assert ThreadOk(s.active, t, s.threads[t]);
    StepKeeps(s, Schedule(t, c));
    var k :| 0 <= k < |s.active| && s.active[k].thread == t;
    assert s.active[k].id in Ids(s.active);
    StartedClear(Apply(s, Schedule(t, c)), c);
    assert Apply(s, Schedule(t, c)).active[k].id in Apply(s, Schedule(t, c)).waits[c];
  }

  lemma {:induction false} LocalWaitsOn(s: State, steps: seq<Step>, t: ThreadId, id: nat, c: Cleanup)
    requires Inv(s) && Legal(s, steps) && In(s, t, id) && t < |s.threads| && c in s.threads[t].local
    requires id in Ids(Run(s, steps).active)
    ensures Inv(Run(s, steps)) && t < |Run(s, steps).threads| && c in Run(s, steps).threads[t].local
    decreases |steps|
  {
    if |steps| > 0 {
      var s' := Apply(s, steps[0]);
      StepKeeps(s, steps[0]);
      StepIn(s, steps[0], t, id);
      if id !in Ids(s'.active) {
        EndedStays(s', steps[1..], id);
      }
      InIsOwned(s', t, id);
      LocalWaits(s, steps[0], t, c);
      LocalWaitsOn(s', steps[1..], t, id, c);
    }
  }

  lemma InIsOwned(s: State, t: ThreadId, id: nat)
    requires In(s, t, id)
    ensures Owned(s.active, t)
  {
  }

  lemma LeaveEnds(s: State, t: ThreadId, id: nat)
    requires Inv(s) && In(s, t, id) && Enabled(s, Leave(t)) && id !in Ids(Apply(s, Leave(t)).active)
    ensures !Owned(Apply(s, Leave(t)).active, t)
  {
    StepKeeps(s, Leave(t));
    StepIn(s, Leave(t), t, id);
    StepDepth(s, Leave(t), t);
    InsideOnce(s, t, id);
    assert ThreadOk(Apply(s, Leave(t)).active, t, Apply(s, Leave(t)).threads[t]);
  }

  lemma InsideOnce(s: State, t: ThreadId, id: nat)
    requires Inv(s) && In(s, t, id) && Enabled(s, Leave(t)) && id !in Ids(Apply(s, Leave(t)).active)
    ensures t < |s.threads| && s.threads[t].nesting == 1
  {
    StepIn(s, Leave(t), t, id);
    if s.threads[t].nesting > 1 {
      InsideIs(s, t, id);
    }
  }

  /** From scheduling on: a cleanup scheduled inside section `id` is not started while that is active, and when it ends,
      is started exactly when every other section active then has ended. */
  lemma ScheduledInsideExactly(s: State, t: ThreadId, id: nat, c: Cleanup, steps: seq<Step>, more: seq<Step>)
    requires Inv(s) && In(s, t, id) && Enabled(s, Schedule(t, c)) && Legal(Apply(s, Schedule(t, c)), steps)
    requires var p := Run(Apply(s, Schedule(t, c)), steps);
             && id in Ids(p.active) && Enabled(p, Leave(t)) && id !in Ids(Apply(p, Leave(t)).active)
             && Legal(Apply(p, Leave(t)), more)
    ensures var p := Run(Apply(s, Schedule(t, c)), steps);
            && !Started(p, c)
            && (Started(Run(Apply(p, Leave(t)), more), c) <==>
                  Ids(Apply(p, Leave(t)).active) !! Ids(Run(Apply(p, Leave(t)), more).active))
  {
    var s1 := Apply(s, Schedule(t, c));
    InIsOwned(s, t, id);
    InsideIs(s, t, id);
    ScheduledInside(s, t, c);
    StepKeeps(s, Schedule(t, c));
    StepIn(s, Schedule(t, c), t, id);
    LocalWaitsOn(s1, steps, t, id, c);
    GracePeriod(s, t, c, steps, id);
    var p := Run(s1, steps);
    InLasts(s1, steps, t, id);
    LeaveEnds(p, t, id);
    InsideExactly(p, t, c, more);
  }

  // ---------------------------------------------------------------------------------------------
  // When that is as soon as possible
  // ---------------------------------------------------------------------------------------------

  lemma RunCons(s: State, step: Step, steps: seq<Step>)
    requires Enabled(s, step) && Legal(Apply(s, step), steps)
    ensures Legal(s, [step] + steps) && Run(s, [step] + steps) == Run(Apply(s, step), steps)
  {
    assert ([step] + steps)[1..] == steps;
  }

  lemma HeadFirst<T>(a: seq<T>, b: seq<T>)
    requires |a| > 0
    ensures a + b == [a[0]] + (a[1..] + b)
  {
  }

  lemma {:induction false} RunAppend(s: State, a: seq<Step>, b: seq<Step>)
    requires Legal(s, a) && Legal(Run(s, a), b)
    ensures Legal(s, a + b) && Run(s, a + b) == Run(Run(s, a), b)
    decreases |a|
  {
    if |a| == 0 {
      assert a + b == b;
    } else {
      var rest := a[1..];
      RunAppend(Apply(s, a[0]), rest, b);
      RunCons(s, a[0], rest + b);
      HeadFirst(a, b);
    }
  }

  lemma LeaveIds(s: State, t: ThreadId, id: nat)
    requires Inv(s) && In(s, t, id)
    ensures t < |s.threads| && Enabled(s, Leave(t)) && Inv(Apply(s, Leave(t)))
    ensures if s.threads[t].nesting == 1 then Ids(Apply(s, Leave(t)).active) == Ids(s.active) - {id}
            else Apply(s, Leave(t)).active == s.active && In(Apply(s, Leave(t)), t, id)
  {
    InsideIs(s, t, id);
    StepKeeps(s, Leave(t));
    StepIn(s, Leave(t), t, id);
    if s.threads[t].nesting == 1 {
      forall i ensures i in Ids(Apply(s, Leave(t)).active) <==> i in Ids(s.active) && i != id {
        if i in Ids(s.active) && i != id {
          OtherStays(s, t, id, i);
        } else if i in Ids(Apply(s, Leave(t)).active) {
          InOld(s, t, i);
        }
      }
    }
  }

  lemma OtherStays(s: State, t: ThreadId, id: nat, i: nat)
    requires Inv(s) && Enabled(s, Leave(t)) && In(s, t, id) && i in Ids(s.active) && i != id
    ensures i in Ids(Apply(s, Leave(t)).active)
  {
    var m :| 0 <= m < |s.active| && s.active[m].id == i;
    var k :| 0 <= k < |s.active| && s.active[k].thread == t && s.active[k].id == id;
    LeaveIn(s, t, s.active[m].thread, m);
    StepKeeps(s, Leave(t));
    InsideIs(Apply(s, Leave(t)), s.active[m].thread, i);
  }

  lemma InOld(s: State, t: ThreadId, i: nat)
    requires Inv(s) && Enabled(s, Leave(t)) && i in Ids(Apply(s, Leave(t)).active)
    ensures i in Ids(s.active)
  {
    StepKeeps(s, Leave(t));
    if i !in Ids(s.active) {
      StepEnds(s, Leave(t), i);
    }
  }

  /** The thread of a section can leave it. */
  lemma {:induction false} LeaveOut(s: State, t: ThreadId, id: nat) returns (steps: seq<Step>)
    requires Inv(s) && In(s, t, id)
    ensures Legal(s, steps) && Inv(Run(s, steps)) && Ids(Run(s, steps).active) == Ids(s.active) - {id}
    decreases if t < |s.threads| then s.threads[t].nesting else 0
  {
    LeaveIds(s, t, id);
    var s' := Apply(s, Leave(t));
    var rest := [];
    if s.threads[t].nesting > 1 {
      rest := LeaveOut(s', t, id);
    }
    steps := [Leave(t)] + rest;
    assert steps[1..] == rest;
  }

  /** Any sections can be left. */
  lemma {:induction false} EndAll(s: State, ids: set<nat>) returns (steps: seq<Step>)
    requires Inv(s)
    ensures Legal(s, steps) && Ids(Run(s, steps).active) == Ids(s.active) - ids
    decreases |Ids(s.active) * ids|
  {
    if Ids(s.active) !! ids {
      steps := [];
    } else {
      var t, id := OneOf(s, ids);
      var first := LeaveOut(s, t, id);
      Fewer(Ids(Run(s, first).active), Ids(s.active), ids, id);
      var rest := EndAll(Run(s, first), ids);
      RunAppend(s, first, rest);
      steps := first + rest;
    }
  }

  lemma OneOf(s: State, ids: set<nat>) returns (t: ThreadId, id: nat)
    requires !(Ids(s.active) !! ids)
    ensures In(s, t, id) && id in Ids(s.active) && id in ids
  {
    id :| id in Ids(s.active) && id in ids;
    var k :| 0 <= k < |s.active| && s.active[k].id == id;
    t := s.active[k].thread;
  }

  lemma Fewer(a: set<nat>, b: set<nat>, ids: set<nat>, id: nat)
    requires a == b - {id} && id in b && id in ids
    ensures |a * ids| < |b * ids| && a - ids == b - ids
  {
    assert a * ids == b * ids - {id};
  }

  /** From here on the cleanup is started as soon as the sections that it waits for have ended. */
  ghost predicate AsSoonAsPossible(s: State, c: Cleanup, ids: set<nat>) {
    forall steps :: Legal(s, steps) ==> (Started(Run(s, steps), c) <==> ids !! Ids(Run(s, steps).active))
  }

  lemma StartedWaitsForNone(s: State, t: ThreadId, c: Cleanup, steps: seq<Step>)
    requires Inv(s) && c in s.waits && Enabled(s, Leave(t)) && Legal(Apply(s, Leave(t)), steps)
    requires Started(Run(Apply(s, Leave(t)), steps), c)
    ensures s.waits[c] !! Ids(Run(Apply(s, Leave(t)), steps).active)
  {
    var s' := Apply(s, Leave(t));
    StepKeeps(s, Leave(t));
    InvThroughout(s', steps);
    WaitsStay(s', steps, c);
    StartedClear(Run(s', steps), c);
  }

  /** A cleanup scheduled inside a section is started as soon as possible, whatever happens after the section, if and
      only if no section that has begun since it was scheduled is active when its own ends. */
  lemma AsSoonAsPossibleExactly(s: State, t: ThreadId, c: Cleanup)
    requires Inv(s) && Enabled(s, Leave(t)) && c in s.threads[t].local && !Owned(Apply(s, Leave(t)).active, t)
    ensures c in s.waits
    ensures AsSoonAsPossible(Apply(s, Leave(t)), c, s.waits[c]) <==> Ids(Apply(s, Leave(t)).active) <= s.waits[c]
  {
    var s' := Apply(s, Leave(t));
    LocalKnown(s, t, c);
    StepKeeps(s, Leave(t));
    var w := s.waits[c];
    if Ids(s'.active) <= w {
      forall steps | Legal(s', steps) ensures Started(Run(s', steps), c) <==> w !! Ids(Run(s', steps).active) {
        InsideExactly(s, t, c, steps);
        if Started(Run(s', steps), c) {
          StartedWaitsForNone(s, t, c, steps);
        }
      }
    } else {
      var steps := EndAll(s', w);
      InsideExactly(s, t, c, steps);
      var id :| id in Ids(s'.active) && id !in w;
      assert id in Ids(Run(s', steps).active);
    }
  }

  // ---------------------------------------------------------------------------------------------
  // Not always as soon as possible
  // ---------------------------------------------------------------------------------------------

  /** A section begins, schedules a cleanup and ends; another begins after the scheduling and goes on. */
  function DelaySteps(): seq<Step> {
    [Enter(0), Schedule(0, 7), Enter(1), Leave(0)]
  }

  function Delayed(n: nat): State {
    var out := Thread(0, [], []);
    if n == 0 then State(0, [], [out, out], [], map[])
    else if n == 1 then State(1, [Section(0, 0, [])], [Thread(1, [], []), out], [], map[])
    else if n == 2 then State(1, [Section(0, 0, [])], [Thread(1, [7], []), out], [], map[7 := {0}])
    else if n == 3 then
      State(2, [Section(0, 0, []), Section(1, 1, [])], [Thread(1, [7], []), Thread(1, [], [])], [], map[7 := {0}])
    else State(2, [Section(1, 1, [7])], [out, Thread(1, [], [])], [], map[7 := {0}])
  }

  lemma DelayBegins()
    ensures Delayed(0) == Init(2)
    ensures Enabled(Delayed(0), Enter(0)) && Apply(Delayed(0), Enter(0)) == Delayed(1)
    ensures Enabled(Delayed(1), Schedule(0, 7)) && Apply(Delayed(1), Schedule(0, 7)) == Delayed(2)
  {
    assert Delayed(1).active[0].id in Ids(Delayed(1).active);
    assert Ids(Delayed(1).active) == {0};
    var s, none: seq<Cleanup>, waits: map<Cleanup, set<nat>> := Apply(Delayed(1), Schedule(0, 7)), [], map[];
    assert none + [7] == [7] && waits[7 := {0}] == map[7 := {0}];
    assert s.threads == Delayed(2).threads;
  }

  lemma DelayEnds()
    ensures Enabled(Delayed(2), Enter(1)) && Apply(Delayed(2), Enter(1)) == Delayed(3)
    ensures Enabled(Delayed(3), Leave(0)) && Apply(Delayed(3), Leave(0)) == Delayed(4)
  {
    assert SectionOf(Delayed(3).active, 0) == 0;
    assert GiveNewest(Delayed(3).active, [7])[1] == Section(1, 1, [7]);
  }

  /** A run in which every section that a cleanup waits for has ended and it is not started: it has been handed to a
      section that began after it was scheduled. */
  lemma NotAsSoonAsPossible()
    ensures Legal(Init(2), DelaySteps())
    ensures var s := Run(Init(2), DelaySteps());
            && 7 in s.waits && s.waits[7] == {0} && s.waits[7] !! Ids(s.active) && !Started(s, 7)
  {
    DelayBegins();
    DelayEnds();
    assert DelaySteps()[1..] == [Schedule(0, 7), Enter(1), Leave(0)];
    assert DelaySteps()[1..][1..] == [Enter(1), Leave(0)];
    assert DelaySteps()[1..][1..][1..] == [Leave(0)];
    assert Run(Init(2), DelaySteps()) == Delayed(4);
  }
}
