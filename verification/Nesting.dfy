/** Nested critical sections: a section lasts until its thread has left more often than it has entered since. */
module Nesting {
  import opened Garbage
  import opened GarbageRuns

  /** Starting `depth` sections deep, a thread that takes the steps `enter` and `leave` is never out of all of them. */
  predicate NeverOut<T(==)>(steps: seq<T>, enter: T, leave: T, depth: nat) {
    forall m :: 0 <= m <= |steps| ==> multiset(steps[..m])[leave] < depth + multiset(steps[..m])[enter]
  }

  function Deeper<T(==)>(step: T, enter: T, leave: T, depth: nat): int {
    depth + (if step == enter then 1 else 0) - (if step == leave then 1 else 0)
  }

  lemma CountFirst<T>(steps: seq<T>, x: T)
    requires |steps| > 0
    ensures multiset(steps)[x] == multiset(steps[1..])[x] + if steps[0] == x then 1 else 0
  {
    assert steps == [steps[0]] + steps[1..];
  }

  lemma CountNext<T>(steps: seq<T>, m: nat, x: T)
    requires |steps| > 0 && m <= |steps| - 1
    ensures multiset(steps[..m + 1])[x] == multiset(steps[1..][..m])[x] + if steps[0] == x then 1 else 0
  {
    assert steps[..m + 1] == [steps[0]] + steps[1..][..m];
  }

  lemma NeverOutNext<T>(steps: seq<T>, enter: T, leave: T, depth: nat)
    requires |steps| > 0 && depth > 0 && enter != leave
    ensures NeverOut(steps, enter, leave, depth) <==>
              && Deeper(steps[0], enter, leave, depth) > 0
              && NeverOut(steps[1..], enter, leave, Deeper(steps[0], enter, leave, depth))
  {
    var d := Deeper(steps[0], enter, leave, depth);
    if NeverOut(steps, enter, leave, depth) {
      CountNext(steps, 0, enter);
      CountNext(steps, 0, leave);
      assert multiset(steps[..1])[leave] < depth + multiset(steps[..1])[enter];
      forall m: nat | m <= |steps[1..]|
        ensures multiset(steps[1..][..m])[leave] < d + multiset(steps[1..][..m])[enter]
      {
        CountNext(steps, m, enter);
        CountNext(steps, m, leave);
        assert multiset(steps[..m + 1])[leave] < depth + multiset(steps[..m + 1])[enter];
      }
    }
    if d > 0 && NeverOut(steps[1..], enter, leave, d) {
      forall m: nat | m <= |steps| ensures multiset(steps[..m])[leave] < depth + multiset(steps[..m])[enter] {
        if m > 0 {
          var k := m - 1;
          CountNext(steps, k, enter);
          CountNext(steps, k, leave);
          assert multiset(steps[1..][..k])[leave] < d + multiset(steps[1..][..k])[enter];
        }
      }
    }
  }

  /** The section that thread `t` is in has number `id`. */
  ghost predicate In(s: State, t: ThreadId, id: nat) {
    exists k :: 0 <= k < |s.active| && s.active[k].thread == t && s.active[k].id == id
  }

  lemma InsideIs(s: State, t: ThreadId, id: nat)
    requires Inv(s) && In(s, t, id)
    ensures t < |s.threads| && s.threads[t].nesting > 0 && id < s.nextId && id in Ids(s.active)
  {
    var k :| 0 <= k < |s.active| && s.active[k].thread == t && s.active[k].id == id;
    assert Owned(s.active, t);
    assert ThreadOk(s.active, t, s.threads[t]);
    assert s.active[k].id in Ids(s.active);
  }

  /** Entering from outside begins a section, with the next number. */
  lemma EnterBegins(s: State, t: ThreadId)
    requires Inv(s) && Enabled(s, Enter(t)) && !Owned(s.active, t)
    ensures In(Apply(s, Enter(t)), t, s.nextId) && Apply(s, Enter(t)).threads[t].nesting == 1
  {
    var s' := Apply(s, Enter(t));
    assert ThreadOk(s.active, t, s.threads[t]);
    assert s'.active[|s.active|].thread == t;
  }

  lemma StepIn(s: State, step: Step, t: ThreadId, id: nat)
    requires Inv(s) && Enabled(s, step) && In(s, t, id)
    ensures t < |s.threads| && s.threads[t].nesting > 0 && id < s.nextId
    ensures var d := Deeper(step, Enter(t), Leave(t), s.threads[t].nesting);
            if d == 0 then id !in Ids(Apply(s, step).active)
            else In(Apply(s, step), t, id) && t < |Apply(s, step).threads| && Apply(s, step).threads[t].nesting == d
  {
    var k :| 0 <= k < |s.active| && s.active[k].thread == t && s.active[k].id == id;
    assert Owned(s.active, t);
    assert ThreadOk(s.active, t, s.threads[t]);
    if step.Leave? {
      LeaveIn(s, step.thread, t, k);
    } else {
      StepDepth(s, step, t);
      OtherIn(s, step, k);
      assert Apply(s, step).active[k].thread == t && Apply(s, step).active[k].id == id;
    }
  }

  lemma OtherIn(s: State, step: Step, k: nat)
    requires Enabled(s, step) && !step.Leave? && k < |s.active|
    ensures var s' := Apply(s, step);
            k < |s'.active| && s'.active[k].thread == s.active[k].thread && s'.active[k].id == s.active[k].id
  {
  }

  lemma LeaveIn(s: State, u: ThreadId, t: ThreadId, k: nat)
    requires Inv(s) && Enabled(s, Leave(u)) && k < |s.active| && s.active[k].thread == t && t < |s.threads|
    ensures var s' := ApplyLeave(s, u);
            if u == t && s.threads[t].nesting == 1 then s.active[k].id !in Ids(s'.active)
            else
              && In(s', t, s.active[k].id)
              && s'.threads[t].nesting == s.threads[t].nesting - (if u == t then 1 else 0)
  {
    var s', id := ApplyLeave(s, u), s.active[k].id;
    if s.threads[u].nesting == 1 {
      var o, local := SectionOf(s.active, u), s.threads[u].local;
      var given := GiveNewest(s.active, local);
      if u == t {
        assert o == k;
        forall m | 0 <= m < |s'.active| ensures s'.active[m].id != id {
          EndSectionAt(given, o, m);
          GiveNewestAt(s.active, local, if m < o then m else m + 1);
        }
      } else {
        var m := if k < o then k else k - 1;
        EndSectionAt(given, o, m);
        GiveNewestAt(s.active, local, k);
        assert s'.active[m].thread == t && s'.active[m].id == id;
      }
    } else {
      assert s'.active[k].thread == t && s'.active[k].id == id;
    }
  }

  lemma {:induction false} InLasts(s: State, steps: seq<Step>, t: ThreadId, id: nat)
    requires Inv(s) && Legal(s, steps) && In(s, t, id)
    ensures t < |s.threads|
    ensures id in Ids(Run(s, steps).active) <==> NeverOut(steps, Enter(t), Leave(t), s.threads[t].nesting)
    ensures id in Ids(Run(s, steps).active) ==> In(Run(s, steps), t, id)
    decreases |steps|
  {
    var k :| 0 <= k < |s.active| && s.active[k].thread == t && s.active[k].id == id;
    assert Owned(s.active, t);
    assert ThreadOk(s.active, t, s.threads[t]);
    if |steps| == 0 {
      assert s.active[k].id in Ids(s.active);
    } else {
      var s' := Apply(s, steps[0]);
      StepKeeps(s, steps[0]);
      StepIn(s, steps[0], t, id);
      NeverOutNext(steps, Enter(t), Leave(t), s.threads[t].nesting);
      if Deeper(steps[0], Enter(t), Leave(t), s.threads[t].nesting) == 0 {
        EndedStays(s', steps[1..], id);
      } else {
        InLasts(s', steps[1..], t, id);
      }
    }
  }

  /** A section is active exactly as long as its thread has left no more often than it has entered since it began. */
  lemma SectionLasts(s: State, t: ThreadId, steps: seq<Step>)
    requires Inv(s) && Enabled(s, Enter(t)) && !Owned(s.active, t) && Legal(Apply(s, Enter(t)), steps)
    ensures s.nextId in Ids(Run(Apply(s, Enter(t)), steps).active) <==>
              forall m :: 0 <= m <= |steps| ==> multiset(steps[..m])[Leave(t)] <= multiset(steps[..m])[Enter(t)]
  {
    StepKeeps(s, Enter(t));
    EnterBegins(s, t);
    InLasts(Apply(s, Enter(t)), steps, t, s.nextId);
  }

  /** In every run a thread is inside a section exactly if it has entered more often than it has left. */
  lemma {:induction false} InsideByCount(s: State, steps: seq<Step>, t: ThreadId)
    requires Legal(s, steps) && t < |s.threads|
    ensures t < |Run(s, steps).threads|
    ensures Run(s, steps).threads[t].nesting ==
            s.threads[t].nesting + multiset(steps)[Enter(t)] - multiset(steps)[Leave(t)]
    decreases |steps|
  {
    if |steps| > 0 {
      var s' := Apply(s, steps[0]);
      StepDepth(s, steps[0], t);
      InsideByCount(s', steps[1..], t);
      CountFirst(steps, Enter(t));
      CountFirst(steps, Leave(t));
    }
  }

  lemma StepDepth(s: State, step: Step, t: ThreadId)
    requires Enabled(s, step) && t < |s.threads|
    ensures t < |Apply(s, step).threads|
    ensures Apply(s, step).threads[t].nesting == Deeper(step, Enter(t), Leave(t), s.threads[t].nesting)
  {
  }

  lemma MayLeaveByCount(n: nat, steps: seq<Step>, t: ThreadId)
    requires Legal(Init(n), steps) && t < n
    ensures Enabled(Run(Init(n), steps), Leave(t)) <==> multiset(steps)[Leave(t)] < multiset(steps)[Enter(t)]
  {
    var s := Run(Init(n), steps);
    InitHolds(n);
    InvThroughout(Init(n), steps);
    InsideByCount(Init(n), steps, t);
    assert ThreadOk(s.active, t, s.threads[t]);
  }
}
