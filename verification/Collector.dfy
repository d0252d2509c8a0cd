/** The deferred-cleanup code on the heap: per-thread data and the list of active sections. */
module Collector {
  import opened Garbage
  import opened CriticalList
  import GarbageRuns

  /** What the source keeps in thread-local variables. */
  class ThreadInfo {
    var critical: CriticalInfo?   // the entry of the thread's section; null outside
    var alloc: CriticalInfo?      // the entry made for the thread
    var cleanups: seq<Cleanup>
    var nesting: nat

    constructor ()
      ensures critical == null && alloc == null && cleanups == [] && nesting == 0
    {
      critical, alloc, cleanups, nesting := null, null, [], 0;
    }

    ghost function State(): Thread
      reads this, alloc
    {
      Thread(nesting, cleanups, if critical == null && alloc != null then alloc.cleanups else [])
    }

    /** The thread is inside a section exactly when its nesting count says so; outside, its entry is not live. */
    ghost predicate Valid(t: ThreadId)
      reads this, alloc
    {
      && (nesting > 0 <==> critical != null)
      && (critical != null ==> critical == alloc)
      && (alloc != null ==> alloc.thread == t && (critical == null ==> !alloc.live))
    }
  }

  class GarbageCollector {
    const list: SectionList
    const threads: seq<ThreadInfo>
    var numInCritical: int
    var done: seq<Cleanup>                  // the cleanups carried out
    ghost var infos: set<CriticalInfo>
    ghost var nextId: nat
    ghost var waits: map<Cleanup, set<nat>>

    ghost predicate Valid()
      reads this, list, list.nodes, threads, infos
    {
      && list.Valid()
      && numInCritical == |list.nodes|
      && (forall i, j :: 0 <= i < j < |threads| ==> threads[i] != threads[j])
      && (forall t :: 0 <= t < |threads| ==>
            (threads[t].alloc != null ==> threads[t].alloc in infos) && threads[t].Valid(t))
      && (forall n :: n in list.nodes ==> n in infos && n.thread < |threads| && threads[n.thread].critical == n)
      && (forall t :: 0 <= t < |threads| && threads[t].critical != null ==> threads[t].critical in list.nodes)
    }

    /** The state of the machine that the heap stands for. */
    ghost function State(): State
      requires forall t :: 0 <= t < |threads| && threads[t].alloc != null ==> threads[t].alloc in infos
      reads this, list, list.nodes, threads, infos
    {
      Garbage.State.State(nextId, list.Sections(), ThreadStates(), done, waits)
    }

    ghost function ThreadStates(): (r: seq<Thread>)
      requires forall t :: 0 <= t < |threads| && threads[t].alloc != null ==> threads[t].alloc in infos
      reads this, threads, infos
      ensures |r| == |threads|
    {
      seq(|threads|, t requires 0 <= t < |threads| && (threads[t].alloc != null ==> threads[t].alloc in infos)
                       reads this, threads, infos => threads[t].State())
    }

    constructor (count: nat)
      ensures Valid() && State() == GarbageRuns.Init(count)
      ensures fresh(list) && fresh(threads) && infos == {}
    {
      var made: seq<ThreadInfo> := [];
      while |made| < count
        invariant |made| <= count
        invariant forall i, j :: 0 <= i < j < |made| ==> made[i] != made[j]
        invariant forall i :: 0 <= i < |made| ==> fresh(made[i]) && made[i].critical == null && made[i].alloc == null
        invariant forall i :: 0 <= i < |made| ==> made[i].cleanups == [] && made[i].nesting == 0
      {
        var th := new ThreadInfo();
        made := made + [th];
      }
      list := new SectionList();
      threads := made;
      numInCritical, done := 0, [];
      infos, nextId, waits := {}, 0, map[];
    }

    /** The fields are those of the machine's state. */
    lemma Fields(t: ThreadId)
      requires Valid() && t < |threads|
      ensures |State().threads| == |threads| && State().active == list.Sections() && State().done == done
      ensures State().nextId == nextId
      ensures State().threads[t].nesting == threads[t].nesting && State().threads[t].local == threads[t].cleanups
    {
      assert ThreadStates()[t] == threads[t].State();
    }

    /** Each entry is counted; only one from outside begins a section, which is then the newest. */
    method EnterCritical(t: ThreadId)
      requires Valid() && t < |threads| && threads[t].State().running == []
      modifies this, list, list.nodes, threads[t], infos
      ensures Valid() && fresh(infos - old(infos))
      ensures State() == ApplyEnter(old(State()), t)
      ensures threads[t].nesting == old(threads[t].nesting) + 1
      ensures list.Sections() == if old(threads[t].nesting) > 0 then old(list.Sections())
                                 else old(list.Sections()) + [Section(old(nextId), t, [])]
      ensures threads[t].cleanups == old(threads[t].cleanups) && done == old(done)
    {
      Fields(t);
      var th := threads[t];
      if th.critical != null {
        SetNesting(t, th.nesting + 1);
      } else {
        AllocateFor(t);
        Begin(t);
      }
      Fields(t);
    }

    method SetNesting(t: ThreadId, nesting: nat)
      requires Valid() && t < |threads| && threads[t].nesting > 0 && nesting > 0
      modifies threads[t]
      ensures Valid()
      ensures var s := old(State()); State() == s.(threads := s.threads[t := s.threads[t].(nesting := nesting)])
    {
      threads[t].nesting := nesting;
    }

    /** The thread's entry is made when it is first needed. */
    method AllocateFor(t: ThreadId)
      requires Valid() && t < |threads|
      modifies this`infos, threads[t]
      ensures Valid() && fresh(infos - old(infos)) && old(infos) <= infos
      ensures threads[t].alloc != null && threads[t].critical == old(threads[t].critical)
      ensures State() == old(State()) && threads[t].State() == old(threads[t].State())
    {
      var th := threads[t];
      if th.alloc == null {
        th.alloc := new CriticalInfo(t);
        infos := infos + {th.alloc};
      }
      assert ThreadStates() == old(ThreadStates());
    }

    /** Thread `u` is as it was. */
    twostate predicate Same(u: ThreadId)
      requires u < |threads|
      reads this, threads, infos
    {
      && (threads[u].alloc != null ==> threads[u].alloc in infos)
      && threads[u].critical == old(threads[u].critical)
      && threads[u].alloc == old(threads[u].alloc)
      && threads[u].State() == old(threads[u].State())
      && (old(threads[u].Valid(u)) ==> threads[u].Valid(u))
    }

    /** The thread's entry goes into the list, and the thread is inside. */
    method Link(t: ThreadId)
      requires Valid() && t < |threads| && threads[t].critical == null && threads[t].alloc != null
      modifies list, list.nodes, threads[t], infos
      ensures list.Valid() && list.nodes == old(list.nodes) + [old(threads[t].alloc)]
      ensures list.Sections() == old(list.Sections() + [Section(nextId, t, threads[t].alloc.cleanups)])
      ensures threads[t].critical == threads[t].alloc == old(threads[t].alloc)
      ensures threads[t].nesting == old(threads[t].nesting) + 1 && threads[t].cleanups == old(threads[t].cleanups)
      ensures threads[t].Valid(t)
      ensures forall u :: 0 <= u < |threads| && u != t ==> Same(u)
    {
      var th := threads[t];
      th.critical := th.alloc;
      th.critical.id := nextId;
      list.Insert(th.critical);
      th.nesting := th.nesting + 1;
    }

    /** The thread's section becomes the newest one. */
    method Begin(t: ThreadId)
      requires Valid() && t < |threads| && threads[t].critical == null && threads[t].alloc != null
      requires threads[t].State().running == []
      modifies this, list, list.nodes, threads[t], infos
      ensures Valid() && infos == old(infos)
      ensures State() == ApplyEnter(old(State()), t)
    {
      Link(t);
      forall u | 0 <= u < |threads| && u != t
        ensures threads[u].State() == old(threads[u].State()) && threads[u].Valid(u)
        ensures threads[u].alloc == old(threads[u].alloc) && threads[u].critical == old(threads[u].critical)
      {
        assert Same(u);
      }
      numInCritical := numInCritical + 1;
      nextId := nextId + 1;
    }

    /** The position of the thread's section. */
    lemma Position(t: ThreadId) returns (k: nat)
      requires Valid() && t < |threads| && threads[t].nesting > 0
      ensures k < |list.nodes| && list.nodes[k] == threads[t].critical == threads[t].alloc
      ensures SectionOf(list.Sections(), t) == k
    {
      k :| 0 <= k < |list.nodes| && list.nodes[k] == threads[t].critical;
      var j := SectionOf(list.Sections(), t);
      assert list.Sections()[k].thread == t;
      assert list.nodes[j] in list.nodes;
    }

    /** Where only thread `t` has changed, so has only its part of the state. */
    twostate lemma OnlyThread(t: ThreadId)
      requires t < |threads| && old(Valid())
      requires forall u :: 0 <= u < |threads| && u != t ==> Same(u)
      requires threads[t].alloc != null ==> threads[t].alloc in infos
      ensures forall u :: 0 <= u < |threads| && threads[u].alloc != null ==> threads[u].alloc in infos
      ensures ThreadStates() == old(ThreadStates())[t := threads[t].State()]
      ensures forall u :: 0 <= u < |threads| && u != t ==> threads[u].Valid(u)
    {
      forall u | 0 <= u < |threads| && threads[u].alloc != null ensures threads[u].alloc in infos {
        assert u != t ==> Same(u);
      }
      forall u | 0 <= u < |threads| && u != t
        ensures threads[u].State() == old(threads[u].State()) && threads[u].Valid(u)
      {
        assert Same(u);
      }
    }

    /** The thread's own list goes to the newest section. */
    method GiveLocal(t: ThreadId)
      requires Valid() && t < |threads| && threads[t].nesting > 0
      modifies list.nodes, threads[t]
      ensures Valid() && list.nodes == old(list.nodes)
      ensures threads[t].State() == old(threads[t].State()).(local := [])
      ensures threads[t].critical == old(threads[t].critical) && threads[t].alloc == old(threads[t].alloc)
      ensures |old(list.Sections())| > 0
      ensures list.Sections() == GiveNewest(old(list.Sections()), old(threads[t].cleanups))
      ensures ThreadStates() == old(ThreadStates())[t := threads[t].State()]
    {
      assert threads[t].critical in list.nodes;
      threads[t].cleanups := list.GiveToNewest(threads[t].cleanups);
      forall u | 0 <= u < |threads| && u != t ensures Same(u) {
        assert threads[u] != threads[t];
      }
      OnlyThread(t);
    }

    /** The thread's entry leaves the list, and the thread is outside. */
    method Part(t: ThreadId, ghost k: nat)
      requires Valid() && t < |threads| && threads[t].nesting == 1
      requires k < |list.nodes| && list.nodes[k] == threads[t].critical
      modifies list, list.nodes, threads[t]
      ensures list.Valid() && list.nodes == old(list.nodes[..k] + list.nodes[k + 1..])
      ensures list.Sections() == EndSection(old(list.Sections()), k)
      ensures threads[t].State() ==
              Thread(0, old(threads[t].cleanups), if k == 0 then old(threads[t].alloc.cleanups) else [])
      ensures threads[t].Valid(t) && threads[t].critical == null && threads[t].alloc == old(threads[t].alloc)
      ensures forall u :: 0 <= u < |threads| && u != t ==> Same(u)
      ensures forall u :: 0 <= u < |threads| ==>
                (threads[u].alloc != null ==> threads[u].alloc in infos) && threads[u].Valid(u)
      ensures ThreadStates() == old(ThreadStates())[t := threads[t].State()]
    {
      var th := threads[t];
      list.Remove(th.critical, k);
      th.critical := null;
      th.nesting := 0;
      forall u | 0 <= u < |threads| && u != t ensures Same(u) {
        assert threads[u] != th && threads[u].alloc != th.alloc;
      }
      OnlyThread(t);
    }

    method PartAndCount(t: ThreadId, ghost k: nat)
      requires Valid() && t < |threads| && threads[t].nesting == 1
      requires k < |list.nodes| && list.nodes[k] == threads[t].critical
      modifies this`numInCritical, list, list.nodes, threads[t]
      ensures Valid() && threads[t].critical == null && threads[t].alloc == old(threads[t].alloc)
      ensures list.Sections() == EndSection(old(list.Sections()), k)
      ensures threads[t].State() ==
              Thread(0, old(threads[t].cleanups), if k == 0 then old(threads[t].alloc.cleanups) else [])
      ensures ThreadStates() == old(ThreadStates())[t := threads[t].State()]
    {
      list.OthersStay(k);
      Part(t, k);
      numInCritical := numInCritical - 1;
    }

    /** What leaving does under the lock. */
    method EndCritical(t: ThreadId)
      requires Valid() && t < |threads| && threads[t].nesting == 1
      modifies this, list, list.nodes, threads[t]
      ensures Valid() && infos == old(infos)
      ensures threads[t].critical == null && threads[t].alloc != null && threads[t].alloc in infos
      ensures SectionOf(old(list.Sections()), t) < |old(list.Sections())|
      ensures State() == ApplyLeave(old(State()), t)
    {
      ghost var k := Position(t);
      ghost var s := State();
      ghost var given := GiveNewest(s.active, s.threads[t].local);
      GiveLocal(t);
      assert threads[t].alloc.cleanups == given[k].cleanups by {
        assert list.Sections()[k] == list.nodes[k].Section();
      }
      PartAndCount(t, k);
      assert list.Sections() == EndSection(given, k);
      assert ThreadStates() == s.threads[t := Thread(0, [], if k == 0 then given[k].cleanups else [])];
    }

    /** What leaving does after the lock is released: the thread carries out what its entry was left with. */
    method CleanUp(t: ThreadId)
      requires Valid() && t < |threads| && threads[t].critical == null && threads[t].alloc != null
      modifies this`done, infos
      ensures Valid()
      ensures State() == Drained(old(State()), t)
    {
      var ci := threads[t].alloc;
      var i := 0;
      while i != |ci.cleanups|
        invariant 0 <= i <= |ci.cleanups|
        invariant done == old(done) + ci.cleanups[..i]
        modifies this`done
      {
        done := done + [ci.cleanups[i]];
        i := i + 1;
      }
      ci.cleanups := [];
      assert ci !in list.nodes;
      forall u | 0 <= u < |threads| && u != t ensures Same(u) {
        assert threads[u].alloc != ci;
      }
      OnlyThread(t);
    }

    /** `ok` is false where the source throws because of bad nesting. */
    method LeaveCritical(t: ThreadId) returns (ok: bool)
      requires Valid() && t < |threads|
      modifies this, list, list.nodes, threads[t], infos
      ensures Valid() && infos == old(infos)
      ensures ok <==> old(threads[t].nesting) > 0
      ensures threads[t].nesting == if ok then old(threads[t].nesting) - 1 else 0
      ensures old(threads[t].nesting) != 1 ==>
                && list.Sections() == old(list.Sections())
                && done == old(done) && threads[t].cleanups == old(threads[t].cleanups)
      ensures old(threads[t].nesting) == 1 ==>
                && threads[t].critical == null && threads[t].cleanups == []
                && |list.Sections()| == |old(list.Sections())| - 1
      ensures ok ==> SectionOf(old(list.Sections()), t) < |old(list.Sections())|
      ensures State() == if !ok then old(State())
                         else if old(threads[t].nesting) > 1 then ApplyLeave(old(State()), t)
                         else Drained(ApplyLeave(old(State()), t), t)
    {
      ok := threads[t].nesting > 0;
      Fields(t);
      if !ok {
        return;
      }
      ghost var k := Position(t);
      if threads[t].nesting > 1 {
        SetNesting(t, threads[t].nesting - 1);
      } else {
        EndCritical(t);
        CleanUp(t);
      }
      Fields(t);
    }

    method ScheduleCleanup(t: ThreadId, cleanup: Cleanup)
      requires Valid() && t < |threads|
      modifies this, list.nodes, threads[t]
      ensures Valid() && infos == old(infos)
      ensures State() == ApplySchedule(old(State()), t, cleanup)
      ensures var inside := old(threads[t].nesting) > 0;
              var was := old(list.Sections());
              var last := |was| - 1;
              if inside then
                && threads[t].cleanups == old(threads[t].cleanups) + [cleanup]
                && list.Sections() == was && done == old(done)
              else if last >= 0 then
                && list.Sections() == was[last := was[last].(cleanups := was[last].cleanups + [cleanup])]
                && threads[t].cleanups == old(threads[t].cleanups) && done == old(done)
              else
                && done == old(done) + [cleanup]
                && list.Sections() == was && threads[t].cleanups == old(threads[t].cleanups)
    {
      Fields(t);
      ghost var ids := Ids(State().active);
      Put(t, cleanup);
      waits := waits[cleanup := ids];
      Fields(t);
    }

    /** Inside a section the cleanup goes on the thread's own list, outside on the newest section's; with no
        section active it is carried out at once. */
    method Put(t: ThreadId, cleanup: Cleanup)
      requires Valid() && t < |threads|
      modifies this`done, list.nodes, threads[t]
      ensures Valid() && State() == Place(old(State()), t, cleanup)
    {
      if threads[t].critical == null {
        ScheduleOutside(t, cleanup);
      } else {
        ScheduleLocal(t, cleanup);
      }
    }

    method ScheduleLocal(t: ThreadId, cleanup: Cleanup)
      requires Valid() && t < |threads| && threads[t].critical != null
      modifies threads[t]
      ensures Valid() && State() == Place(old(State()), t, cleanup)
    {
      threads[t].cleanups := threads[t].cleanups + [cleanup];
      forall u | 0 <= u < |threads| && u != t ensures Same(u) {
        assert threads[u] != threads[t];
      }
      OnlyThread(t);
    }

    method ScheduleOutside(t: ThreadId, cleanup: Cleanup)
      requires Valid() && t < |threads| && threads[t].critical == null
      modifies this`done, list.nodes
      ensures Valid() && State() == Place(old(State()), t, cleanup)
    {
      if list.newest != null {
        AddToNewest(t, cleanup);
      } else {
        done := done + [cleanup];
        assert ThreadStates() == old(ThreadStates());
      }
    }

    method AddToNewest(t: ThreadId, cleanup: Cleanup)
      requires Valid() && t < |threads| && threads[t].critical == null && list.newest != null
      modifies list.nodes
      ensures Valid() && State() == Place(old(State()), t, cleanup)
    {
      list.AddToNewest(cleanup);
      assert ThreadStates() == old(ThreadStates());
    }

    /** Everything that the source's own check looks at holds. */
    lemma CheckInvariants(t: ThreadId)
      requires Valid() && t < |threads|
      ensures numInCritical == 0 ==> threads[t].critical == null && list.newest == null
      ensures numInCritical != 0 ==>
                && list.newest != null && list.newest.live && list.newest.next == null
                && (threads[t].critical != null ==> threads[t].critical.live)
      ensures numInCritical == 1 ==>
                && list.newest.prev == null
                && (threads[t].critical != null ==> threads[t].critical == list.newest)
    {
      if numInCritical > 0 {
        assert LinkedAt(list.nodes, numInCritical - 1);
      }
      if threads[t].critical != null {
        var k :| 0 <= k < |list.nodes| && list.nodes[k] == threads[t].critical;
        assert LinkedAt(list.nodes, k);
      }
    }
  }
}
