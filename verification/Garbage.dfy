/** Deferred cleanups: what waits for which critical section, as a state machine over any number of threads.

    A cleanup scheduled inside a critical section waits on its thread's own list.  When the section ends the
    list goes to the newest section; the list of a section that ends goes to the one before it, and is run
    when there is none.  `waits` is bookkeeping for the proofs: which sections were active when a cleanup
    was scheduled.  Cleanups are told apart by number. */
module Garbage {

  type Cleanup = nat
  type ThreadId = nat

  /** An active critical section: its number in order of creation, its thread, and its list. */
  datatype Section = Section(id: nat, thread: ThreadId, cleanups: seq<Cleanup>)

  /** `local` is the thread's own list; `running` is what is left of the list it is carrying out. */
  datatype Thread = Thread(nesting: nat, local: seq<Cleanup>, running: seq<Cleanup>)

  datatype State = State(
    nextId: nat,
    active: seq<Section>,
    threads: seq<Thread>,
    done: seq<Cleanup>,
    waits: map<Cleanup, set<nat>>)

  datatype Step =
    | Enter(thread: ThreadId)
    | Leave(thread: ThreadId)
    | RunNext(thread: ThreadId)
    | Schedule(thread: ThreadId, cleanup: Cleanup)

  // ---------------------------------------------------------------------------------------------
  // Lists of cleanups
  // ---------------------------------------------------------------------------------------------

  /** One list takes over another: the longer one is kept and the shorter one goes behind it. */
  function Merge(mine: seq<Cleanup>, theirs: seq<Cleanup>): seq<Cleanup> {
    if |mine| < |theirs| then theirs + mine else mine + theirs
  }

  function Times(list: seq<Cleanup>, c: Cleanup): nat {
    multiset(list)[c]
  }

  lemma MergeConserves(mine: seq<Cleanup>, theirs: seq<Cleanup>, c: Cleanup)
    ensures Times(Merge(mine, theirs), c) == Times(mine, c) + Times(theirs, c)
    ensures c in Merge(mine, theirs) <==> c in mine || c in theirs
  {
  }

  /** How often a cleanup is on a number of lists, taken together. */
  function Count(lists: seq<seq<Cleanup>>, c: Cleanup): nat {
    if |lists| == 0 then 0 else Count(lists[..|lists| - 1], c) + Times(lists[|lists| - 1], c)
  }

  lemma {:induction false} CountConcat(a: seq<seq<Cleanup>>, b: seq<seq<Cleanup>>, c: Cleanup)
    ensures Count(a + b, c) == Count(a, c) + Count(b, c)
  {
    if |b| == 0 {
      assert a + b == a;
    } else {
      CountConcat(a, b[..|b| - 1], c);
      assert (a + b)[..|a + b| - 1] == a + b[..|b| - 1];
    }
  }

  lemma CountOne(l: seq<Cleanup>, c: Cleanup)
    ensures Count([l], c) == Times(l, c)
  {
  }

  lemma CountSplit(lists: seq<seq<Cleanup>>, k: nat, c: Cleanup)
    requires k < |lists|
    ensures Count(lists, c) == Count(lists[..k], c) + Times(lists[k], c) + Count(lists[k + 1..], c)
  {
    assert lists == lists[..k] + [lists[k]] + lists[k + 1..];
    CountConcat(lists[..k] + [lists[k]], lists[k + 1..], c);
    CountConcat(lists[..k], [lists[k]], c);
    CountOne(lists[k], c);
  }

  lemma CountUpdate(lists: seq<seq<Cleanup>>, k: nat, l: seq<Cleanup>, c: Cleanup)
    requires k < |lists|
    ensures Count(lists[k := l], c) == Count(lists, c) - Times(lists[k], c) + Times(l, c)
  {
    var lists' := lists[k := l];
    CountSplit(lists, k, c);
    CountSplit(lists', k, c);
    assert lists'[..k] == lists[..k];
    assert lists'[k + 1..] == lists[k + 1..];
  }

  lemma CountHas(lists: seq<seq<Cleanup>>, k: nat, c: Cleanup)
    requires k < |lists| && c in lists[k]
    ensures Count(lists, c) > 0
  {
  }

  // ---------------------------------------------------------------------------------------------
  // Steps
  // ---------------------------------------------------------------------------------------------

  /** Position of the thread's section, or the number of sections when it has none. */
  function SectionOf(active: seq<Section>, t: ThreadId): (k: nat)
    ensures k <= |active|
    ensures k < |active| ==> active[k].thread == t
    ensures k == |active| ==> forall j :: 0 <= j < |active| ==> active[j].thread != t
  {
    if |active| == 0 then 0
    else if active[0].thread == t then 0
    else 1 + SectionOf(active[1..], t)
  }

  /** The newest section takes over a list. */
  function GiveNewest(active: seq<Section>, list: seq<Cleanup>): (r: seq<Section>)
    requires |active| > 0
    ensures |r| == |active|
  {
    var n := |active| - 1;
    active[n := active[n].(cleanups := Merge(active[n].cleanups, list))]
  }

  /** A section ends: the one before it takes over its list. */
  function EndSection(active: seq<Section>, k: nat): (r: seq<Section>)
    requires k < |active|
    ensures |r| == |active| - 1
  {
    if k == 0 then active[1..]
    else
      active[..k - 1] + [active[k - 1].(cleanups := Merge(active[k - 1].cleanups, active[k].cleanups))] +
      active[k + 1..]
  }

  ghost function Ids(active: seq<Section>): set<nat> {
    set k | 0 <= k < |active| :: active[k].id
  }

  predicate InSection(s: State, t: ThreadId) {
    t < |s.threads| && s.threads[t].nesting > 0
  }

  /** A thread carries out a list of cleanups before it does anything else. */
  ghost predicate Enabled(s: State, step: Step) {
    match step
    case Enter(t) => t < |s.threads| && s.threads[t].running == []
    case Leave(t) => InSection(s, t) && SectionOf(s.active, t) < |s.active|
    case RunNext(t) => t < |s.threads| && s.threads[t].running != []
    case Schedule(t, c) => t < |s.threads| && s.threads[t].running == [] && c !in s.waits
  }

  function ApplyEnter(s: State, t: ThreadId): State
    requires t < |s.threads|
  {
    var th := s.threads[t];
    var threads' := s.threads[t := th.(nesting := th.nesting + 1)];
    if th.nesting > 0 then s.(threads := threads')
    else s.(threads := threads', active := s.active + [Section(s.nextId, t, [])], nextId := s.nextId + 1)
  }

  function ApplyLeave(s: State, t: ThreadId): State
    requires InSection(s, t) && SectionOf(s.active, t) < |s.active|
  {
    var th := s.threads[t];
    if th.nesting > 1 then s.(threads := s.threads[t := th.(nesting := th.nesting - 1)])
    else
      var given := GiveNewest(s.active, th.local);
      var k := SectionOf(s.active, t);
      s.(active := EndSection(given, k),
         threads := s.threads[t := Thread(0, [], if k == 0 then given[k].cleanups else [])])
  }

  function ApplyRun(s: State, t: ThreadId): State
    requires t < |s.threads| && s.threads[t].running != []
  {
    var th := s.threads[t];
    s.(threads := s.threads[t := th.(running := th.running[1..])], done := s.done + [th.running[0]])
  }

  /** The thread carries out the whole list it is at. */
  function Drained(s: State, t: ThreadId): State
    requires t < |s.threads|
  {
    var th := s.threads[t];
    s.(threads := s.threads[t := th.(running := [])], done := s.done + th.running)
  }

  /** Where a scheduled cleanup goes. */
  function Place(s: State, t: ThreadId, c: Cleanup): State
    requires t < |s.threads|
  {
    var th := s.threads[t];
    if th.nesting > 0 then s.(threads := s.threads[t := th.(local := th.local + [c])])
    else if |s.active| > 0 then
      var n := |s.active| - 1;
      s.(active := s.active[n := s.active[n].(cleanups := s.active[n].cleanups + [c])])
    else s.(done := s.done + [c])
  }

  ghost function ApplySchedule(s: State, t: ThreadId, c: Cleanup): State
    requires t < |s.threads|
  {
    Place(s, t, c).(waits := s.waits[c := Ids(s.active)])
  }

  ghost function Apply(s: State, step: Step): State
    requires Enabled(s, step)
  {
    match step
    case Enter(t) => ApplyEnter(s, t)
    case Leave(t) => ApplyLeave(s, t)
    case RunNext(t) => ApplyRun(s, t)
    case Schedule(t, c) => ApplySchedule(s, t, c)
  }

  // ---------------------------------------------------------------------------------------------
  // The invariant
  // ---------------------------------------------------------------------------------------------

  /** Sections are listed in order of creation, and each belongs to one thread that is inside. */
  ghost predicate ActiveOk(active: seq<Section>, next: nat) {
    && (forall i, j :: 0 <= i < j < |active| ==> active[i].id < active[j].id && active[i].thread != active[j].thread)
    && (forall k :: 0 <= k < |active| ==> active[k].id < next)
  }

  ghost predicate Owned(active: seq<Section>, t: ThreadId) {
    exists k :: 0 <= k < |active| && active[k].thread == t
  }

  ghost predicate ThreadsOk(active: seq<Section>, threads: seq<Thread>) {
    && (forall k :: 0 <= k < |active| ==> active[k].thread < |threads|)
    && (forall t :: 0 <= t < |threads| ==> ThreadOk(active, t, threads[t]))
  }

  ghost predicate ThreadOk(active: seq<Section>, t: ThreadId, th: Thread) {
    && (th.nesting > 0 <==> Owned(active, t))
    && (th.nesting > 0 ==> th.running == [])
    && (th.nesting == 0 ==> th.local == [])
  }

  /** The cleanup was scheduled when none of the sections from position `from` on was active. */
  ghost predicate Clear(waits: map<Cleanup, set<nat>>, c: Cleanup, active: seq<Section>, from: nat) {
    c in waits && forall m :: from <= m < |active| ==> active[m].id !in waits[c]
  }

  ghost predicate AllClear(waits: map<Cleanup, set<nat>>, list: seq<Cleanup>, active: seq<Section>, from: nat) {
    forall c :: c in list ==> Clear(waits, c, active, from)
  }

  /** A cleanup on a section's list waits for no later section, and one being carried out waits for none. */
  ghost predicate Safe(s: State) {
    && (forall k :: 0 <= k < |s.active| ==> AllClear(s.waits, s.active[k].cleanups, s.active, k + 1))
    && (forall t :: 0 <= t < |s.threads| ==> AllClear(s.waits, s.threads[t].running, s.active, 0))
    && AllClear(s.waits, s.done, s.active, 0)
  }

  ghost predicate WaitsOk(s: State) {
    forall c, i :: c in s.waits && i in s.waits[c] ==> i < s.nextId
  }

  ghost function SectionLists(active: seq<Section>): (r: seq<seq<Cleanup>>)
    ensures |r| == |active|
  {
    seq(|active|, k requires 0 <= k < |active| => active[k].cleanups)
  }

  ghost function LocalLists(threads: seq<Thread>): (r: seq<seq<Cleanup>>)
    ensures |r| == |threads|
  {
    seq(|threads|, t requires 0 <= t < |threads| => threads[t].local)
  }

  ghost function RunningLists(threads: seq<Thread>): (r: seq<seq<Cleanup>>)
    ensures |r| == |threads|
  {
    seq(|threads|, t requires 0 <= t < |threads| => threads[t].running)
  }

  /** In how many places a cleanup is: on threads' own lists, on sections', being carried out, or done. */
  ghost function Places(s: State, c: Cleanup): nat {
    Count(LocalLists(s.threads), c) + Count(SectionLists(s.active), c) + Count(RunningLists(s.threads), c) +
    Times(s.done, c)
  }

  /** Each scheduled cleanup is in exactly one place, and nothing else is. */
  ghost predicate Conserved(s: State) {
    forall c: Cleanup :: Places(s, c) == if c in s.waits then 1 else 0
  }

  ghost predicate Inv(s: State) {
    && ActiveOk(s.active, s.nextId)
    && ThreadsOk(s.active, s.threads)
    && Safe(s)
    && WaitsOk(s)
    && Conserved(s)
  }
}
