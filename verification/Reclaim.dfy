/** Copy, publish, retire: the lock-free object's blocks under deferred cleanups.

    A reader inside a critical section picks up an object's block.  A writer fills a new block, swaps it in
    if the object still has the block it started from, and schedules the old block to be freed.  Addresses
    are reused; the generation of a block tells its successive uses apart and is bookkeeping for the proofs,
    as is the role of a block.  A block's contents never change while it is in use. */
module Reclaim {
  import opened Histories
  import G = Garbage
  import R = GarbageRuns
  import N = Nesting

  type Addr = nat

  datatype Role =
    | Free
    | Private(thread: nat)      // being filled by a thread
    | Published(obj: nat)       // the block of an object
    | Retired(thread: nat)      // swapped out by a thread, which has yet to schedule its freeing
    | Doomed(cleanup: nat)      // to be freed by a scheduled cleanup

  datatype Block = Block(gen: nat, role: Role, content: History<int>)

  datatype Ref = Ref(addr: Addr, gen: nat)

  datatype State = State(gc: G.State, mem: seq<Block>, data: seq<Addr>, held: seq<set<Ref>>, target: map<nat, Addr>)

  datatype Step =
    | Enter(thread: nat)
    | Leave(thread: nat)
    | RunNext(thread: nat)
    | Get(thread: nat, obj: nat)
    | Alloc(thread: nat, addr: Addr, content: History<int>)
    | Publish(thread: nat, obj: nat, old_: Ref, addr: Addr)
    | Retire(thread: nat, cleanup: nat, addr: Addr)

  // ---------------------------------------------------------------------------------------------
  // Steps
  // ---------------------------------------------------------------------------------------------

  ghost predicate Enabled(s: State, step: Step) {
    && |s.held| == |s.gc.threads|
    && match step
       case Enter(t) => G.Enabled(s.gc, G.Enter(t))
       case Leave(t) => G.Enabled(s.gc, G.Leave(t))
       case RunNext(t) =>
         && G.Enabled(s.gc, G.RunNext(t)) && s.gc.threads[t].running[0] in s.target
         && s.target[s.gc.threads[t].running[0]] < |s.mem|
       case Get(t, x) => G.InSection(s.gc, t) && x < |s.data| && s.data[x] < |s.mem|
       case Alloc(t, a, _) => t < |s.held| && a <= |s.mem| && (a < |s.mem| ==> s.mem[a].role == Free)
       case Publish(t, x, r, a) =>
         && G.InSection(s.gc, t) && x < |s.data| && s.data[x] < |s.mem|
         && r in s.held[t] && r.addr < |s.mem|
         && a < |s.mem| && s.mem[a].role == Private(t)
       case Retire(t, c, a) => G.Enabled(s.gc, G.Schedule(t, c)) && a < |s.mem| && s.mem[a].role == Retired(t)
  }

  function SetRole(mem: seq<Block>, a: Addr, role: Role): (r: seq<Block>)
    requires a < |mem|
    ensures |r| == |mem|
  {
    mem[a := Block(mem[a].gen, role, mem[a].content)]
  }

  function Hold(s: State, t: nat, x: nat): seq<set<Ref>>
    requires t < |s.held| && x < |s.data| && s.data[x] < |s.mem|
  {
    s.held[t := s.held[t] + {Ref(s.data[x], s.mem[s.data[x]].gen)}]
  }

  function ApplyAlloc(s: State, t: nat, a: Addr, content: History<int>): State
    requires a <= |s.mem|
  {
    if a < |s.mem| then s.(mem := s.mem[a := Block(s.mem[a].gen + 1, Private(t), content)])
    else s.(mem := s.mem + [Block(0, Private(t), content)])
  }

  /** The compare-and-swap looks at the address only.  When it fails the new block is freed at once and the
      caller is given the object's present block. */
  function ApplyPublish(s: State, t: nat, x: nat, r: Ref, a: Addr): State
    requires t < |s.held| && x < |s.data| && s.data[x] < |s.mem| && r.addr < |s.mem| && a < |s.mem|
  {
    if s.data[x] == r.addr
    then s.(data := s.data[x := a], mem := SetRole(SetRole(s.mem, a, Published(x)), r.addr, Retired(t)))
    else s.(mem := SetRole(s.mem, a, Free), held := Hold(s, t, x))
  }

  /** With no critical section active the block is freed at once. */
  ghost function ApplyRetire(s: State, t: nat, c: nat, a: Addr): State
    requires t < |s.gc.threads| && a < |s.mem|
  {
    var atOnce := s.gc.threads[t].nesting == 0 && s.gc.active == [];
    s.(gc := G.ApplySchedule(s.gc, t, c), target := s.target[c := a],
       mem := SetRole(s.mem, a, if atOnce then Free else Doomed(c)))
  }

  ghost function Apply(s: State, step: Step): State
    requires Enabled(s, step)
  {
    match step
    case Enter(t) => s.(gc := G.ApplyEnter(s.gc, t))
    case Leave(t) =>
      s.(gc := G.ApplyLeave(s.gc, t), held := if s.gc.threads[t].nesting > 1 then s.held else s.held[t := {}])
    case RunNext(t) =>
      s.(gc := G.ApplyRun(s.gc, t), mem := SetRole(s.mem, s.target[s.gc.threads[t].running[0]], Free))
    case Get(t, x) => s.(held := Hold(s, t, x))
    case Alloc(t, a, content) => ApplyAlloc(s, t, a, content)
    case Publish(t, x, r, a) => ApplyPublish(s, t, x, r, a)
    case Retire(t, c, a) => ApplyRetire(s, t, c, a)
  }

  // ---------------------------------------------------------------------------------------------
  // The invariant
  // ---------------------------------------------------------------------------------------------

  ghost predicate DataOk(data: seq<Addr>, mem: seq<Block>) {
    && (forall x :: 0 <= x < |data| ==> data[x] < |mem| && mem[data[x]].role == Published(x))
    && (forall a :: 0 <= a < |mem| && mem[a].role.Published? ==> mem[a].role.obj < |data| && data[mem[a].role.obj] == a)
  }

  /** A block is doomed by the one cleanup, not yet carried out, that will free it. */
  ghost predicate DoomedOk(gc: G.State, mem: seq<Block>, target: map<nat, Addr>) {
    && target.Keys == gc.waits.Keys
    && (forall c :: c in target && c !in gc.done ==> target[c] < |mem| && mem[target[c]].role == Doomed(c))
    && (forall a :: 0 <= a < |mem| && mem[a].role.Doomed? ==>
          mem[a].role.cleanup in target && target[mem[a].role.cleanup] == a && mem[a].role.cleanup !in gc.done)
  }

  /** The cleanup waits for the thread's present section. */
  ghost predicate Awaits(gc: G.State, t: nat, c: nat) {
    c in gc.waits && exists k :: 0 <= k < |gc.active| && gc.active[k].thread == t && gc.active[k].id in gc.waits[c]
  }

  /** The block that a thread holds is in use, and is not freed before the thread's section ends. */
  ghost predicate Alive(gc: G.State, mem: seq<Block>, t: nat, r: Ref) {
    && r.addr < |mem| && mem[r.addr].gen == r.gen
    && match mem[r.addr].role
       case Published(_) => true
       case Retired(_) => true
       case Doomed(c) => Awaits(gc, t, c)
       case _ => false
  }

  ghost predicate HeldOk(gc: G.State, mem: seq<Block>, held: seq<set<Ref>>) {
    && |held| == |gc.threads|
    && forall t, r :: 0 <= t < |held| && r in held[t] ==> G.InSection(gc, t) && Alive(gc, mem, t, r)
  }

  ghost predicate BlocksOk(s: State) {
    DataOk(s.data, s.mem) && DoomedOk(s.gc, s.mem, s.target) && HeldOk(s.gc, s.mem, s.held)
  }

  ghost predicate Inv(s: State) {
    G.Inv(s.gc) && BlocksOk(s)
  }

  // ---------------------------------------------------------------------------------------------
  // Each step keeps the invariant
  // ---------------------------------------------------------------------------------------------

  /** A thread goes on waiting where sections stay in place. */
  lemma AwaitsCarry(gc: G.State, gc': G.State, u: nat, c: nat)
    requires |gc.active| <= |gc'.active| && c in gc'.waits && (c in gc.waits ==> gc'.waits[c] == gc.waits[c])
    requires forall k :: 0 <= k < |gc.active| ==>
             gc'.active[k].id == gc.active[k].id && gc'.active[k].thread == gc.active[k].thread
    requires Awaits(gc, u, c)
    ensures Awaits(gc', u, c)
  {
  }

  lemma EnterHeld(gc: G.State, mem: seq<Block>, held: seq<set<Ref>>, t: nat)
    requires HeldOk(gc, mem, held) && t < |gc.threads|
    ensures HeldOk(G.ApplyEnter(gc, t), mem, held)
  {
    var gc' := G.ApplyEnter(gc, t);
    forall u, r | 0 <= u < |held| && r in held[u] ensures G.InSection(gc', u) && Alive(gc', mem, u, r) {
      assert Alive(gc, mem, u, r);
      if mem[r.addr].role.Doomed? {
        AwaitsCarry(gc, gc', u, mem[r.addr].role.cleanup);
      }
    }
  }

  lemma EnterKeeps(s: State, t: nat)
    requires Inv(s) && Enabled(s, Enter(t))
    ensures Inv(Apply(s, Enter(t)))
  {
    R.EnterKeeps(s.gc, t);
    EnterHeld(s.gc, s.mem, s.held, t);
  }

  /** Ending a section leaves every other one in the list, under its number. */
  lemma SectionStays(gc: G.State, t: nat, o: nat) returns (m: nat)
    requires G.ActiveOk(gc.active, gc.nextId) && G.Enabled(gc, G.Leave(t)) && gc.threads[t].nesting == 1
    requires o < |gc.active| && gc.active[o].thread != t
    ensures var active' := G.ApplyLeave(gc, t).active;
            m < |active'| && active'[m].thread == gc.active[o].thread && active'[m].id == gc.active[o].id
  {
    var k := G.SectionOf(gc.active, t);
    m := if o < k then o else o - 1;
    R.GiveNewestAt(gc.active, gc.threads[t].local, o);
    R.EndSectionAt(G.GiveNewest(gc.active, gc.threads[t].local), k, m);
  }

  lemma AwaitsLeave(gc: G.State, t: nat, u: nat, c: nat)
    requires G.ActiveOk(gc.active, gc.nextId) && G.Enabled(gc, G.Leave(t)) && Awaits(gc, u, c)
    requires u != t || gc.threads[t].nesting > 1
    ensures Awaits(G.ApplyLeave(gc, t), u, c)
  {
    var o :| 0 <= o < |gc.active| && gc.active[o].thread == u && gc.active[o].id in gc.waits[c];
    if gc.threads[t].nesting == 1 {
      var m := SectionStays(gc, t, o);
    } else {
      assert G.ApplyLeave(gc, t).active == gc.active;
    }
  }

  lemma LeaveHeld(gc: G.State, mem: seq<Block>, held: seq<set<Ref>>, t: nat)
    requires HeldOk(gc, mem, held) && G.ActiveOk(gc.active, gc.nextId) && G.Enabled(gc, G.Leave(t))
    ensures HeldOk(G.ApplyLeave(gc, t), mem, if gc.threads[t].nesting > 1 then held else held[t := {}])
  {
    var gc', held' := G.ApplyLeave(gc, t), if gc.threads[t].nesting > 1 then held else held[t := {}];
    forall u, r | 0 <= u < |held'| && r in held'[u] ensures G.InSection(gc', u) && Alive(gc', mem, u, r) {
      assert r in held[u] && Alive(gc, mem, u, r);
      if mem[r.addr].role.Doomed? {
        AwaitsLeave(gc, t, u, mem[r.addr].role.cleanup);
      }
    }
  }

  lemma LeaveKeeps(s: State, t: nat)
    requires Inv(s) && Enabled(s, Leave(t))
    ensures Inv(Apply(s, Leave(t)))
  {
    R.LeaveKeeps(s.gc, t);
    LeaveHeld(s.gc, s.mem, s.held, t);
  }

  /** A cleanup being carried out has not been carried out before, and waits for no section. */
  lemma RunningNow(gc: G.State, t: nat)
    requires G.Inv(gc) && G.Enabled(gc, G.RunNext(t))
    ensures var c := gc.threads[t].running[0];
            c in gc.waits && c !in gc.done && forall u :: !Awaits(gc, u, c)
  {
    var c := gc.threads[t].running[0];
    assert G.AllClear(gc.waits, gc.threads[t].running, gc.active, 0);
    assert G.Clear(gc.waits, c, gc.active, 0);
    assert G.RunningLists(gc.threads)[t] == gc.threads[t].running;
    G.CountHas(G.RunningLists(gc.threads), t, c);
    assert G.Places(gc, c) == 1;
  }

  lemma RunDoomed(gc: G.State, mem: seq<Block>, target: map<nat, Addr>, t: nat)
    requires DoomedOk(gc, mem, target) && t < |gc.threads| && gc.threads[t].running != []
    requires gc.threads[t].running[0] in target && gc.threads[t].running[0] !in gc.done
    ensures var c := gc.threads[t].running[0];
            target[c] < |mem| && mem[target[c]].role == Doomed(c)
            && DoomedOk(G.ApplyRun(gc, t), SetRole(mem, target[c], Free), target)
  {
  }

  lemma RunHeld(gc: G.State, mem: seq<Block>, held: seq<set<Ref>>, t: nat, a: Addr)
    requires HeldOk(gc, mem, held) && t < |gc.threads| && gc.threads[t].running != []
    requires a < |mem| && mem[a].role == Doomed(gc.threads[t].running[0])
    requires forall u :: !Awaits(gc, u, gc.threads[t].running[0])
    ensures HeldOk(G.ApplyRun(gc, t), SetRole(mem, a, Free), held)
  {
  }

  lemma OtherData(data: seq<Addr>, mem: seq<Block>, a: Addr, role: Role)
    requires DataOk(data, mem) && a < |mem| && !mem[a].role.Published? && !role.Published?
    ensures DataOk(data, SetRole(mem, a, role))
  {
  }

  lemma RunBlocks(s: State, t: nat)
    requires BlocksOk(s) && Enabled(s, RunNext(t))
    requires s.gc.threads[t].running[0] !in s.gc.done && forall u :: !Awaits(s.gc, u, s.gc.threads[t].running[0])
    ensures BlocksOk(Apply(s, RunNext(t)))
  {
    var a := s.target[s.gc.threads[t].running[0]];
    RunDoomed(s.gc, s.mem, s.target, t);
    RunHeld(s.gc, s.mem, s.held, t, a);
    OtherData(s.data, s.mem, a, Free);
  }

  lemma RunKeeps(s: State, t: nat)
    requires Inv(s) && Enabled(s, RunNext(t))
    ensures Inv(Apply(s, RunNext(t)))
  {
    R.RunKeeps(s.gc, t);
    RunningNow(s.gc, t);
    RunBlocks(s, t);
  }

  lemma GetKeeps(s: State, t: nat, x: nat)
    requires Inv(s) && Enabled(s, Get(t, x))
    ensures Inv(Apply(s, Get(t, x)))
  {
  }

  lemma AllocKeeps(s: State, t: nat, a: Addr, content: History<int>)
    requires Inv(s) && Enabled(s, Alloc(t, a, content))
    ensures Inv(ApplyAlloc(s, t, a, content))
  {
    var s' := ApplyAlloc(s, t, a, content);
    forall u, r | 0 <= u < |s.held| && r in s.held[u] ensures Alive(s.gc, s'.mem, u, r) {
      assert Alive(s.gc, s.mem, u, r);
    }
  }

  lemma SwapData(data: seq<Addr>, mem: seq<Block>, x: nat, a: Addr, t: nat)
    requires DataOk(data, mem) && x < |data| && a < |mem| && !mem[a].role.Published?
    ensures DataOk(data[x := a], SetRole(SetRole(mem, a, Published(x)), data[x], Retired(t)))
  {
  }

  lemma SwapHeld(gc: G.State, mem: seq<Block>, held: seq<set<Ref>>, x: nat, a: Addr, o: Addr, t: nat)
    requires HeldOk(gc, mem, held) && a < |mem| && mem[a].role == Private(t) && o < |mem| && a != o
    ensures HeldOk(gc, SetRole(SetRole(mem, a, Published(x)), o, Retired(t)), held)
  {
  }

  lemma FreeHeld(gc: G.State, mem: seq<Block>, held: seq<set<Ref>>, a: Addr, t: nat)
    requires HeldOk(gc, mem, held) && a < |mem| && mem[a].role == Private(t)
    ensures HeldOk(gc, SetRole(mem, a, Free), held)
  {
  }

  lemma HoldHeld(s: State, mem: seq<Block>, t: nat, x: nat)
    requires HeldOk(s.gc, mem, s.held) && |mem| == |s.mem| && DataOk(s.data, mem) && G.InSection(s.gc, t)
    requires x < |s.data|
    requires mem[s.data[x]].gen == s.mem[s.data[x]].gen
    ensures HeldOk(s.gc, mem, Hold(s, t, x))
  {
  }

  lemma SameDoomed(gc: G.State, mem: seq<Block>, target: map<nat, Addr>, a: Addr, role: Role)
    requires DoomedOk(gc, mem, target) && a < |mem| && !mem[a].role.Doomed? && !role.Doomed?
    ensures DoomedOk(gc, SetRole(mem, a, role), target)
  {
  }

  lemma PublishBlocks(s: State, t: nat, x: nat, r: Ref, a: Addr)
    requires BlocksOk(s) && Enabled(s, Publish(t, x, r, a))
    ensures BlocksOk(ApplyPublish(s, t, x, r, a))
  {
    if s.data[x] == r.addr {
      SwapData(s.data, s.mem, x, a, t);
      SwapHeld(s.gc, s.mem, s.held, x, a, r.addr, t);
      SameDoomed(s.gc, s.mem, s.target, a, Published(x));
      SameDoomed(s.gc, SetRole(s.mem, a, Published(x)), s.target, r.addr, Retired(t));
    } else {
      FreeHeld(s.gc, s.mem, s.held, a, t);
      SameDoomed(s.gc, s.mem, s.target, a, Free);
      HoldHeld(s, SetRole(s.mem, a, Free), t, x);
    }
  }

  lemma PublishKeeps(s: State, t: nat, x: nat, r: Ref, a: Addr)
    requires Inv(s) && Enabled(s, Publish(t, x, r, a))
    ensures Inv(ApplyPublish(s, t, x, r, a))
  {
    PublishBlocks(s, t, x, r, a);
  }

  lemma RetireDoomed(s: State, t: nat, c: nat, a: Addr)
    requires DoomedOk(s.gc, s.mem, s.target) && t < |s.gc.threads| && c !in s.gc.waits && c !in s.gc.done
    requires a < |s.mem| && s.mem[a].role == Retired(t)
    ensures var s' := ApplyRetire(s, t, c, a); DoomedOk(s'.gc, s'.mem, s'.target)
  {
  }

  lemma RetireAlive(s: State, t: nat, c: nat, a: Addr, u: nat, r: Ref)
    requires G.ActiveOk(s.gc.active, s.gc.nextId) && G.ThreadsOk(s.gc.active, s.gc.threads)
    requires t < |s.gc.threads| && c !in s.gc.waits && a < |s.mem| && G.InSection(s.gc, u) && Alive(s.gc, s.mem, u, r)
    ensures Alive(ApplyRetire(s, t, c, a).gc, ApplyRetire(s, t, c, a).mem, u, r)
  {
    var gc' := ApplyRetire(s, t, c, a).gc;
    RetireAwaits(s.gc, t, c, u);
    if s.mem[r.addr].role.Doomed? {
      var d := s.mem[r.addr].role.cleanup;
      ScheduleInPlace(s.gc, t, c);
      AwaitsCarry(s.gc, gc', u, d);
    }
  }

  lemma ScheduleInPlace(gc: G.State, t: nat, c: nat)
    requires t < |gc.threads|
    ensures var gc' := G.ApplySchedule(gc, t, c);
            && |gc'.active| == |gc.active|
            && forall k :: 0 <= k < |gc.active| ==>
                gc'.active[k].id == gc.active[k].id && gc'.active[k].thread == gc.active[k].thread
  {
  }

  /** Every thread inside a section is waited for by a cleanup scheduled now. */
  lemma RetireAwaits(gc: G.State, t: nat, c: nat, u: nat)
    requires G.ThreadsOk(gc.active, gc.threads) && t < |gc.threads| && G.InSection(gc, u)
    ensures gc.active != [] && Awaits(G.ApplySchedule(gc, t, c), u, c)
  {
  }

  lemma RetireHeld(s: State, t: nat, c: nat, a: Addr)
    requires HeldOk(s.gc, s.mem, s.held) && G.ActiveOk(s.gc.active, s.gc.nextId)
    requires G.ThreadsOk(s.gc.active, s.gc.threads)
    requires t < |s.gc.threads| && c !in s.gc.waits && a < |s.mem|
    ensures HeldOk(ApplyRetire(s, t, c, a).gc, ApplyRetire(s, t, c, a).mem, s.held)
  {
    var s' := ApplyRetire(s, t, c, a);
    forall u, r | 0 <= u < |s.held| && r in s.held[u] ensures G.InSection(s'.gc, u) && Alive(s'.gc, s'.mem, u, r) {
      RetireAlive(s, t, c, a, u, r);
    }
  }

  lemma NotYet(gc: G.State, c: nat)
    requires G.Conserved(gc) && c !in gc.waits
    ensures c !in gc.done
  {
  }

  lemma RetireBlocks(s: State, t: nat, c: nat, a: Addr)
    requires BlocksOk(s) && Enabled(s, Retire(t, c, a)) && c !in s.gc.done
    requires G.ActiveOk(s.gc.active, s.gc.nextId) && G.ThreadsOk(s.gc.active, s.gc.threads)
    ensures BlocksOk(ApplyRetire(s, t, c, a))
  {
    RetireDoomed(s, t, c, a);
    RetireHeld(s, t, c, a);
    OtherData(s.data, s.mem, a, ApplyRetire(s, t, c, a).mem[a].role);
  }

  lemma RetireKeeps(s: State, t: nat, c: nat, a: Addr)
    requires Inv(s) && Enabled(s, Retire(t, c, a))
    ensures Inv(ApplyRetire(s, t, c, a))
  {
    R.ScheduleKeeps(s.gc, t, c);
    NotYet(s.gc, c);
    RetireBlocks(s, t, c, a);
  }

  lemma StepKeeps(s: State, step: Step)
    requires Inv(s) && Enabled(s, step)
    ensures Inv(Apply(s, step))
  {
    match step
    case Enter(t) => EnterKeeps(s, t);
    case Leave(t) => LeaveKeeps(s, t);
    case RunNext(t) => RunKeeps(s, t);
    case Get(t, x) => GetKeeps(s, t, x);
    case Alloc(t, a, content) => AllocKeeps(s, t, a, content);
    case Publish(t, x, r, a) => PublishKeeps(s, t, x, r, a);
    case Retire(t, c, a) => RetireKeeps(s, t, c, a);
  }

  // ---------------------------------------------------------------------------------------------
  // Runs
  // ---------------------------------------------------------------------------------------------

  /** `threads` threads outside any section, and one published block per object. */
  function Init(threads: nat, contents: seq<History<int>>): State {
    State(R.Init(threads),
          seq(|contents|, x requires 0 <= x < |contents| => Block(0, Published(x), contents[x])),
          seq(|contents|, x => x),
          seq(threads, _ => {}),
          map[])
  }

  lemma InitHolds(threads: nat, contents: seq<History<int>>)
    ensures Inv(Init(threads, contents))
  {
    R.InitHolds(threads);
  }

  ghost predicate Legal(s: State, steps: seq<Step>)
    decreases |steps|
  {
    |steps| == 0 || (Enabled(s, steps[0]) && Legal(Apply(s, steps[0]), steps[1..]))
  }

  ghost function Run(s: State, steps: seq<Step>): State
    requires Legal(s, steps)
    decreases |steps|
  {
    if |steps| == 0 then s else Run(Apply(s, steps[0]), steps[1..])
  }

  /** What a step is to the machine of deferred cleanups, if anything. */
  function GcSteps(step: Step): seq<G.Step> {
    match step
    case Enter(t) => [G.Enter(t)]
    case Leave(t) => [G.Leave(t)]
    case RunNext(t) => [G.RunNext(t)]
    case Retire(t, c, _) => [G.Schedule(t, c)]
    case _ => []
  }

  lemma GcStep(s: State, step: Step)
    requires Enabled(s, step)
    ensures if GcSteps(step) == [] then Apply(s, step).gc == s.gc
            else G.Enabled(s.gc, GcSteps(step)[0]) && Apply(s, step).gc == G.Apply(s.gc, GcSteps(step)[0])
  {
  }

  lemma StepIn(s: State, step: Step, t: nat, id: nat)
    requires Inv(s) && Enabled(s, step) && N.In(s.gc, t, id)
    ensures t < |s.gc.threads| && s.gc.threads[t].nesting > 0 && id < s.gc.nextId
    ensures var d := N.Deeper(step, Enter(t), Leave(t), s.gc.threads[t].nesting);
            var gc' := Apply(s, step).gc;
            if d == 0 then id !in G.Ids(gc'.active)
            else N.In(gc', t, id) && t < |gc'.threads| && gc'.threads[t].nesting == d
    ensures id < Apply(s, step).gc.nextId
  {
    GcStep(s, step);
    N.InsideIs(s.gc, t, id);
    if GcSteps(step) != [] {
      N.StepIn(s.gc, GcSteps(step)[0], t, id);
    }
  }

  lemma {:induction false} EndedStays(s: State, steps: seq<Step>, id: nat)
    requires Inv(s) && Legal(s, steps) && id < s.gc.nextId && id !in G.Ids(s.gc.active)
    ensures id !in G.Ids(Run(s, steps).gc.active)
    decreases |steps|
  {
    if |steps| > 0 {
      StepKeeps(s, steps[0]);
      GcStep(s, steps[0]);
      if GcSteps(steps[0]) != [] {
        R.StepEnds(s.gc, GcSteps(steps[0])[0], id);
      }
      EndedStays(Apply(s, steps[0]), steps[1..], id);
    }
  }

  /** A section that a thread is in lasts exactly as long as the thread has not left more often than it has entered. */
  lemma {:induction false} InLasts(s: State, steps: seq<Step>, t: nat, id: nat)
    requires Inv(s) && Legal(s, steps) && N.In(s.gc, t, id)
    ensures t < |s.gc.threads|
    ensures id in G.Ids(Run(s, steps).gc.active) <==>
              N.NeverOut(steps, Enter(t), Leave(t), s.gc.threads[t].nesting)
    ensures id in G.Ids(Run(s, steps).gc.active) ==> N.In(Run(s, steps).gc, t, id)
    decreases |steps|
  {
    N.InsideIs(s.gc, t, id);
    if |steps| > 0 {
      var s' := Apply(s, steps[0]);
      StepKeeps(s, steps[0]);
      StepIn(s, steps[0], t, id);
      N.NeverOutNext(steps, Enter(t), Leave(t), s.gc.threads[t].nesting);
      if N.Deeper(steps[0], Enter(t), Leave(t), s.gc.threads[t].nesting) == 0 {
        EndedStays(s', steps[1..], id);
      } else {
        InLasts(s', steps[1..], t, id);
      }
    }
  }

  /** The step does not end the section that thread `t` is in: if it leaves one, another is still around it. */
  ghost predicate Inside(s: State, step: Step, t: nat)
    requires Enabled(s, step)
  {
    step == Leave(t) ==> s.gc.threads[t].nesting > 1
  }

  /** The section that thread `t` is in is still active after the run, under its number. */
  ghost predicate StaysInside(s: State, steps: seq<Step>, t: nat)
    requires Legal(s, steps)
  {
    exists id :: N.In(s.gc, t, id) && id in G.Ids(Run(s, steps).gc.active)
  }

  lemma StaysNext(s: State, steps: seq<Step>, t: nat)
    requires Inv(s) && Legal(s, steps) && |steps| > 0 && StaysInside(s, steps, t)
    ensures Inside(s, steps[0], t) && StaysInside(Apply(s, steps[0]), steps[1..], t)
  {
    var id :| N.In(s.gc, t, id) && id in G.Ids(Run(s, steps).gc.active);
    StepKeeps(s, steps[0]);
    StepIn(s, steps[0], t, id);
    if id !in G.Ids(Apply(s, steps[0]).gc.active) {
      EndedStays(Apply(s, steps[0]), steps[1..], id);
    }
  }

  lemma StepHolds(s: State, step: Step, t: nat, r: Ref)
    requires BlocksOk(s) && Enabled(s, step) && t < |s.held| && r in s.held[t] && Inside(s, step, t)
    ensures t < |Apply(s, step).held| && r in Apply(s, step).held[t]
    ensures r.addr < |s.mem| && r.addr < |Apply(s, step).mem|
    ensures Apply(s, step).mem[r.addr].content == s.mem[r.addr].content
  {
    assert Alive(s.gc, s.mem, t, r);
  }

  /** A block picked up inside a critical section stays in use, with the same contents, for as long as the
      section lasts, whatever is published, retired and freed meanwhile. */
  lemma {:induction false} HeldIsKept(s: State, steps: seq<Step>, t: nat, r: Ref)
    requires Inv(s) && Legal(s, steps) && t < |s.held| && r in s.held[t] && StaysInside(s, steps, t)
    ensures var s' := Run(s, steps);
            Inv(s') && t < |s'.held| && r in s'.held[t] && Alive(s'.gc, s'.mem, t, r)
    ensures r.addr < |s.mem| && Run(s, steps).mem[r.addr].content == s.mem[r.addr].content
    decreases |steps|
  {
    assert Alive(s.gc, s.mem, t, r);
    if |steps| > 0 {
      StepKeeps(s, steps[0]);
      StaysNext(s, steps, t);
      StepHolds(s, steps[0], t, r);
      HeldIsKept(Apply(s, steps[0]), steps[1..], t, r);
    }
  }

  lemma RunCons(s: State, step: Step, steps: seq<Step>)
    requires Enabled(s, step) && Legal(Apply(s, step), steps)
    ensures Legal(s, [step] + steps) && Run(s, [step] + steps) == Run(Apply(s, step), steps)
  {
    assert ([step] + steps)[1..] == steps;
  }

  lemma HeadFirst<T>(a: seq<T>, b: seq<T>)
    requires |a| > 0
    ensures a + b == [a[0]] + (a[1..] + b)
  {
  }

  lemma {:induction false} RunAppend(s: State, a: seq<Step>, b: seq<Step>)
    requires Legal(s, a) && Legal(Run(s, a), b)
    ensures Legal(s, a + b) && Run(s, a + b) == Run(Run(s, a), b)
    decreases |a|
  {
    if |a| == 0 {
      assert a + b == b;
    } else {
      var rest := a[1..];
      RunAppend(Apply(s, a[0]), rest, b);
      RunCons(s, a[0], rest + b);
      HeadFirst(a, b);
    }
  }

  /** In particular, if a thread enters from outside, goes on, picks up an object's block and goes on, the block stays
      as long as the thread has left no more often than it has entered since. */
  lemma HeldWhileInside(s: State, t: nat, steps: seq<Step>, x: nat, more: seq<Step>)
    requires Inv(s) && Enabled(s, Enter(t)) && !G.Owned(s.gc.active, t) && Legal(Apply(s, Enter(t)), steps)
    requires var p := Run(Apply(s, Enter(t)), steps); Enabled(p, Get(t, x)) && Legal(Apply(p, Get(t, x)), more)
    requires var all := steps + ([Get(t, x)] + more);
             forall m :: 0 <= m <= |all| ==> multiset(all[..m])[Leave(t)] <= multiset(all[..m])[Enter(t)]
    ensures var p := Run(Apply(s, Enter(t)), steps);
            var q := Run(Apply(p, Get(t, x)), more);
            var r := Ref(p.data[x], p.mem[p.data[x]].gen);
            && t < |q.held| && r in q.held[t] && Alive(q.gc, q.mem, t, r)
            && q.mem[r.addr].content == p.mem[r.addr].content
  {
    var e := Apply(s, Enter(t));
    StepKeeps(s, Enter(t));
    N.EnterBegins(s.gc, t);
    var p := Run(e, steps);
    RunCons(p, Get(t, x), more);
    RunAppend(e, steps, [Get(t, x)] + more);
    InLasts(e, steps + ([Get(t, x)] + more), t, s.gc.nextId);
    RunKeepsAll(e, steps);
    InBefore(e, steps, [Get(t, x)] + more, t, s.gc.nextId);
    GetKeeps(p, t, x);
    assert N.In(Apply(p, Get(t, x)).gc, t, s.gc.nextId);
    HeldIsKept(Apply(p, Get(t, x)), more, t, Ref(p.data[x], p.mem[p.data[x]].gen));
  }

  lemma {:induction false} RunKeepsAll(s: State, steps: seq<Step>)
    requires Inv(s) && Legal(s, steps)
    ensures Inv(Run(s, steps))
    decreases |steps|
  {
    if |steps| > 0 {
      StepKeeps(s, steps[0]);
      RunKeepsAll(Apply(s, steps[0]), steps[1..]);
    }
  }

  /** A section that is active later was active before. */
  lemma InBefore(s: State, a: seq<Step>, b: seq<Step>, t: nat, id: nat)
    requires Inv(s) && Legal(s, a) && Legal(Run(s, a), b) && N.In(s.gc, t, id)
    requires id in G.Ids(Run(Run(s, a), b).gc.active)
    ensures N.In(Run(s, a).gc, t, id)
  {
    RunKeepsAll(s, a);
    InLasts(s, a, t, id);
    IdBelow(s, a, t, id);
    if id !in G.Ids(Run(s, a).gc.active) {
      EndedStays(Run(s, a), b, id);
    }
  }

  lemma {:induction false} NextIdGrows(s: State, steps: seq<Step>)
    requires Legal(s, steps)
    ensures s.gc.nextId <= Run(s, steps).gc.nextId
    decreases |steps|
  {
    if |steps| > 0 {
      NextIdGrows(Apply(s, steps[0]), steps[1..]);
    }
  }

  lemma IdBelow(s: State, steps: seq<Step>, t: nat, id: nat)
    requires Inv(s) && Legal(s, steps) && N.In(s.gc, t, id)
    ensures id < Run(s, steps).gc.nextId
  {
    N.InsideIs(s.gc, t, id);
    NextIdGrows(s, steps);
  }

  /** A swap that finds the address it started from finds the very block it started from, with the contents
      it copied: no other block has taken the address meanwhile, so no update is lost. */
  lemma SwapFindsSameBlock(s: State, steps: seq<Step>, t: nat, x: nat)
    requires Inv(s) && Enabled(s, Get(t, x)) && Legal(Apply(s, Get(t, x)), steps)
    requires StaysInside(Apply(s, Get(t, x)), steps, t)
    ensures var s' := Run(Apply(s, Get(t, x)), steps);
            x < |s'.data| && s'.data[x] == s.data[x] ==>
              s'.data[x] < |s'.mem| && s'.mem[s'.data[x]].gen == s.mem[s.data[x]].gen
              && s'.mem[s'.data[x]].content == s.mem[s.data[x]].content
  {
    GetKeeps(s, t, x);
    HeldIsKept(Apply(s, Get(t, x)), steps, t, Ref(s.data[x], s.mem[s.data[x]].gen));
  }

  // ---------------------------------------------------------------------------------------------
  // What readers find
  // ---------------------------------------------------------------------------------------------

  /** What a reader that picks up the object's block now finds in it. */
  function Current(s: State, x: nat): History<int>
    requires x < |s.data| && s.data[x] < |s.mem|
  {
    s.mem[s.data[x]].content
  }

  /** The step is a swap on object `x` that finds the block it started from. */
  predicate Swaps(s: State, step: Step, x: nat) {
    step.Publish? && step.obj == x < |s.data| && s.data[x] == step.old_.addr
  }

  /** Only a swap that succeeds changes what readers find, to what the new block was filled with. */
  lemma CurrentMoves(s: State, step: Step, x: nat)
    requires Inv(s) && Enabled(s, step) && x < |s.data|
    ensures s.data[x] < |s.mem| && x < |Apply(s, step).data| && Apply(s, step).data[x] < |Apply(s, step).mem|
    ensures Swaps(s, step, x) ==>
              step.addr < |s.mem| && Current(Apply(s, step), x) == s.mem[step.addr].content
    ensures !Swaps(s, step, x) ==> Current(Apply(s, step), x) == Current(s, x)
  {
    match step
    case RunNext(t) => RunningNow(s.gc, t);
    case _ =>
  }

  /** A block keeps what it was filled with until its thread publishes it. */
  lemma {:induction false} PrivateKept(s: State, steps: seq<Step>, t: nat, a: Addr)
    requires Inv(s) && Legal(s, steps) && a < |s.mem| && s.mem[a].role == Private(t)
    requires forall step :: step in steps ==> !(step.Publish? && step.addr == a)
    ensures a < |Run(s, steps).mem| && Run(s, steps).mem[a] == s.mem[a]
    decreases |steps|
  {
    if |steps| > 0 {
      assert steps[0] in steps;
      StepKeeps(s, steps[0]);
      PrivateStays(s, steps[0], t, a);
      PrivateKept(Apply(s, steps[0]), steps[1..], t, a);
    }
  }

  lemma PrivateStays(s: State, step: Step, t: nat, a: Addr)
    requires Inv(s) && Enabled(s, step) && a < |s.mem| && s.mem[a].role == Private(t)
    requires !(step.Publish? && step.addr == a)
    ensures a < |Apply(s, step).mem| && Apply(s, step).mem[a] == s.mem[a]
  {
    match step
    case RunNext(u) => RunningNow(s.gc, u);
    case Publish(u, x, r, b) => assert Alive(s.gc, s.mem, u, r);
    case _ =>
  }

  /** So when a block is filled, and then swapped in, readers find what it was filled with. */
  lemma InstallsWhatWasFilled(s: State, t: nat, a: Addr, content: History<int>, steps: seq<Step>, x: nat, r: Ref)
    requires Inv(s) && Enabled(s, Alloc(t, a, content)) && Legal(Apply(s, Alloc(t, a, content)), steps)
    requires forall step :: step in steps ==> !(step.Publish? && step.addr == a)
    requires var p := Run(Apply(s, Alloc(t, a, content)), steps);
             Enabled(p, Publish(t, x, r, a)) && Swaps(p, Publish(t, x, r, a), x)
    ensures var q := Apply(Run(Apply(s, Alloc(t, a, content)), steps), Publish(t, x, r, a));
            x < |q.data| && q.data[x] < |q.mem| && Current(q, x) == content
  {
    var f := Apply(s, Alloc(t, a, content));
    AllocKeeps(s, t, a, content);
    PrivateKept(f, steps, t, a);
    RunKeepsAll(f, steps);
    CurrentMoves(Run(f, steps), Publish(t, x, r, a), x);
  }

  /** Once no section is active and every list being carried out is finished, each block is free, or an
      object's, or in the hands of a thread that has yet to publish it or to schedule its freeing. */
  lemma NothingDoomed(s: State, a: Addr)
    requires Inv(s) && a < |s.mem| && s.gc.active == []
    requires forall t :: 0 <= t < |s.gc.threads| ==> s.gc.threads[t].running == []
    ensures !s.mem[a].role.Doomed?
  {
    if s.mem[a].role.Doomed? {
      R.NoneOutstanding(s.gc, s.mem[a].role.cleanup);
    }
  }
}
