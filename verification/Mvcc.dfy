/** The multi-version store as an interleaved state machine.

    Each lock-protected region and each successful compare-and-swap of the source is one step: taking
    or dropping a snapshot, setting up one object of a commit, bumping the epoch, registering one
    cleanup, rolling back one object, and carrying out one cleanup.  At most one commit is in progress.
    Dropping a snapshot leaves its transaction's local values alone; a restart drops and takes.

    `ideal`, `firstKey`, `log`, `since` and what a local value says besides its value are bookkeeping for
    the proofs: no step looks at them.  `ideal` is what the histories would be if nothing were ever cleaned
    up and commits took effect at once; `log` has the commits made visible after epoch `since`. */
module Mvcc {
  import opened Histories
  import opened Snapshots

  /** A transaction's private copy of an object: what it copied, what it holds now, and whether it was copied
      from the snapshot that the transaction still has. */
  datatype Local = Local(base: int, value: int, live: bool)

  type Box = map<Obj, Local>

  datatype Phase =
    | Idle
    | SettingUp(snap: Snap, order: seq<Obj>, box: Box, done: nat, to: Epoch)
    | RollingBack(snap: Snap, order: seq<Obj>, box: Box, setUp: nat, done: nat)
    | Registering(snap: Snap, order: seq<Obj>, box: Box, done: nat)

  /** A commit by a transaction that read at epoch `base`, made visible at epoch `at`. */
  datatype Commit = Commit(base: Epoch, at: Epoch, objs: seq<Obj>)

  datatype State = State(
    info: Info,
    hist: seq<History<int>>,
    epochOf: map<Snap, Epoch>,
    boxes: map<Snap, Box>,
    inflight: multiset<Token>,
    phase: Phase,
    ideal: seq<History<int>>,
    firstKey: seq<nat>,
    log: seq<Commit>,
    since: Epoch)

  datatype Step =
    | Take(snap: Snap)
    | Drop(snap: Snap)
    | Clear(snap: Snap)
    | Mutate(snap: Snap, obj: Obj)
    | Assign(snap: Snap, obj: Obj, value: int)
    | Begin(snap: Snap, order: seq<Obj>)
    | SetupNext
    | Bump
    | RollbackNext
    | RegisterNext
    | Finish
    | Clean(token: Token)

  // ---------------------------------------------------------------------------------------------
  // Structure
  // ---------------------------------------------------------------------------------------------

  ghost predicate NoDup<T>(s: seq<T>) {
    forall i, j :: 0 <= i < j < |s| ==> s[i] != s[j]
  }

  function Prefix<T>(s: seq<T>, n: nat): (r: seq<T>)
    ensures forall x :: x in r ==> x in s
  {
    if n <= |s| then s[..n] else s
  }

  function Suffix<T>(s: seq<T>, n: nat): (r: seq<T>)
    ensures forall x :: x in r ==> x in s
  {
    if n <= |s| then s[n..] else []
  }

  /** Objects whose newest version was set up by the commit in progress and whose previous version has
      not been put on a cleanup list. */
  function Ahead(p: Phase): seq<Obj> {
    match p
    case Idle => []
    case SettingUp(_, order, _, done, _) => Prefix(order, done)
    case RollingBack(_, order, _, setUp, done) => Suffix(Prefix(order, setUp), done)
    case Registering(_, order, _, done) => Suffix(order, done)
  }

  /** The newest version of `x` is set up but not yet visible at any epoch reached. */
  predicate Open(p: Phase, x: Obj) {
    !p.Registering? && x in Ahead(p)
  }

  ghost predicate PhaseWF(s: State) {
    s.phase.Idle? ||
    (&& s.phase.snap in s.epochOf
     && NoDup(s.phase.order)
     && (forall x :: x in s.phase.order ==> x < |s.hist|)
     && (forall x :: x in s.phase.order <==> x in s.phase.box)
     && s.phase.done <= |s.phase.order|
     && (s.phase.RollingBack? ==> s.phase.done <= s.phase.setUp <= |s.phase.order|))
  }

  ghost predicate WF(s: State) {
    && |s.hist| == |s.ideal| == |s.firstKey|
    && s.epochOf.Keys <= s.boxes.Keys
    && (forall n, x :: n in s.boxes && x in s.boxes[n] ==> x < |s.hist|)
    && PhaseWF(s)
  }

  /** The object that the commit in progress turns to next. */
  function NextObj(s: State): (x: Obj)
    requires WF(s) && !s.phase.Idle? && s.phase.done < |s.phase.order|
    ensures x < |s.hist| && x in s.phase.box && x in s.phase.order
  {
    assert s.phase.order[s.phase.done] in s.phase.order;
    s.phase.order[s.phase.done]
  }

  // ---------------------------------------------------------------------------------------------
  // Steps
  // ---------------------------------------------------------------------------------------------

  ghost predicate Enabled(s: State, step: Step)
    requires WF(s)
  {
    match step
    case Take(n) => n !in s.epochOf
    case Drop(n) => n in s.epochOf && (s.phase.Idle? || s.phase.snap != n)
    case Clear(n) => true
    case Mutate(n, x) => n in s.epochOf && x < |s.hist|
    case Assign(n, x, _) => n in s.epochOf && x in s.boxes[n]
    case Begin(n, order) =>
      s.phase.Idle? && n in s.epochOf && NoDup(order) && forall x :: x in order <==> x in s.boxes[n]
    case SetupNext => s.phase.SettingUp? && s.phase.done < |s.phase.order|
    case Bump => s.phase.SettingUp? && s.phase.done == |s.phase.order|
    case RollbackNext => s.phase.RollingBack? && s.phase.done < s.phase.setUp
    case RegisterNext => s.phase.Registering? && s.phase.done < |s.phase.order|
    case Finish =>
      || (s.phase.RollingBack? && s.phase.done == s.phase.setUp)
      || (s.phase.Registering? && s.phase.done == |s.phase.order|)
    case Clean(t) => t in s.inflight && t.obj < |s.hist|
  }

  /** The branches in which the source throws; `NeverThrows` below shows that none is reached. */
  ghost predicate Throws(s: State, step: Step)
    requires WF(s) && Enabled(s, step)
  {
    var es := s.info.entries;
    match step
    case Take(_) => |es| > 0 && (es[|es| - 1].epoch > s.info.current || es[|es| - 1].snapshots == {})
    case Drop(n) =>
      var k := IndexOf(es, s.epochOf[n]);
      || k == |es|
      || n !in es[k].snapshots
      || Leave(s.info, n, k).0.earliest < s.info.earliest
      || Leave(s.info, n, k).0.earliest > s.info.current
    case SetupNext => s.phase.to != s.info.current + 1
    case Bump => s.phase.to < s.info.current
    case RollbackNext => |s.hist[NextObj(s)].past| == 0
    case RegisterNext => |es| == 0 || |s.hist[NextObj(s)].past| == 0
    case Clean(t) => Find(s.hist[t.obj], t.validFrom).None?
    case _ => false
  }

  /** Every object written by the commit gets its new version, all at once. */
  function PushAll(ideal: seq<History<int>>, order: seq<Obj>, box: Box, to: Epoch): (r: seq<History<int>>)
    requires forall x :: x in order ==> x in box
    ensures |r| == |ideal|
  {
    seq(|ideal|, x requires 0 <= x < |ideal| => if x in order then Push(ideal[x], to, box[x].value) else ideal[x])
  }

  /** Local values that their transaction brings along to another snapshot. */
  function Kept(box: Box): (r: Box)
    ensures r.Keys == box.Keys
  {
    map x | x in box :: Local(box[x].base, box[x].value, false)
  }

  /** The local values of transaction `n` once it has a new snapshot. */
  function TakenBox(boxes: map<Snap, Box>, n: Snap): (r: Box)
    ensures r.Keys == if n in boxes then boxes[n].Keys else {}
  {
    if n in boxes then Kept(boxes[n]) else map[]
  }

  function ApplyTake(s: State, n: Snap): (r: State)
    requires WF(s) && n !in s.epochOf
    ensures WF(r) && |r.hist| == |s.hist|
  {
    s.(info := Register(s.info, n), epochOf := s.epochOf[n := s.info.current],
       boxes := s.boxes[n := TakenBox(s.boxes, n)])
  }

  function ApplyDrop(s: State, n: Snap): (r: State)
    requires WF(s) && n in s.epochOf && (s.phase.Idle? || s.phase.snap != n)
    ensures WF(r) && |r.hist| == |s.hist|
  {
    var k := IndexOf(s.info.entries, s.epochOf[n]);
    if k == |s.info.entries| then s
    else
      var (info', ts) := Leave(s.info, n, k);
      s.(info := info', inflight := s.inflight + multiset(ts), epochOf := s.epochOf - {n})
  }

  /** The first write to an object copies what the transaction's snapshot sees. */
  function ApplyMutate(s: State, n: Snap, x: Obj): (r: State)
    requires WF(s) && n in s.epochOf && x < |s.hist|
    ensures WF(r) && |r.hist| == |s.hist|
  {
    var v := ValueAt(s.hist[x], s.epochOf[n]);
    var box: Box := s.boxes[n];
    if x in box then s else s.(boxes := s.boxes[n := box[x := Local(v, v, true)]])
  }

  function ApplyAssign(s: State, n: Snap, x: Obj, v: int): (r: State)
    requires WF(s) && n in s.epochOf && x in s.boxes[n]
    ensures WF(r) && |r.hist| == |s.hist|
  {
    var box: Box := s.boxes[n];
    s.(boxes := s.boxes[n := box[x := box[x].(value := v)]])
  }

  function ApplyBegin(s: State, n: Snap, order: seq<Obj>): (r: State)
    requires WF(s) && n in s.epochOf && NoDup(order) && (forall x :: x in order <==> x in s.boxes[n])
    ensures WF(r) && |r.hist| == |s.hist|
  {
    s.(phase := SettingUp(n, order, s.boxes[n], 0, s.info.current + 1), boxes := s.boxes[n := map[]])
  }

  function ApplySetup(s: State): (r: State)
    requires WF(s) && s.phase.SettingUp? && s.phase.done < |s.phase.order|
    ensures WF(r) && |r.hist| == |s.hist|
  {
    var p := s.phase;
    var x := NextObj(s);
    if NewestFrom(s.hist[x]) > s.epochOf[p.snap]
    then s.(phase := RollingBack(p.snap, p.order, p.box, p.done, 0))
    else s.(hist := s.hist[x := Push(s.hist[x], p.to, p.box[x].value)],
            phase := SettingUp(p.snap, p.order, p.box, p.done + 1, p.to))
  }

  function ApplyBump(s: State): (r: State)
    requires WF(s) && s.phase.SettingUp?
    ensures WF(r) && |r.hist| == |s.hist|
  {
    var p := s.phase;
    s.(info := s.info.(current := p.to),
       ideal := PushAll(s.ideal, p.order, p.box, p.to),
       log := s.log + [Commit(s.epochOf[p.snap], p.to, p.order)],
       phase := Registering(p.snap, p.order, p.box, 0))
  }

  function ApplyRollback(s: State): (r: State)
    requires WF(s) && s.phase.RollingBack? && s.phase.done < s.phase.setUp
    ensures WF(r) && |r.hist| == |s.hist|
  {
    var p := s.phase;
    var x := NextObj(s);
    if |s.hist[x].past| == 0 then s
    else s.(hist := s.hist[x := Pop(s.hist[x])], phase := RollingBack(p.snap, p.order, p.box, p.setUp, p.done + 1))
  }

  /** The start of the version before the newest one, as the committing object computes it. */
  function PreviousFrom<T>(h: History<T>): nat
    requires |h.past| > 0
  {
    ValidFrom(h, |h.past| - 1)
  }

  function ApplyRegister(s: State): (r: State)
    requires WF(s) && s.phase.Registering? && s.phase.done < |s.phase.order|
    ensures WF(r) && |r.hist| == |s.hist|
  {
    var p := s.phase;
    var x := NextObj(s);
    if |s.hist[x].past| == 0 || |s.info.entries| == 0 then s
    else s.(info := AddCleanup(s.info, Token(x, PreviousFrom(s.hist[x]))),
            firstKey := if |s.hist[x].past| == 1 then s.firstKey[x := 1] else s.firstKey,
            phase := Registering(p.snap, p.order, p.box, p.done + 1))
  }

  function ApplyClean(s: State, t: Token): (r: State)
    requires WF(s) && t in s.inflight && t.obj < |s.hist|
    ensures WF(r) && |r.hist| == |s.hist|
  {
    var x := t.obj;
    match Find(s.hist[x], t.validFrom)
    case None => s
    case Some(i) =>
      s.(hist := s.hist[x := RemoveAt(s.hist[x], i)],
         firstKey := s.firstKey[x := FirstAfter(s.hist[x], s.firstKey[x], i)],
         inflight := s.inflight - multiset{t})
  }

  ghost function Apply(s: State, step: Step): (s': State)
    requires WF(s) && Enabled(s, step)
    ensures WF(s') && |s'.hist| == |s.hist|
  {
    match step
    case Take(n) => ApplyTake(s, n)
    case Drop(n) => ApplyDrop(s, n)
    case Clear(n) => s.(boxes := s.boxes[n := map[]])
    case Mutate(n, x) => ApplyMutate(s, n, x)
    case Assign(n, x, v) => ApplyAssign(s, n, x, v)
    case Begin(n, order) => ApplyBegin(s, n, order)
    case SetupNext => ApplySetup(s)
    case Bump => ApplyBump(s)
    case RollbackNext => ApplyRollback(s)
    case RegisterNext => ApplyRegister(s)
    case Finish => s.(phase := Idle)
    case Clean(t) => ApplyClean(s, t)
  }

  // ---------------------------------------------------------------------------------------------
  // The invariant
  // ---------------------------------------------------------------------------------------------

  /** Registered snapshots and the epochs they carry agree with the table. */
  ghost predicate SnapsOk(info: Info, epochOf: map<Snap, Epoch>) {
    && (forall k, n :: 0 <= k < |info.entries| && n in info.entries[k].snapshots ==>
          n in epochOf && epochOf[n] == info.entries[k].epoch)
    && (forall n :: n in epochOf ==> HeldAt(info.entries, epochOf[n], n))
  }

  /** Snapshot `n` is registered at the entry for epoch `e`. */
  ghost predicate HeldAt(es: seq<Entry>, e: Epoch, n: Snap) {
    exists k :: 0 <= k < |es| && es[k].epoch == e && n in es[k].snapshots
  }

  /** A history whose versions are all visible, against the ideal one: same newest version; if older
      versions are kept the newest version's start is known, else every registered snapshot sees it. */
  ghost predicate Aligned(c: History<int>, ideal: History<int>, info: Info) {
    && c.current == ideal.current
    && NewestFrom(c) <= info.current
    && NewestFrom(ideal) <= info.current
    && (|c.past| > 0 ==> NewestFrom(c) == NewestFrom(ideal))
    && (|c.past| == 0 ==> forall k :: 0 <= k < |info.entries| ==> info.entries[k].epoch >= NewestFrom(ideal))
  }

  function Settled<T>(h: History<T>, open: bool): History<T> {
    if open && |h.past| > 0 then Pop(h) else h
  }

  ghost predicate ObjOk(h: History<int>, ideal: History<int>, first: nat, ahead: bool, open: bool, info: Info) {
    && Sorted(h) && Sorted(ideal)
    && 1 <= first <= info.current && (|h.past| > 0 ==> first < h.past[0].validTo)
    && (ahead ==> |h.past| > 0)
    && (open ==> ahead && h.past[|h.past| - 1].validTo == info.current + 1)
    && Aligned(Settled(h, open), ideal, info)
    && (forall k :: 0 <= k < |info.entries| ==>
          && first <= info.entries[k].epoch
          && ValueAt(h, info.entries[k].epoch) == ValueAt(ideal, info.entries[k].epoch))
  }

  ghost predicate ObjsOk(s: State)
    requires WF(s)
  {
    forall x :: 0 <= x < |s.hist| ==>
      ObjOk(s.hist[x], s.ideal[x], s.firstKey[x], x in Ahead(s.phase), Open(s.phase, x), s.info)
  }

  ghost predicate IsKey(h: History<int>, first: nat, n: int, vf: nat) {
    exists i :: 0 <= i < n && i <= |h.past| && Key(h, first, i) == vf
  }

  /** `vf` names a version that is not the newest, nor, when the object is ahead, the one before it. */
  ghost predicate Awaited(h: History<int>, first: nat, ahead: bool, vf: nat) {
    IsKey(h, first, |h.past| - (if ahead then 1 else 0), vf)
  }

  /** `t` names an obsolete version whose cleanup must be outstanding. */
  ghost predicate Expected(s: State, t: Token)
    requires WF(s)
  {
    t.obj < |s.hist| && Awaited(s.hist[t.obj], s.firstKey[t.obj], t.obj in Ahead(s.phase), t.validFrom)
  }

  ghost function Outstanding(s: State): multiset<Token> {
    Listed(s.info.entries) + s.inflight
  }

  /** Each obsolete version has exactly one cleanup outstanding, and there are no others. */
  ghost predicate TokensOk(s: State)
    requires WF(s)
  {
    forall t: Token :: Outstanding(s)[t] == if Expected(s, t) then 1 else 0
  }

  /** Epoch `e` is at or past the end of the version that `t` names. */
  ghost predicate Beyond(hist: seq<History<int>>, firstKey: seq<nat>, t: Token, e: Epoch)
    requires |hist| == |firstKey|
  {
    t.obj < |hist| ==>
      forall i :: 0 <= i < |hist[t.obj].past| && Key(hist[t.obj], firstKey[t.obj], i) == t.validFrom ==>
        e >= hist[t.obj].past[i].validTo
  }

  /** A version listed at one entry has ended by every later registered epoch. */
  ghost predicate ListedAt(es: seq<Entry>, hist: seq<History<int>>, firstKey: seq<nat>)
    requires |hist| == |firstKey|
  {
    forall k, t, m :: 0 <= k < m < |es| && t in es[k].cleanups ==> Beyond(hist, firstKey, t, es[m].epoch)
  }

  ghost predicate ListedSafe(s: State)
    requires WF(s)
  {
    ListedAt(s.info.entries, s.hist, s.firstKey)
  }

  /** A version whose cleanup is under way is seen by no registered epoch. */
  ghost predicate UnseenAt(es: seq<Entry>, inflight: multiset<Token>, hist: seq<History<int>>, firstKey: seq<nat>)
    requires |hist| == |firstKey|
  {
    forall t, m :: t in inflight && 0 <= m < |es| ==>
      es[m].epoch < t.validFrom || Beyond(hist, firstKey, t, es[m].epoch)
  }

  ghost predicate InflightSafe(s: State)
    requires WF(s)
  {
    UnseenAt(s.info.entries, s.inflight, s.hist, s.firstKey)
  }

  /** What was copied from the snapshot at epoch `e` is what the ideal histories hold there. */
  ghost predicate CopiesOk(ideal: seq<History<int>>, box: Box, e: Epoch) {
    forall x :: x in box && x < |ideal| && box[x].live ==> box[x].base == ValueAt(ideal[x], e)
  }

  ghost predicate BoxesOk(s: State)
    requires WF(s)
  {
    && (forall n :: n in s.epochOf ==> CopiesOk(s.ideal, s.boxes[n], s.epochOf[n]))
    && (s.phase.SettingUp? ==>
          && CopiesOk(s.ideal, s.phase.box, s.epochOf[s.phase.snap])
          && forall x :: x in Prefix(s.phase.order, s.phase.done) ==>
               && NewestFrom(s.ideal[x]) <= s.epochOf[s.phase.snap]
               && s.hist[x].current == s.phase.box[x].value)
  }

  ghost predicate Wrote(log: seq<Commit>, i: nat, x: Obj) {
    i < |log| && x in log[i].objs
  }

  /** First committer wins: a later commit that wrote the same object had read at or after the earlier one. */
  ghost predicate LogFor(log: seq<Commit>, ideal: seq<History<int>>, current: Epoch, since: Epoch) {
    && (forall i :: 0 <= i < |log| ==> log[i].base <= log[i].at <= current)
    && (forall i: nat, x: Obj :: Wrote(log, i, x) ==> x < |ideal| && log[i].at <= NewestFrom(ideal[x]))
    && (forall i, j :: 0 <= i < j < |log| ==> log[i].at <= log[j].at)
    && (forall i: nat, j: nat, x: Obj :: Wrote(log, i, x) && Wrote(log, j, x) && i < j ==> log[i].at <= log[j].base)
    && (forall x :: 0 <= x < |ideal| ==> WrittenBy(log, ideal[x], x, since))
  }

  /** The newest version of `x` was put there by a commit of the log, unless it is as old as `since`. */
  ghost predicate WrittenBy(log: seq<Commit>, ideal: History<int>, x: Obj, since: Epoch) {
    NewestFrom(ideal) <= since || exists i: nat :: Wrote(log, i, x) && log[i].at == NewestFrom(ideal)
  }

  ghost predicate LogOk(s: State) {
    LogFor(s.log, s.ideal, s.info.current, s.since)
  }

  /** The epoch that a commit sets its objects up for is still the next one. */
  ghost predicate NextEpoch(s: State) {
    s.phase.SettingUp? ==> s.phase.to == s.info.current + 1
  }

  ghost predicate Inv(s: State) {
    && WF(s)
    && NextEpoch(s)
    && InfoOk(s.info)
    && SnapsOk(s.info, s.epochOf)
    && ObjsOk(s)
    && TokensOk(s)
    && ListedSafe(s)
    && InflightSafe(s)
    && BoxesOk(s)
    && LogOk(s)
  }
}
