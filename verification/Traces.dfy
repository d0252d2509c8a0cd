/** Going through a given run step by step. */
module Traces {
  import opened Histories
  import opened Snapshots
  import opened Mvcc
  import opened MvccRuns

  /** One step of a run. */
  ghost predicate Goes(s: State, step: Step, s': State) {
    WF(s) && Enabled(s, step) && Apply(s, step) == s'
  }

  ghost predicate Reaches(s: State, steps: seq<Step>, s': State) {
    WF(s) && Legal(s, steps) && Run(s, steps) == s'
  }

  lemma Then(s: State, step: Step, p: State, steps: seq<Step>, s': State)
    requires Goes(s, step, p) && Reaches(p, steps, s')
    ensures Reaches(s, [step] + steps, s')
  {
    RunCons(s, step, steps);
  }

  lemma Joined(s: State, a: seq<Step>, p: State, b: seq<Step>, s': State)
    requires Reaches(s, a, p) && Reaches(p, b, s')
    ensures Reaches(s, a + b, s')
  {
    RunAppend(s, a, b);
  }

  function Put(box: Box, x: Obj, v: int): Box {
    box[x := Local(0, v, true)]
  }

  /** A first write to an object that holds 0, and then the value. */
  lemma Write(s: State, n: Snap, x: Obj, v: int)
    requires WF(s) && n in s.epochOf && x < |s.hist| && x !in s.boxes[n] && ValueAt(s.hist[x], s.epochOf[n]) == 0
    ensures var p := s.(boxes := s.boxes[n := Put(s.boxes[n], x, 0)]);
            && Goes(s, Mutate(n, x), p)
            && Goes(p, Assign(n, x, v), s.(boxes := s.boxes[n := Put(s.boxes[n], x, v)]))
  {
    var p := s.(boxes := s.boxes[n := Put(s.boxes[n], x, 0)]);
    assert Put(s.boxes[n], x, 0)[x := Local(0, v, true)] == Put(s.boxes[n], x, v);
    assert ApplyAssign(p, n, x, v).boxes == s.boxes[n := Put(s.boxes[n], x, v)];
  }

  /** Setting up object `x`, whose new history is `h`. */
  lemma SetsUp(s: State, x: Obj, h: History<int>)
    requires WF(s) && s.phase.SettingUp? && s.phase.done < |s.phase.order| && s.phase.order[s.phase.done] == x
    requires x < |s.hist| && NewestFrom(s.hist[x]) <= s.epochOf[s.phase.snap] && x in s.phase.box
    requires h == Push(s.hist[x], s.phase.to, s.phase.box[x].value)
    ensures var p := s.phase;
            Goes(s, SetupNext, s.(hist := s.hist[x := h], phase := SettingUp(p.snap, p.order, p.box, p.done + 1, p.to)))
  {
  }

  /** Listing the first version of object `x`. */
  lemma Lists(s: State, x: Obj)
    requires WF(s) && s.phase.Registering? && s.phase.done < |s.phase.order| && s.phase.order[s.phase.done] == x
    requires x < |s.hist| && |s.hist[x].past| == 1 && s.firstKey[x] == 1 && |s.info.entries| > 0
    ensures var p := s.phase;
            Goes(s, RegisterNext,
                 s.(info := AddCleanup(s.info, Token(x, 1)),
                    phase := Registering(p.snap, p.order, p.box, p.done + 1)))
  {
    assert s.firstKey[x := 1] == s.firstKey;
  }

  lemma BeginsWith(s: State, n: Snap, order: seq<Obj>)
    requires WF(s) && s.phase.Idle? && n in s.epochOf && |order| == 2 && order[0] != order[1]
    requires s.boxes[n].Keys == {order[0], order[1]}
    ensures Goes(s, Begin(n, order),
                 s.(phase := SettingUp(n, order, s.boxes[n], 0, s.info.current + 1), boxes := s.boxes[n := map[]]))
  {
  }
}
