/** The doubly linked list of active critical sections, oldest first. */
module CriticalList {
  import opened Garbage

  /** What a thread's critical section is entered in the list with.  `id` and `thread` say which section of
      the machine it stands for. */
  class CriticalInfo {
    var live: bool
    var prev: CriticalInfo?
    var next: CriticalInfo?
    var cleanups: seq<Cleanup>
    ghost var id: nat
    ghost const thread: ThreadId

    constructor (ghost thread: ThreadId)
      ensures !live && prev == null && next == null && cleanups == [] && this.thread == thread
    {
      live, prev, next, cleanups := false, null, null, [];
      this.thread := thread;
    }

    ghost function Section(): Section
      reads this
    {
      Garbage.Section.Section(id, thread, cleanups)
    }

    /** Takes over a list by keeping the longer of the two and putting the other behind it; `rest` is what the
        giver is left with. */
    method TakeCleanupsFrom(others: seq<Cleanup>) returns (rest: seq<Cleanup>)
      modifies this`cleanups
      ensures cleanups == Merge(old(cleanups), others) && rest == []
      ensures cleanups == if |old(cleanups)| < |others| then others + old(cleanups) else old(cleanups) + others
    {
      rest := others;
      if |cleanups| < |rest| {
        cleanups, rest := rest, cleanups;
      }
      if rest == [] {
        return;
      }
      cleanups := cleanups + rest;
      rest := [];
    }
  }

  /** Member `i` is live and linked to its neighbours. */
  ghost predicate LinkedAt(nodes: seq<CriticalInfo>, i: nat)
    requires i < |nodes|
    reads nodes[i]
  {
    && nodes[i].live
    && nodes[i].prev == (if i == 0 then null else nodes[i - 1])
    && nodes[i].next == (if i + 1 == |nodes| then null else nodes[i + 1])
  }

  lemma TakenOut<T>(s: seq<T>, k: nat)
    requires k < |s|
    ensures var r := s[..k] + s[k + 1..];
            |r| == |s| - 1 && forall i :: 0 <= i < |r| ==> r[i] == s[if i < k then i else i + 1]
  {
  }

  class SectionList {
    var newest: CriticalInfo?
    ghost var nodes: seq<CriticalInfo>

    /** Well linked both ways, no section twice, and every member live. */
    ghost predicate Valid()
      reads this, nodes
    {
      && newest == (if |nodes| == 0 then null else nodes[|nodes| - 1])
      && (forall i, j :: 0 <= i < j < |nodes| ==> nodes[i] != nodes[j])
      && (forall i :: 0 <= i < |nodes| ==> LinkedAt(nodes, i))
    }

    /** The sections that the members stand for. */
    ghost function Sections(): (r: seq<Section>)
      reads this, nodes
      ensures |r| == |nodes|
    {
      seq(|nodes|, k requires 0 <= k < |nodes| reads this, nodes => nodes[k].Section())
    }

    constructor ()
      ensures Valid() && nodes == []
    {
      newest := null;
      nodes := [];
    }

    /** Taking member `k` out leaves all the others. */
    lemma OthersStay(k: nat)
      requires Valid() && k < |nodes|
      ensures forall n :: n in nodes <==> n == nodes[k] || n in nodes[..k] + nodes[k + 1..]
      ensures nodes[k] !in nodes[..k] + nodes[k + 1..]
    {
    }

    /** The new section becomes the newest one. */
    method Insert(ci: CriticalInfo)
      requires Valid() && !ci.live && ci !in nodes
      modifies this, ci, nodes
      ensures Valid() && nodes == old(nodes) + [ci]
      ensures Sections() == old(Sections() + [ci.Section()])
    {
      ci.prev := newest;
      if ci.prev != null {
        assert LinkedAt(nodes, |nodes| - 1);
        ci.prev.next := ci;
      }
      newest := ci;
      ci.next := null;
      ci.live := true;
      nodes := nodes + [ci];
      forall i | 0 <= i < |nodes| ensures LinkedAt(nodes, i) {
        assert i < |nodes| - 1 ==> old(LinkedAt(nodes, i));
      }
    }

    /** The newest section takes over a list. */
    method GiveToNewest(list: seq<Cleanup>) returns (rest: seq<Cleanup>)
      requires Valid() && |nodes| > 0
      modifies nodes
      ensures Valid() && rest == []
      ensures Sections() == GiveNewest(old(Sections()), list)
    {
      rest := newest.TakeCleanupsFrom(list);
      forall i | 0 <= i < |nodes| ensures LinkedAt(nodes, i) {
        assert old(LinkedAt(nodes, i));
      }
    }

    /** A cleanup goes on the newest section's list. */
    method AddToNewest(cleanup: Cleanup)
      requires Valid() && |nodes| > 0
      modifies nodes
      ensures Valid()
      ensures var a, n := old(Sections()), |nodes| - 1;
              Sections() == a[n := a[n].(cleanups := a[n].cleanups + [cleanup])]
    {
      newest.cleanups := newest.cleanups + [cleanup];
      forall i | 0 <= i < |nodes| ensures LinkedAt(nodes, i) {
        assert old(LinkedAt(nodes, i));
      }
    }

    /** Takes a member out, wherever in the list it is, and links its neighbours to each other. */
    method Unlink(ci: CriticalInfo, ghost k: nat)
      requires Valid() && k < |nodes| && nodes[k] == ci
      modifies this, nodes
      ensures Valid() && nodes == old(nodes[..k] + nodes[k + 1..])
      ensures !ci.live && ci.prev == null && ci.next == null
      ensures forall n :: n in old(nodes) ==> n.Section() == old(n.Section())
    {
      ghost var was := nodes;
      assert LinkedAt(was, k);
      if ci.prev != null {
        assert LinkedAt(was, k - 1);
        ci.prev.next := ci.next;
      }
      if ci.next != null {
        assert old(LinkedAt(was, k + 1));
        ci.next.prev := ci.prev;
      } else {
        newest := ci.prev;
      }
      ci.prev, ci.next := null, null;
      ci.live := false;
      nodes := nodes[..k] + nodes[k + 1..];
      TakenOut(was, k);
      forall i | 0 <= i < |nodes| ensures LinkedAt(nodes, i) {
        var o := if i < k then i else i + 1;
        assert nodes[i] == was[o] && old(LinkedAt(was, o));
        assert was[o] != was[k] && (k > 0 && o != k - 1 ==> was[o] != was[k - 1]);
        assert k + 1 < |was| && o != k + 1 ==> was[o] != was[k + 1];
      }
    }

    /** A section ends: the one before it takes over its cleanups, and it leaves the list. */
    method Remove(ci: CriticalInfo, ghost k: nat)
      requires Valid() && k < |nodes| && nodes[k] == ci
      modifies this, nodes
      ensures Valid() && nodes == old(nodes[..k] + nodes[k + 1..])
      ensures !ci.live && ci.prev == null && ci.next == null
      ensures ci.cleanups == if k == 0 then old(ci.cleanups) else []
      ensures Sections() == EndSection(old(Sections()), k)
    {
      EndSectionIs(Sections(), k);
      GiveBefore(ci, k);
      ghost var left, members := Sections(), nodes;
      label given:
      assert ci in nodes;
      Unlink(ci, k);
      assert ci.Section() == old@given(ci.Section());
      forall m | 0 <= m < |nodes| ensures nodes[m].Section() == (left[..k] + left[k + 1..])[m] {
        assert nodes[m] == members[if m < k then m else m + 1];
        assert members[if m < k then m else m + 1] in members;
      }
    }

    /** The section before `ci`, if any, takes over its cleanups. */
    method GiveBefore(ci: CriticalInfo, ghost k: nat)
      requires Valid() && k < |nodes| && nodes[k] == ci
      modifies nodes
      ensures Valid()
      ensures ci.cleanups == if k == 0 then old(ci.cleanups) else []
      ensures forall m :: 0 <= m < |nodes| && m != k ==> Sections()[m] == Ended(old(Sections()), k, m)
    {
      assert LinkedAt(nodes, k);
      if ci.prev != null {
        assert LinkedAt(nodes, k - 1);
        ci.cleanups := ci.prev.TakeCleanupsFrom(ci.cleanups);
      }
      forall i | 0 <= i < |nodes| ensures LinkedAt(nodes, i) {
        assert old(LinkedAt(nodes, i));
      }
    }
  }

  /** What becomes of section `m` when section `k` ends. */
  ghost function Ended(active: seq<Section>, k: nat, m: nat): Section
    requires k < |active| && m < |active|
  {
    if m + 1 == k then active[m].(cleanups := Merge(active[m].cleanups, active[k].cleanups)) else active[m]
  }

  lemma EndSectionIs(active: seq<Section>, k: nat)
    requires k < |active|
    ensures forall left: seq<Section> ::
              |left| == |active| && (forall m :: 0 <= m < |active| && m != k ==> left[m] == Ended(active, k, m)) ==>
                EndSection(active, k) == left[..k] + left[k + 1..]
  {
  }
}
