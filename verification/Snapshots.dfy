/** The table of registered snapshots: an ordered list of epochs, each with the snapshots that were
    taken at it and the obsolete versions to be cleaned up when the last of them goes away. */
module Snapshots {

  type Epoch = nat
  type Obj = nat
  type Snap = nat

  /** A request to clean up the version of `obj` that starts at `validFrom`. */
  datatype Token = Token(obj: Obj, validFrom: Epoch)

  datatype Entry = Entry(epoch: Epoch, snapshots: set<Snap>, cleanups: seq<Token>)

  datatype Info = Info(current: Epoch, earliest: Epoch, entries: seq<Entry>)

  ghost predicate Increasing(es: seq<Entry>) {
    forall i, j :: 0 <= i < j < |es| ==> es[i].epoch < es[j].epoch
  }

  /** The bookkeeping of epochs: registered epochs never pass the current one, every listed epoch has
      a snapshot, and `earliest` is the lowest registered epoch, or the current one when there is none. */
  ghost predicate InfoOk(info: Info) {
    && Increasing(info.entries)
    && info.current >= 1
    && (forall k :: 0 <= k < |info.entries| ==>
          1 <= info.entries[k].epoch <= info.current && info.entries[k].snapshots != {})
    && info.earliest == (if |info.entries| > 0 then info.entries[0].epoch else info.current)
  }

  /** Position of the entry for epoch `e`, or the number of entries when there is none. */
  function IndexOf(es: seq<Entry>, e: Epoch): (k: nat)
    ensures k <= |es|
    ensures k < |es| ==> es[k].epoch == e
    ensures k == |es| ==> forall j :: 0 <= j < |es| ==> es[j].epoch != e
  {
    if |es| == 0 then 0
    else if es[0].epoch == e then 0
    else 1 + IndexOf(es[1..], e)
  }

  lemma IndexOfEntry(es: seq<Entry>, k: nat)
    requires Increasing(es) && k < |es|
    ensures IndexOf(es, es[k].epoch) == k
  {
  }

  // ---------------------------------------------------------------------------------------------
  // Registering
  // ---------------------------------------------------------------------------------------------

  /** A new snapshot is taken at the current epoch: it joins the last entry or opens a new one there. */
  function Register(info: Info, snap: Snap): Info {
    var es := info.entries;
    var n := |es|;
    if n > 0 && es[n - 1].epoch == info.current
    then info.(entries := es[n - 1 := es[n - 1].(snapshots := es[n - 1].snapshots + {snap})])
    else info.(entries := es + [Entry(info.current, {snap}, [])])
  }

  // ---------------------------------------------------------------------------------------------
  // Removing
  // ---------------------------------------------------------------------------------------------

  /** The cleanups that a snapshot at epoch `p` still needs, in order. */
  function Needed(cs: seq<Token>, p: Epoch): seq<Token> {
    if |cs| == 0 then []
    else
      var rest := Needed(cs[..|cs| - 1], p);
      if p >= cs[|cs| - 1].validFrom then rest + [cs[|cs| - 1]] else rest
  }

  function Unneeded(cs: seq<Token>, p: Epoch): seq<Token> {
    if |cs| == 0 then []
    else
      var rest := Unneeded(cs[..|cs| - 1], p);
      if p >= cs[|cs| - 1].validFrom then rest else rest + [cs[|cs| - 1]]
  }

  lemma {:induction false} NeededSplits(cs: seq<Token>, p: Epoch)
    ensures multiset(Needed(cs, p)) + multiset(Unneeded(cs, p)) == multiset(cs)
    ensures forall t :: t in Needed(cs, p) <==> t in cs && p >= t.validFrom
    ensures forall t :: t in Unneeded(cs, p) <==> t in cs && p < t.validFrom
  {
    if |cs| > 0 {
      NeededSplits(cs[..|cs| - 1], p);
      assert cs == cs[..|cs| - 1] + [cs[|cs| - 1]];
    }
  }

  /** Both parts of a list are in the order of the list. */
  lemma {:induction false} SplitInOrder(a: seq<Token>, b: seq<Token>, p: Epoch)
    ensures Needed(a + b, p) == Needed(a, p) + Needed(b, p)
    ensures Unneeded(a + b, p) == Unneeded(a, p) + Unneeded(b, p)
  {
    if |b| == 0 {
      assert a + b == a;
    } else {
      var n := |b| - 1;
      SplitInOrder(a, b[..n], p);
      assert (a + b)[..|a + b| - 1] == a + b[..n] && (a + b)[|a + b| - 1] == b[n];
    }
  }

  /** Removes entry `k`: its cleanups go to the entry before it when that one still needs them;
      the others are returned, to be carried out. */
  function DropEntry(info: Info, k: nat): (Info, seq<Token>)
    requires k < |info.entries|
  {
    var es := info.entries;
    if k == 0 then
      (info.(entries := es[1..], earliest := if |es| > 1 then es[1].epoch else info.current), es[0].cleanups)
    else
      var p := es[k - 1];
      var p' := p.(cleanups := p.cleanups + Needed(es[k].cleanups, p.epoch));
      (info.(entries := es[..k - 1] + [p'] + es[k + 1..]), Unneeded(es[k].cleanups, p.epoch))
  }

  /** Takes snapshot `snap` out of entry `k`, and the entry with it when it was the last one there. */
  function Leave(info: Info, snap: Snap, k: nat): (Info, seq<Token>)
    requires k < |info.entries|
  {
    var es := info.entries;
    var info' := info.(entries := es[k := es[k].(snapshots := es[k].snapshots - {snap})]);
    if es[k].snapshots - {snap} == {} then DropEntry(info', k) else (info', [])
  }

  // ---------------------------------------------------------------------------------------------
  // Scheduling
  // ---------------------------------------------------------------------------------------------

  /** An obsolete version goes on the list of the last entry. */
  function AddCleanup(info: Info, t: Token): Info
    requires |info.entries| > 0
  {
    var n := |info.entries|;
    var e := info.entries[n - 1];
    info.(entries := info.entries[n - 1 := e.(cleanups := e.cleanups + [t])])
  }

  // ---------------------------------------------------------------------------------------------
  // Every listed cleanup
  // ---------------------------------------------------------------------------------------------

  ghost function Listed(es: seq<Entry>): multiset<Token> {
    if |es| == 0 then multiset{} else Listed(es[..|es| - 1]) + multiset(es[|es| - 1].cleanups)
  }

  lemma {:induction false} ListedConcat(a: seq<Entry>, b: seq<Entry>)
    ensures Listed(a + b) == Listed(a) + Listed(b)
  {
    if |b| == 0 {
      assert a + b == a;
    } else {
      ListedConcat(a, b[..|b| - 1]);
      assert (a + b)[..|a + b| - 1] == a + b[..|b| - 1];
    }
  }

  lemma ListedOne(e: Entry)
    ensures Listed([e]) == multiset(e.cleanups)
  {
    assert [e][..0] == [];
  }

  lemma Parts(es: seq<Entry>, k: nat)
    requires k < |es|
    ensures es == es[..k] + ([es[k]] + es[k + 1..])
  {
  }

  lemma ListedSplit(es: seq<Entry>, k: nat)
    requires k < |es|
    ensures Listed(es) == Listed(es[..k]) + multiset(es[k].cleanups) + Listed(es[k + 1..])
  {
    var before, here, after := es[..k], [es[k]], es[k + 1..];
    Parts(es, k);
    ListedConcat(before, here + after);
    ListedConcat(here, after);
    ListedOne(es[k]);
  }

  lemma ListedHas(es: seq<Entry>, k: nat, t: Token)
    requires k < |es| && t in es[k].cleanups
    ensures t in Listed(es)
  {
    ListedSplit(es, k);
  }

  /** Changing an entry so that its list grows by `ts` makes the whole grow by `ts`. */
  lemma ListedGrow(es: seq<Entry>, k: nat, e: Entry, ts: seq<Token>)
    requires k < |es| && e.cleanups == es[k].cleanups + ts
    ensures Listed(es[k := e]) == Listed(es) + multiset(ts)
  {
    ListedSplit(es, k);
    var es' := es[k := e];
    ListedSplit(es', k);
    assert es'[..k] == es[..k] && es'[k + 1..] == es[k + 1..];
  }

  lemma {:induction false} ListedWhere(es: seq<Entry>, t: Token) returns (k: nat)
    requires t in Listed(es)
    ensures k < |es| && t in es[k].cleanups
  {
    var n := |es| - 1;
    if t in es[n].cleanups {
      k := n;
    } else {
      k := ListedWhere(es[..n], t);
    }
  }

  // ---------------------------------------------------------------------------------------------
  // What the operations keep
  // ---------------------------------------------------------------------------------------------

  lemma RegisterKeepsInfo(info: Info, snap: Snap)
    requires InfoOk(info)
    ensures InfoOk(Register(info, snap))
  {
  }

  lemma RegisterListsNothing(info: Info, snap: Snap)
    ensures Listed(Register(info, snap).entries) == Listed(info.entries)
  {
  }

  lemma DropMiddle(es: seq<Entry>, k: nat, p': Entry, kept: seq<Token>)
    requires 0 < k < |es| && p'.cleanups == es[k - 1].cleanups + kept
    ensures Listed(es[..k - 1] + [p'] + es[k + 1..]) == Listed(es[..k]) + multiset(kept) + Listed(es[k + 1..])
  {
    ListedGrow(es[..k], k - 1, p', kept);
    assert es[..k][k - 1 := p'] == es[..k - 1] + [p'];
    ListedConcat(es[..k - 1] + [p'], es[k + 1..]);
  }

  /** Removing an entry loses no cleanup and duplicates none: each is still listed or handed back. */
  lemma DropConserves(info: Info, k: nat)
    requires k < |info.entries|
    ensures Listed(info.entries) == Listed(DropEntry(info, k).0.entries) + multiset(DropEntry(info, k).1)
  {
    var es := info.entries;
    ListedSplit(es, k);
    if k == 0 {
      assert es[..0] == [];
    } else {
      var p := es[k - 1];
      var kept := Needed(es[k].cleanups, p.epoch);
      NeededSplits(es[k].cleanups, p.epoch);
      DropMiddle(es, k, p.(cleanups := p.cleanups + kept), kept);
    }
  }

  lemma LeaveConserves(info: Info, snap: Snap, k: nat)
    requires k < |info.entries|
    ensures Listed(info.entries) == Listed(Leave(info, snap, k).0.entries) + multiset(Leave(info, snap, k).1)
  {
    var es := info.entries;
    var e := es[k].(snapshots := es[k].snapshots - {snap});
    ListedGrow(es, k, e, []);
    if e.snapshots == {} {
      DropConserves(info.(entries := es[k := e]), k);
    }
  }

  /** Where the entries of the new table come from. */
  lemma DropEntries(info: Info, k: nat)
    requires k < |info.entries|
    ensures var es' := DropEntry(info, k).0.entries;
            && |es'| == |info.entries| - 1
            && forall m :: 0 <= m < |es'| ==>
                 && es'[m].epoch == info.entries[if m < k then m else m + 1].epoch
                 && es'[m].snapshots == info.entries[if m < k then m else m + 1].snapshots
                 && (m != k - 1 ==> es'[m].cleanups == info.entries[if m < k then m else m + 1].cleanups)
  {
  }

  lemma LeaveKeepsInfo(info: Info, snap: Snap, k: nat)
    requires InfoOk(info) && k < |info.entries|
    ensures InfoOk(Leave(info, snap, k).0)
  {
    var es := info.entries;
    var info' := info.(entries := es[k := es[k].(snapshots := es[k].snapshots - {snap})]);
    if es[k].snapshots - {snap} == {} {
      DropEntries(info', k);
      var es' := DropEntry(info', k).0.entries;
      forall i, j | 0 <= i < j < |es'|
        ensures es'[i].epoch < es'[j].epoch
      {
        assert es'[i].epoch == es[if i < k then i else i + 1].epoch;
        assert es'[j].epoch == es[if j < k then j else j + 1].epoch;
      }
    }
  }

  /** The two checks of the setter for the earliest epoch hold whenever an entry is removed. */
  lemma EarliestAdvances(info: Info, snap: Snap, k: nat)
    requires InfoOk(info) && k < |info.entries|
    ensures info.earliest <= Leave(info, snap, k).0.earliest <= info.current
  {
  }

  lemma AddCleanupLists(info: Info, t: Token)
    requires |info.entries| > 0
    ensures Listed(AddCleanup(info, t).entries) == Listed(info.entries) + multiset{t}
    ensures InfoOk(info) ==> InfoOk(AddCleanup(info, t))
  {
  }
}
