/** The loop that renumbers epochs, as the code runs it over the entries of the table: for each entry that is not passed
    over it renames the versions on the entry's list, and then the newest versions that start at the entry's old epoch,
    as far as they have been reported by then.  A renaming that is refused ends the loop. */
module CompressLoop {
  import opened Histories
  import opened Snapshots
  import opened Compress

  /** What is gathered on the side: for the epoch at which a newest version starts, the objects whose newest version
      that is, once the version before it has been renamed. */
  type Extras = map<Epoch, seq<Obj>>

  /** How far the loop has got: the objects as they are, what is gathered, and whether nothing was thrown yet. */
  datatype Progress = Progress(ok: bool, hist: seq<History<int>>, extras: Extras)

  function Gather(extras: Extras, next: Epoch, x: Obj): Extras {
    if next == 0 then extras
    else extras[next := (if next in extras then extras[next] else []) + [x]]
  }

  /** Only objects of the store are gathered. */
  ghost predicate Fits(p: Progress) {
    forall e, x :: e in p.extras && x in p.extras[e] ==> x < |p.hist|
  }

  ghost predicate ListFits(cs: seq<Token>, n: nat) {
    forall t :: t in cs ==> t.obj < n
  }

  ghost predicate TableFits(es: seq<Entry>, n: nat) {
    forall k :: 0 <= k < |es| ==> ListFits(es[k].cleanups, n)
  }

  /** Renames one version on a list, and gathers its object if the newest version comes next. */
  function RenameListed(p: Progress, t: Token, to: Epoch): (r: Progress)
    requires t.obj < |p.hist|
    ensures |r.hist| == |p.hist| && (Fits(p) ==> Fits(r))
  {
    if !p.ok then p
    else match Rename(p.hist[t.obj], t.validFrom, to)
      case RenameFailed => p.(ok := false)
      case Renamed(h, next) => Progress(true, p.hist[t.obj := h], Gather(p.extras, next, t.obj))
  }

  function RenameList(p: Progress, cs: seq<Token>, to: Epoch): (r: Progress)
    requires ListFits(cs, |p.hist|)
    ensures |r.hist| == |p.hist| && (Fits(p) ==> Fits(r))
  {
    if |cs| == 0 then p else RenameListed(RenameList(p, cs[..|cs| - 1], to), cs[|cs| - 1], to)
  }

  /** Renames one newest version; what it reports is not used. */
  function RenameFinal(p: Progress, x: Obj, from: Epoch, to: Epoch): (r: Progress)
    requires x < |p.hist|
    ensures |r.hist| == |p.hist| && r.extras == p.extras
  {
    if !p.ok then p
    else match Rename(p.hist[x], from, to)
      case RenameFailed => p.(ok := false)
      case Renamed(h, _) => p.(hist := p.hist[x := h])
  }

  function RenameFinals(p: Progress, xs: seq<Obj>, from: Epoch, to: Epoch): (r: Progress)
    requires forall i :: 0 <= i < |xs| ==> xs[i] < |p.hist|
    ensures |r.hist| == |p.hist| && r.extras == p.extras
  {
    if |xs| == 0 then p else RenameFinal(RenameFinals(p, xs[..|xs| - 1], from, to), xs[|xs| - 1], from, to)
  }

  /** The newest versions that are renamed at an entry. */
  function FinalsAt(extras: Extras, e: Epoch): seq<Obj> {
    if e in extras then extras[e] else []
  }

  /** One round of the outer loop, which takes entry `b` to epoch `b + 1`. */
  function RenumberEntry(p: Progress, es: seq<Entry>, b: nat): (r: Progress)
    requires b < |es| && TableFits(es, |p.hist|) && Fits(p)
    ensures |r.hist| == |p.hist| && Fits(r)
  {
    if Skipped(es, b) then p
    else
      var q := RenameList(p, es[b].cleanups, b + 1);
      var xs := FinalsAt(q.extras, es[b].epoch);
      assert forall i :: 0 <= i < |xs| ==> xs[i] in xs;
      RenameFinals(q, xs, es[b].epoch, b + 1)
  }

  /** The first `m` rounds. */
  function LoopTo(es: seq<Entry>, hist: seq<History<int>>, m: nat): (r: Progress)
    requires m <= |es| && TableFits(es, |hist|)
    ensures |r.hist| == |hist| && Fits(r)
  {
    if m == 0 then Progress(true, hist, map[]) else RenumberEntry(LoopTo(es, hist, m - 1), es, m - 1)
  }

  function Renumbering(es: seq<Entry>, hist: seq<History<int>>): (r: Progress)
    requires TableFits(es, |hist|)
    ensures |r.hist| == |hist|
  {
    LoopTo(es, hist, |es|)
  }

  lemma LoopNext(es: seq<Entry>, hist: seq<History<int>>, b: nat, c: nat)
    requires c == b + 1 <= |es| && TableFits(es, |hist|)
    ensures LoopTo(es, hist, c) == RenumberEntry(LoopTo(es, hist, b), es, b)
    ensures Skipped(es, b) ==> LoopTo(es, hist, c) == LoopTo(es, hist, b)
    ensures Skipped(es, b) <==> es[b].epoch == c
  {
  }

  // ---------------------------------------------------------------------------------------------
  // Once something is thrown, nothing more is done
  // ---------------------------------------------------------------------------------------------

  lemma {:induction false} ListStays(p: Progress, cs: seq<Token>, to: Epoch, i: nat)
    requires i <= |cs| && ListFits(cs, |p.hist|) && ListFits(cs[..i], |p.hist|) && !RenameList(p, cs[..i], to).ok
    ensures RenameList(p, cs, to) == RenameList(p, cs[..i], to)
  {
    var n := |cs| - 1;
    if i <= n {
      assert cs[..n][..i] == cs[..i];
      ListStays(p, cs[..n], to, i);
    } else {
      assert cs[..i] == cs;
    }
  }

  lemma {:induction false} FinalsStay(p: Progress, xs: seq<Obj>, from: Epoch, to: Epoch, i: nat)
    requires i <= |xs| && (forall a :: 0 <= a < |xs| ==> xs[a] < |p.hist|) && !RenameFinals(p, xs[..i], from, to).ok
    ensures RenameFinals(p, xs, from, to) == RenameFinals(p, xs[..i], from, to)
  {
    var n := |xs| - 1;
    if i <= n {
      assert xs[..n][..i] == xs[..i];
      FinalsStay(p, xs[..n], from, to, i);
    } else {
      assert xs[..i] == xs;
    }
  }

  lemma EntryStays(p: Progress, es: seq<Entry>, b: nat)
    requires b < |es| && TableFits(es, |p.hist|) && Fits(p) && !p.ok
    ensures RenumberEntry(p, es, b) == p
  {
    if !Skipped(es, b) {
      var cs := es[b].cleanups;
      assert cs[..0] == [];
      ListStays(p, cs, b + 1, 0);
      var xs := FinalsAt(p.extras, es[b].epoch);
      assert forall i :: 0 <= i < |xs| ==> xs[i] in xs;
      assert xs[..0] == [];
      FinalsStay(p, xs, es[b].epoch, b + 1, 0);
    }
  }

  lemma {:induction false} LoopStays(es: seq<Entry>, hist: seq<History<int>>, m: nat, b: nat)
    requires b <= m <= |es| && TableFits(es, |hist|) && !LoopTo(es, hist, b).ok
    ensures LoopTo(es, hist, m) == LoopTo(es, hist, b)
  {
    if b < m {
      LoopStays(es, hist, m - 1, b);
      EntryStays(LoopTo(es, hist, m - 1), es, m - 1);
    }
  }
}
