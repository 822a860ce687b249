/**
  The three maintenance operations on the artifact roots, and what they guarantee together: nothing is
  deleted if any request is refused, the newest backup survives every sequence of calls, and analysis,
  cleanup and verification agree on an otherwise unchanged tree.
 */
module RuntimeCleaner {
  import opened Common
  import opened RuntimeCleanup

  function RootOf(roots: seq<Root>, id: string): (r: Option<Root>)
    ensures r.Some? ==> r.value in roots && r.value.id == id
    decreases |roots|
  {
    if roots == [] then None
    else if roots[|roots| - 1].id == id then Some(roots[|roots| - 1])
    else RootOf(roots[..|roots| - 1], id)
  }

  lemma {:induction false} RootOfExact(roots: seq<Root>, root: Root)
    requires DistinctIds(roots) && root in roots
    ensures RootOf(roots, root.id) == Some(root)
    decreases |roots|
  {
    var n := |roots| - 1;
    assert roots == roots[..n] + [roots[n]];
    if root in roots[..n] { RootOfExact(roots[..n], root); }
  }

  /** What the cleaner sees of a requested file. */
  function Seen(roots: seq<Root>, t: Tree, c: Candidate): Option<Entry> {
    match RootOf(roots, c.root)
    case None => None
    case Some(root) => Look(t, root.path, c.name)
  }

  datatype Deletion = Deletion(t: Tree, count: nat, bytes: nat)

  /** Deleting those of the first k requested files that exist, one after the other. */
  function DeleteUpTo(roots: seq<Root>, t: Tree, requested: seq<Candidate>, k: nat): Deletion
    requires k <= |requested|
  {
    if k == 0 then Deletion(t, 0, 0)
    else
      var d, c := DeleteUpTo(roots, t, requested, k - 1), requested[k - 1];
      match RootOf(roots, c.root)
      case None => d
      case Some(root) =>
        match Look(d.t, root.path, c.name)
        case None => d
        case Some(e) => Deletion(Erase(d.t, root.path, c.name), d.count + 1, d.bytes + e.size)
  }

  function DeleteAll(roots: seq<Root>, t: Tree, requested: seq<Candidate>): Deletion {
    DeleteUpTo(roots, t, requested, |requested|)
  }

  function RemainingUpTo(roots: seq<Root>, t: Tree, requested: seq<Candidate>, k: nat): nat
    requires k <= |requested|
  {
    if k == 0 then 0
    else RemainingUpTo(roots, t, requested, k - 1) + (if Seen(roots, t, requested[k - 1]).Some? then 1 else 0)
  }

  function Remaining(roots: seq<Root>, t: Tree, requested: seq<Candidate>): nat { RemainingUpTo(roots, t, requested, |requested|) }

  /** Which of the first k requested files still exist. */
  function StillThere(roots: seq<Root>, t: Tree, requested: seq<Candidate>, k: nat): set<int>
    requires k <= |requested|
  {
    set i | 0 <= i < k && Seen(roots, t, requested[i]).Some?
  }

  lemma {:induction false} RemainingCounts(roots: seq<Root>, t: Tree, requested: seq<Candidate>, k: nat)
    requires k <= |requested|
    ensures RemainingUpTo(roots, t, requested, k) == |StillThere(roots, t, requested, k)|
    decreases k
  {
    if k > 0 {
      RemainingCounts(roots, t, requested, k - 1);
      var flags := seq(|requested|, i requires 0 <= i < |requested| => Seen(roots, t, requested[i]).Some?);
      OneMore(flags, k);
      assert StillThere(roots, t, requested, k) == set i | 0 <= i < k && flags[i];
      assert StillThere(roots, t, requested, k - 1) == set i | 0 <= i < k - 1 && flags[i];
    }
  }

  lemma OneMore(flags: seq<bool>, k: nat)
    requires 0 < k <= |flags|
    ensures |set i | 0 <= i < k && flags[i]| == |set i | 0 <= i < k - 1 && flags[i]| + if flags[k - 1] then 1 else 0
  {
    var before := set i | 0 <= i < k - 1 && flags[i];
    assert (set i | 0 <= i < k && flags[i]) == if flags[k - 1] then before + {k - 1} else before;
  }

  /** The root is absent, or safe and readable. */
  ghost predicate Usable(root: Root, t: Tree, canonical: string -> bool, unreadable: set<string>) {
    root.path in t ==> SafeRoot(root, t, canonical) && root.path !in unreadable
  }

  /** The roots can be analysed: no two share a path, all are safe and readable, and not too much is listed. */
  ghost predicate Analysable(roots: seq<Root>, t: Tree, cutoff: int, canonical: string -> bool, unreadable: set<string>) {
    && DistinctPaths(roots)
    && (forall i :: 0 <= i < |roots| ==> Usable(roots[i], t, canonical, unreadable))
    && |Listed(roots, t, cutoff, canonical)| <= MAX_CANDIDATES
  }

  ghost predicate NoDuplicates(cs: seq<Candidate>) { forall i, k :: 0 <= i < k < |cs| ==> cs[i] != cs[k] }

  /** A request that may be carried out: a canonical name in a known root, and listed if it exists. */
  ghost predicate Allowed(roots: seq<Root>, t: Tree, cutoff: int, canonical: string -> bool, c: Candidate) {
    && RootOf(roots, c.root).Some? && canonical(c.name)
    && (Seen(roots, t, c).Some? ==> c in Names(Listed(roots, t, cutoff, canonical)))
  }

  ghost predicate Acceptable(roots: seq<Root>, t: Tree, cutoff: int, canonical: string -> bool, requested: seq<Candidate>) {
    NoDuplicates(requested) && forall i :: 0 <= i < |requested| ==> Allowed(roots, t, cutoff, canonical, requested[i])
  }

  datatype Reply = Refused | Interrupted(deleted: nat, reclaimed: nat) | Done(deleted: nat, reclaimed: nat)

  class Cleaner {
    const roots: seq<Root>
    var tree: Tree

    ghost predicate Valid() reads this { DistinctIds(roots) && WellFormed(tree) }

    constructor (specs: seq<Root>, t: Tree)
      requires DistinctIds(specs) && WellFormed(t)
      ensures roots == specs && tree == t && Valid()
    {
      roots, tree := specs, t;
    }

    /** The artifacts of one root; an unsafe one makes the whole root unusable. */
    method RootEntries(root: Root, canonical: string -> bool, unreadable: set<string>) returns (r: Option<seq<Entry>>)
      requires root.path in tree
      ensures r.Some? <==> SafeRoot(root, tree, canonical) && root.path !in unreadable
      ensures r.Some? ==> r.value == RootArtifacts(root, tree, canonical)
    {
      var dir := tree[root.path];
      if !dir.safe || root.path in unreadable { return None; }
      var result: seq<Entry> := [];
      for k := 0 to |dir.entries|
        invariant result == Artifacts(dir.entries[..k], canonical)
        invariant forall i :: 0 <= i < k && canonical(dir.entries[i].name) ==> dir.entries[i].safe
      {
        assert dir.entries[..k + 1][..k] == dir.entries[..k];
        if !canonical(dir.entries[k].name) { continue; }
        if !dir.entries[k].safe { return None; }
        result := result + [dir.entries[k]];
      }
      assert dir.entries[..|dir.entries|] == dir.entries;
      return Some(result);
    }

    /** The artifact that must stay in a backup root. */
    method FindNewest(root: Root, es: seq<Entry>) returns (kept: Option<Entry>)
      ensures kept == Kept(root, es)
    {
      kept := None;
      for k := 0 to |es|
        invariant kept == if root.backup then Newest(es[..k]) else None
      {
        assert es[..k + 1][..k] == es[..k];
        if root.backup && (kept.None? || es[k].modified > kept.value.modified) { kept := Some(es[k]); }
      }
      assert es[..|es|] == es;
    }

    /** Appends the expired artifacts of one root, up to the limit. */
    method AnalyzeRoot(root: Root, es: seq<Entry>, cutoff: int, kept: Option<Entry>, before: seq<Found>)
      returns (found: seq<Found>, bytes: nat, ok: bool)
      requires |before| <= MAX_CANDIDATES
      ensures ok <==> |before| + |ExpiredUpTo(root, es, |es|, cutoff, kept)| <= MAX_CANDIDATES
      ensures ok ==> found == before + ExpiredUpTo(root, es, |es|, cutoff, kept) && Bytes(found) == Bytes(before) + bytes
    {
      found, bytes := before, 0;
      for k := 0 to |es|
        invariant found == before + ExpiredUpTo(root, es, k, cutoff, kept) && |found| <= MAX_CANDIDATES
        invariant Bytes(found) == Bytes(before) + bytes
      {
        if !Expires(es[k], cutoff, kept) { continue; }
        BytesOne(found, Found(root, es[k]));
        found := found + [Found(root, es[k])];
        bytes := bytes + es[k].size;
        if |found| > MAX_CANDIDATES {
          ExpiredGrows(root, es, k + 1, |es|, cutoff, kept);
          return found, bytes, false;
        }
      }
      ok := true;
    }

    /** Appends what root number k lists, or fails on an unusable root or on too many artifacts. */
    method AnalyzeNext(k: nat, cutoff: int, canonical: string -> bool, unreadable: set<string>, before: seq<Found>, bytes: nat)
      returns (r: Option<(seq<Found>, nat)>)
      requires k < |roots| && before == ListedUpTo(roots, k, tree, cutoff, canonical) && |before| <= MAX_CANDIDATES && bytes == Bytes(before)
      ensures r.Some? <==> Usable(roots[k], tree, canonical, unreadable) && |ListedUpTo(roots, k + 1, tree, cutoff, canonical)| <= MAX_CANDIDATES
      ensures r.Some? ==> r.value.0 == ListedUpTo(roots, k + 1, tree, cutoff, canonical) && r.value.1 == Bytes(r.value.0)
    {
      var root := roots[k];
      if root.path !in tree {
        assert before + ListedIn(root, tree, cutoff, canonical) == before;
        return Some((before, bytes));
      }
      var es := RootEntries(root, canonical, unreadable);
      if es.None? { return None; }
      var kept := FindNewest(root, es.value);
      var found, added, ok := AnalyzeRoot(root, es.value, cutoff, kept, before);
      if !ok { return None; }
      return Some((found, bytes + added));
    }

    /** Whether two roots share a path. */
    method PathsOverlap() returns (overlap: bool)
      ensures overlap <==> !DistinctPaths(roots)
    {
      var seen: set<string> := {};
      for k := 0 to |roots|
        invariant forall i, l :: 0 <= i < l < k ==> roots[i].path != roots[l].path
        invariant seen == set i | 0 <= i < k :: roots[i].path
      {
        if roots[k].path in seen { return true; }
        seen := seen + {roots[k].path};
      }
      return false;
    }

    /** Goes through the roots one by one and stops at the first that is unusable or exceeds the limit. */
    method AnalyzeRoots(cutoff: int, canonical: string -> bool, unreadable: set<string>)
      returns (r: Option<(seq<Found>, nat)>, ghost stop: nat)
      ensures r.Some? ==> forall i :: 0 <= i < |roots| ==> Usable(roots[i], tree, canonical, unreadable)
      ensures r.Some? ==> |r.value.0| <= MAX_CANDIDATES && r.value.0 == Listed(roots, tree, cutoff, canonical) && r.value.1 == Bytes(r.value.0)
      ensures r.None? ==>
                stop < |roots| &&
                !(Usable(roots[stop], tree, canonical, unreadable) && |ListedUpTo(roots, stop + 1, tree, cutoff, canonical)| <= MAX_CANDIDATES)
    {
      var found: seq<Found> := [];
      var bytes: nat := 0;
      stop := 0;
      for k := 0 to |roots|
        invariant forall i :: 0 <= i < k ==> Usable(roots[i], tree, canonical, unreadable)
        invariant found == ListedUpTo(roots, k, tree, cutoff, canonical) && |found| <= MAX_CANDIDATES && bytes == Bytes(found)
      {
        var next := AnalyzeNext(k, cutoff, canonical, unreadable, found, bytes);
        if next.None? { return None, k; }
        found, bytes := next.value.0, next.value.1;
      }
      return Some((found, bytes)), 0;
    }

    /** Lists the expired artifacts of every root. */
    method Analyze(cutoff: int, canonical: string -> bool, unreadable: set<string>) returns (r: Result<(seq<Found>, nat)>)
      ensures r.Ok? <==> Analysable(roots, tree, cutoff, canonical, unreadable)
      ensures r.Ok? ==> r.value.0 == Listed(roots, tree, cutoff, canonical) && r.value.1 == Bytes(r.value.0)
    {
      var overlap := PathsOverlap();
      if overlap { return Err("roots overlap"); }
      ghost var stop: nat;
      var found: Option<(seq<Found>, nat)>;
      found, stop := AnalyzeRoots(cutoff, canonical, unreadable);
      if found.None? {
        ListedGrows(roots, stop + 1, |roots|, tree, cutoff, canonical);
        return Err("root is unsafe or lists too much");
      }
      return Ok(found.value);
    }

    /** Checks every request against the present listing; the first refusal ends it. */
    method CheckRequests(cutoff: int, canonical: string -> bool, allowed: seq<Candidate>, requested: seq<Candidate>, unstatable: set<Candidate>)
      returns (ok: bool)
      requires allowed == Names(Listed(roots, tree, cutoff, canonical))
      ensures ok <==> Acceptable(roots, tree, cutoff, canonical, requested)
                      && forall i :: 0 <= i < |requested| && Seen(roots, tree, requested[i]).Some? ==> requested[i] !in unstatable
    {
      var seen: set<Candidate> := {};
      for k := 0 to |requested|
        invariant forall i, l :: 0 <= i < l < k ==> requested[i] != requested[l]
        invariant seen == set i | 0 <= i < k :: requested[i]
        invariant forall i :: 0 <= i < k ==> Allowed(roots, tree, cutoff, canonical, requested[i])
        invariant forall i :: 0 <= i < k ==> (Seen(roots, tree, requested[i]).Some? ==> requested[i] !in unstatable)
      {
        var c := requested[k];
        if c in seen { return false; }
        seen := seen + {c};
        if RootOf(roots, c.root).None? || !canonical(c.name) { return false; }
        if Seen(roots, tree, c).None? { continue; }
        if c in unstatable || c !in allowed { return false; }
      }
      return true;
    }

    /** Removes requested files one by one until a removal fails. */
    method RemoveRequested(requested: seq<Candidate>, stuck: set<Candidate>) returns (r: Reply)
      requires forall i :: 0 <= i < |requested| ==> RootOf(roots, requested[i].root).Some?
      modifies this`tree
      ensures r.Done? ==> Deletion(tree, r.deleted, r.reclaimed) == DeleteAll(roots, old(tree), requested)
      ensures r.Interrupted? ==> exists k ::
                0 <= k < |requested| && requested[k] in stuck &&
                Deletion(tree, r.deleted, r.reclaimed) == DeleteUpTo(roots, old(tree), requested, k)
      ensures !r.Refused?
      ensures stuck == {} ==> r.Done?
    {
      var deleted: nat, reclaimed: nat := 0, 0;
      for k := 0 to |requested|
        invariant Deletion(tree, deleted, reclaimed) == DeleteUpTo(roots, old(tree), requested, k)
      {
        var c := requested[k];
        var root := RootOf(roots, c.root).value;
        var info := Look(tree, root.path, c.name);
        if info.None? { continue; }
        if c in stuck { return Interrupted(deleted, reclaimed); }
        tree := Erase(tree, root.path, c.name);
        deleted, reclaimed := deleted + 1, reclaimed + info.value.size;
      }
      return Done(deleted, reclaimed);
    }

    /** Deletes the requested files, or nothing if any request is refused. */
    method Cleanup(cutoff: int, requested: seq<Candidate>, canonical: string -> bool, unreadable: set<string>,
                   unstatable: set<Candidate>, stuck: set<Candidate>) returns (r: Reply)
      requires Valid()
      modifies this`tree
      ensures Valid()
      ensures r.Refused? ==> tree == old(tree)
      ensures !r.Refused? <==>
              && Analysable(roots, old(tree), cutoff, canonical, unreadable)
              && Acceptable(roots, old(tree), cutoff, canonical, requested)
              && forall i :: 0 <= i < |requested| && Seen(roots, old(tree), requested[i]).Some? ==> requested[i] !in unstatable
      ensures r.Done? ==> Deletion(tree, r.deleted, r.reclaimed) == DeleteAll(roots, old(tree), requested)
      ensures r.Interrupted? ==> exists k ::
                0 <= k < |requested| && requested[k] in stuck &&
                Deletion(tree, r.deleted, r.reclaimed) == DeleteUpTo(roots, old(tree), requested, k)
      ensures stuck == {} ==> !r.Interrupted?
    {
      var current := Analyze(cutoff, canonical, unreadable);
      if current.Err? { return Refused; }
      var ok := CheckRequests(cutoff, canonical, Names(current.value.0), requested, unstatable);
      if !ok { return Refused; }
      forall k | 0 <= k <= |requested| ensures WellFormed(DeleteUpTo(roots, tree, requested, k).t) { DeleteWellFormed(roots, tree, requested, k); }
      r := RemoveRequested(requested, stuck);
    }

    /** Counts the requested files that still exist; an invalid or unreadable request is refused. */
    method Verify(requested: seq<Candidate>, canonical: string -> bool, unstatable: set<Candidate>) returns (r: Result<nat>)
      ensures r.Ok? <==> forall i :: 0 <= i < |requested| ==>
                           && RootOf(roots, requested[i].root).Some? && canonical(requested[i].name)
                           && (Seen(roots, tree, requested[i]).Some? ==> requested[i] !in unstatable)
      ensures r.Ok? ==> r.value == |StillThere(roots, tree, requested, |requested|)|
    {
      var remaining := 0;
      for k := 0 to |requested|
        invariant forall i :: 0 <= i < k ==>
                    && RootOf(roots, requested[i].root).Some? && canonical(requested[i].name)
                    && (Seen(roots, tree, requested[i]).Some? ==> requested[i] !in unstatable)
        invariant remaining == RemainingUpTo(roots, tree, requested, k)
      {
        var c := requested[k];
        if RootOf(roots, c.root).None? || !canonical(c.name) { return Err("invalid candidate"); }
        if Seen(roots, tree, c).None? { continue; }
        if c in unstatable { return Err("inspect candidate"); }
        remaining := remaining + 1;
      }
      RemainingCounts(roots, tree, requested, |requested|);
      return Ok(remaining);
    }
  }

  lemma {:induction false} WithoutDistinct(es: seq<Entry>, name: string)
    requires DistinctNames(es)
    ensures DistinctNames(Without(es, name))
    decreases |es|
  {
    if es != [] {
      var n := |es| - 1;
      var w := Without(es[..n], name);
      WithoutDistinct(es[..n], name);
      forall i | 0 <= i < |w| ensures w[i].name != es[n].name {
        WithoutMembers(es[..n], name, w[i]);
      }
    }
  }

  lemma {:induction false} DeleteWellFormed(roots: seq<Root>, t: Tree, requested: seq<Candidate>, k: nat)
    requires WellFormed(t) && k <= |requested|
    ensures WellFormed(DeleteUpTo(roots, t, requested, k).t)
    decreases k
  {
    if k > 0 {
      DeleteWellFormed(roots, t, requested, k - 1);
      var d, c := DeleteUpTo(roots, t, requested, k - 1), requested[k - 1];
      var root := RootOf(roots, c.root);
      if root.Some? && root.value.path in d.t { WithoutDistinct(d.t[root.value.path].entries, c.name); }
    }
  }

  lemma BytesOne(found: seq<Found>, f: Found)
    ensures Bytes(found + [f]) == Bytes(found) + f.entry.size
  {
    BytesFrame(found, found + [f], |found|);
  }

  lemma {:induction false} ExpiredGrows(root: Root, es: seq<Entry>, k: nat, n: nat, cutoff: int, kept: Option<Entry>)
    requires k <= n <= |es|
    ensures |ExpiredUpTo(root, es, k, cutoff, kept)| <= |ExpiredUpTo(root, es, n, cutoff, kept)|
    decreases n
  {
    if k < n { ExpiredGrows(root, es, k, n - 1, cutoff, kept); }
  }

  lemma {:induction false} ListedGrows(roots: seq<Root>, k: nat, n: nat, t: Tree, cutoff: int, canonical: string -> bool)
    requires k <= n <= |roots|
    ensures |ListedUpTo(roots, k, t, cutoff, canonical)| <= |ListedUpTo(roots, n, t, cutoff, canonical)|
    decreases n
  {
    if k < n { ListedGrows(roots, k, n - 1, t, cutoff, canonical); }
  }

  // ---------------------------------------------------------------- what deletion does

  ghost predicate NamesFile(roots: seq<Root>, c: Candidate, path: string, name: string) {
    RootOf(roots, c.root).Some? && RootOf(roots, c.root).value.path == path && c.name == name
  }

  /** One of the first k requests names this file. */
  ghost predicate Requested(roots: seq<Root>, requested: seq<Candidate>, k: nat, path: string, name: string)
    requires k <= |requested|
  {
    exists i :: 0 <= i < k && NamesFile(roots, requested[i], path, name)
  }

  lemma {:induction false} DeleteUpToExact(roots: seq<Root>, t: Tree, requested: seq<Candidate>, k: nat, path: string, name: string)
    requires k <= |requested|
    ensures Look(DeleteUpTo(roots, t, requested, k).t, path, name) ==
            if Requested(roots, requested, k, path, name) then None else Look(t, path, name)
    decreases k
  {
    if k > 0 {
      DeleteUpToExact(roots, t, requested, k - 1, path, name);
      var d, c := DeleteUpTo(roots, t, requested, k - 1), requested[k - 1];
      var root := RootOf(roots, c.root);
      if root.Some? { LookErase(d.t, root.value.path, c.name, path, name); }
      assert Requested(roots, requested, k, path, name) <==> Requested(roots, requested, k - 1, path, name) || NamesFile(roots, c, path, name);
    }
  }

  /** Deletion removes the requested files and leaves every other file alone. */
  lemma DeleteExact(roots: seq<Root>, t: Tree, requested: seq<Candidate>, path: string, name: string)
    ensures Look(DeleteAll(roots, t, requested).t, path, name) ==
            if Requested(roots, requested, |requested|, path, name) then None else Look(t, path, name)
  {
    DeleteUpToExact(roots, t, requested, |requested|, path, name);
  }

  /** An acceptable request for an existing file names an expired artifact that its root need not keep. */
  lemma AllowedExpires(roots: seq<Root>, t: Tree, cutoff: int, canonical: string -> bool, c: Candidate)
    requires DistinctIds(roots) && Allowed(roots, t, cutoff, canonical, c) && Seen(roots, t, c).Some?
    ensures var root := RootOf(roots, c.root).value;
            exists e :: e in RootArtifacts(root, t, canonical) && e.name == c.name
                        && Expires(e, cutoff, Kept(root, RootArtifacts(root, t, canonical)))
  {
    var found := Listed(roots, t, cutoff, canonical);
    var i :| 0 <= i < |found| && Names(found)[i] == c;
    var f := found[i];
    ListedExact(roots, t, cutoff, canonical, f);
    RootOfExact(roots, f.root);
    ArtifactsMembers(t[f.root.path].entries, canonical, f.entry);
  }

  /** Only canonical artifacts older than the cutoff are ever deleted. */
  lemma DeletesOnlyExpired(roots: seq<Root>, t: Tree, cutoff: int, canonical: string -> bool, requested: seq<Candidate>, path: string, name: string)
    requires DistinctIds(roots) && WellFormed(t) && Acceptable(roots, t, cutoff, canonical, requested)
    ensures var e := Look(t, path, name);
            e.Some? && Look(DeleteAll(roots, t, requested).t, path, name) != e ==> canonical(name) && e.value.modified < cutoff
  {
    DeleteExact(roots, t, requested, path, name);
    if Look(t, path, name).Some? && Requested(roots, requested, |requested|, path, name) {
      var i :| 0 <= i < |requested| && NamesFile(roots, requested[i], path, name);
      AllowedExpires(roots, t, cutoff, canonical, requested[i]);
      var root := RootOf(roots, requested[i].root).value;
      var x :| x in RootArtifacts(root, t, canonical) && x.name == name && Expires(x, cutoff, Kept(root, RootArtifacts(root, t, canonical)));
      ArtifactsMembers(t[path].entries, canonical, x);
      FindMember(t[path].entries, x);
    }
  }

  // ---------------------------------------------------------------- the newest backup

  lemma EraseArtifacts(t: Tree, root: Root, path: string, name: string, canonical: string -> bool)
    ensures RootArtifacts(root, Erase(t, path, name), canonical) ==
            if root.path == path then Without(RootArtifacts(root, t, canonical), name) else RootArtifacts(root, t, canonical)
  {
    if path in t { ArtifactsWithout(t[path].entries, name, canonical); }
  }

  lemma SamePathSameRoot(roots: seq<Root>, a: Root, b: Root)
    requires DistinctPaths(roots) && a in roots && b in roots && a.path == b.path
    ensures a == b
  {
    var i :| 0 <= i < |roots| && roots[i] == a;
    var k :| 0 <= k < |roots| && roots[k] == b;
    assert i == k;
  }

  lemma EraseKeepsNewest(t: Tree, root: Root, path: string, name: string, canonical: string -> bool)
    requires path == root.path ==>
               var newest := Newest(RootArtifacts(root, t, canonical)); newest.Some? && newest.value.name != name
    ensures Newest(RootArtifacts(root, Erase(t, path, name), canonical)) == Newest(RootArtifacts(root, t, canonical))
  {
    EraseArtifacts(t, root, path, name, canonical);
    if path == root.path { NewestSurvives(RootArtifacts(root, t, canonical), name); }
  }

  /** An acceptable request for an existing file of a backup root never names its newest artifact. */
  lemma RequestSparesNewest(roots: seq<Root>, t: Tree, cutoff: int, canonical: string -> bool, c: Candidate, root: Root)
    requires DistinctIds(roots) && DistinctPaths(roots) && root in roots && root.backup
    requires Allowed(roots, t, cutoff, canonical, c) && Seen(roots, t, c).Some? && RootOf(roots, c.root).value.path == root.path
    ensures var newest := Newest(RootArtifacts(root, t, canonical)); newest.Some? && newest.value.name != c.name
  {
    SamePathSameRoot(roots, RootOf(roots, c.root).value, root);
    AllowedExpires(roots, t, cutoff, canonical, c);
    NewestIsMaximal(RootArtifacts(root, t, canonical));
  }

  /** One more request for a file of a known root. */
  lemma DeleteOne(roots: seq<Root>, t: Tree, requested: seq<Candidate>, k: nat)
    requires 0 < k <= |requested| && RootOf(roots, requested[k - 1].root).Some?
    ensures var d, c := DeleteUpTo(roots, t, requested, k - 1).t, requested[k - 1];
            var path := RootOf(roots, c.root).value.path;
            DeleteUpTo(roots, t, requested, k).t == if Look(d, path, c.name).Some? then Erase(d, path, c.name) else d
  {
  }

  /** No request for an existing file of the root names its newest artifact. */
  ghost predicate Spares(roots: seq<Root>, t: Tree, canonical: string -> bool, requested: seq<Candidate>, root: Root) {
    forall i :: 0 <= i < |requested| ==> SparesOne(roots, t, canonical, requested[i], root)
  }

  ghost predicate SparesOne(roots: seq<Root>, t: Tree, canonical: string -> bool, c: Candidate, root: Root) {
    && RootOf(roots, c.root).Some?
    && var path := RootOf(roots, c.root).value.path;
       (path == root.path && Look(t, path, c.name).Some? ==>
          var newest := Newest(RootArtifacts(root, t, canonical)); newest.Some? && newest.value.name != c.name)
  }

  lemma AcceptableSpares(roots: seq<Root>, t: Tree, cutoff: int, canonical: string -> bool, requested: seq<Candidate>, root: Root)
    requires DistinctIds(roots) && DistinctPaths(roots) && Acceptable(roots, t, cutoff, canonical, requested)
    requires root in roots && root.backup
    ensures Spares(roots, t, canonical, requested, root)
  {
    forall i | 0 <= i < |requested| ensures SparesOne(roots, t, canonical, requested[i], root) {
      var c := requested[i];
      assert Allowed(roots, t, cutoff, canonical, c);
      if RootOf(roots, c.root).value.path == root.path && Look(t, root.path, c.name).Some? {
        RequestSparesNewest(roots, t, cutoff, canonical, c, root);
      }
    }
  }

  lemma SpareStep(t: Tree, d: Tree, root: Root, path: string, name: string, canonical: string -> bool)
    requires Newest(RootArtifacts(root, d, canonical)) == Newest(RootArtifacts(root, t, canonical))
    requires Look(d, path, name).Some? && path == root.path ==>
               var newest := Newest(RootArtifacts(root, t, canonical)); newest.Some? && newest.value.name != name
    ensures var d' := if Look(d, path, name).Some? then Erase(d, path, name) else d;
            Newest(RootArtifacts(root, d', canonical)) == Newest(RootArtifacts(root, t, canonical))
  {
    if Look(d, path, name).Some? { EraseKeepsNewest(d, root, path, name, canonical); }
  }

  /** Deleting any part of a request that spares the newest artifact keeps it the newest. */
  lemma {:induction false} SparedIsKept(roots: seq<Root>, t: Tree, canonical: string -> bool, requested: seq<Candidate>, k: nat, root: Root)
    requires Spares(roots, t, canonical, requested, root) && k <= |requested|
    ensures Newest(RootArtifacts(root, DeleteUpTo(roots, t, requested, k).t, canonical)) == Newest(RootArtifacts(root, t, canonical))
    decreases k
  {
    if k > 0 {
      SparedIsKept(roots, t, canonical, requested, k - 1, root);
      var c := requested[k - 1];
      assert SparesOne(roots, t, canonical, c, root);
      var path := RootOf(roots, c.root).value.path;
      DeleteUpToExact(roots, t, requested, k - 1, path, c.name);
      SpareStep(t, DeleteUpTo(roots, t, requested, k - 1).t, root, path, c.name, canonical);
      DeleteOne(roots, t, requested, k);
    }
  }

  /** Deleting any part of an acceptable request keeps the newest artifact of every backup root. */
  lemma NewestKept(roots: seq<Root>, t: Tree, cutoff: int, canonical: string -> bool, requested: seq<Candidate>, k: nat, root: Root)
    requires DistinctIds(roots) && DistinctPaths(roots) && Acceptable(roots, t, cutoff, canonical, requested) && k <= |requested|
    requires root in roots && root.backup
    ensures Newest(RootArtifacts(root, DeleteUpTo(roots, t, requested, k).t, canonical)) == Newest(RootArtifacts(root, t, canonical))
  {
    AcceptableSpares(roots, t, cutoff, canonical, requested, root);
    SparedIsKept(roots, t, canonical, requested, k, root);
  }

  /** One cleanup call, and how many of its removals took place. */
  datatype Call = Call(cutoff: int, requested: seq<Candidate>, unreadable: set<string>, done: nat)

  ghost function AfterCall(roots: seq<Root>, t: Tree, call: Call, canonical: string -> bool): Tree {
    if Analysable(roots, t, call.cutoff, canonical, call.unreadable) && Acceptable(roots, t, call.cutoff, canonical, call.requested)
       && call.done <= |call.requested|
    then DeleteUpTo(roots, t, call.requested, call.done).t
    else t
  }

  /** A cleanup call, or anything that other programs do to the directories, such as adding a backup. */
  datatype Change = Cleanup(call: Call) | OthersWrite

  ghost predicate Leads(roots: seq<Root>, t: Tree, change: Change, t': Tree, canonical: string -> bool) {
    change.Cleanup? ==> t' == AfterCall(roots, t, change.call, canonical)
  }

  /** The states of the directories before and after every change. */
  ghost predicate History(roots: seq<Root>, states: seq<Tree>, changes: seq<Change>, canonical: string -> bool) {
    |states| == |changes| + 1 && forall j :: 0 <= j < |changes| ==> Leads(roots, states[j], changes[j], states[j + 1], canonical)
  }

  lemma CallKeepsNewest(roots: seq<Root>, t: Tree, call: Call, canonical: string -> bool, root: Root)
    requires DistinctIds(roots) && root in roots && root.backup
    ensures Newest(RootArtifacts(root, AfterCall(roots, t, call, canonical), canonical)) == Newest(RootArtifacts(root, t, canonical))
  {
    if Analysable(roots, t, call.cutoff, canonical, call.unreadable) && Acceptable(roots, t, call.cutoff, canonical, call.requested)
       && call.done <= |call.requested|
    {
      NewestKept(roots, t, call.cutoff, canonical, call.requested, call.done, root);
    }
  }

  /**
    In any history of calls, interrupted ones included, and other writes, no call takes the artifact that is
    the newest of its backup root when the call starts: over every stretch of calls it stays the newest.
   */
  lemma {:induction false} NewestKeptForever(roots: seq<Root>, states: seq<Tree>, changes: seq<Change>, i: nat, k: nat, canonical: string -> bool, root: Root)
    requires DistinctIds(roots) && root in roots && root.backup && History(roots, states, changes, canonical)
    requires i <= k <= |changes| && forall j :: i <= j < k ==> changes[j].Cleanup?
    ensures Newest(RootArtifacts(root, states[k], canonical)) == Newest(RootArtifacts(root, states[i], canonical))
    decreases k
  {
    if i < k {
      NewestKeptForever(roots, states, changes, i, k - 1, canonical, root);
      assert Leads(roots, states[k - 1], changes[k - 1], states[k - 1 + 1], canonical);
      CallKeepsNewest(roots, states[k - 1], changes[k - 1].call, canonical, root);
    }
  }

  // ---------------------------------------------------------------- analysis, cleanup, verification

  lemma {:induction false} ArtifactsDistinct(es: seq<Entry>, canonical: string -> bool)
    requires DistinctNames(es)
    ensures DistinctNames(Artifacts(es, canonical))
    decreases |es|
  {
    if es != [] {
      var n := |es| - 1;
      var a := Artifacts(es[..n], canonical);
      ArtifactsDistinct(es[..n], canonical);
      forall i | 0 <= i < |a| ensures a[i].name != es[n].name { ArtifactsMembers(es[..n], canonical, a[i]); }
    }
  }

  /** No two found artifacts have the same root and name. */
  ghost predicate DistinctFound(found: seq<Found>) {
    forall i, k :: 0 <= i < k < |found| ==> found[i].root.id != found[k].root.id || found[i].entry.name != found[k].entry.name
  }

  lemma {:induction false} ExpiredDistinct(root: Root, es: seq<Entry>, k: nat, cutoff: int, kept: Option<Entry>)
    requires DistinctNames(es) && k <= |es|
    ensures DistinctFound(ExpiredUpTo(root, es, k, cutoff, kept))
  {
    if k > 0 {
      ExpiredDistinct(root, es, k - 1, cutoff, kept);
      var before := ExpiredUpTo(root, es, k - 1, cutoff, kept);
      forall i | 0 <= i < |before| ensures before[i].entry.name != es[k - 1].name {
        ExpiredMembers(root, es, k - 1, cutoff, kept, before[i]);
      }
    }
  }

  lemma ListedInDistinct(root: Root, t: Tree, cutoff: int, canonical: string -> bool)
    requires WellFormed(t)
    ensures DistinctFound(ListedIn(root, t, cutoff, canonical))
  {
    var artifacts := RootArtifacts(root, t, canonical);
    if root.path in t { ArtifactsDistinct(t[root.path].entries, canonical); }
    ExpiredDistinct(root, artifacts, |artifacts|, cutoff, Kept(root, artifacts));
  }

  lemma {:induction false} ListedDistinct(roots: seq<Root>, k: nat, t: Tree, cutoff: int, canonical: string -> bool)
    requires DistinctIds(roots) && WellFormed(t) && k <= |roots|
    ensures DistinctFound(ListedUpTo(roots, k, t, cutoff, canonical))
  {
    if k > 0 {
      var root, before := roots[k - 1], ListedUpTo(roots, k - 1, t, cutoff, canonical);
      var added := ListedIn(root, t, cutoff, canonical);
      ListedDistinct(roots, k - 1, t, cutoff, canonical);
      ListedInDistinct(root, t, cutoff, canonical);
      forall i | 0 <= i < |before| ensures before[i].root.id != root.id {
        ListedUpToExact(roots, k - 1, t, cutoff, canonical, before[i]);
      }
      forall i | 0 <= i < |added| ensures added[i].root.id == root.id {
        ListedInExact(root, t, cutoff, canonical, added[i]);
      }
    }
  }

  /** Everything that analysis lists exists under its name. */
  lemma ListedSeen(roots: seq<Root>, t: Tree, cutoff: int, canonical: string -> bool, i: nat)
    requires DistinctIds(roots) && WellFormed(t) && i < |Listed(roots, t, cutoff, canonical)|
    ensures var f := Listed(roots, t, cutoff, canonical)[i];
            && RootOf(roots, f.root.id) == Some(f.root) && canonical(f.entry.name)
            && Look(t, f.root.path, f.entry.name) == Some(f.entry)
  {
    var f := Listed(roots, t, cutoff, canonical)[i];
    ListedExact(roots, t, cutoff, canonical, f);
    RootOfExact(roots, f.root);
    FindMember(t[f.root.path].entries, f.entry);
  }

  lemma ListingAcceptable(roots: seq<Root>, t: Tree, cutoff: int, canonical: string -> bool)
    requires DistinctIds(roots) && WellFormed(t)
    ensures Acceptable(roots, t, cutoff, canonical, Names(Listed(roots, t, cutoff, canonical)))
  {
    ListedDistinct(roots, |roots|, t, cutoff, canonical);
    var found := Listed(roots, t, cutoff, canonical);
    forall i | 0 <= i < |found| ensures Allowed(roots, t, cutoff, canonical, Names(found)[i]) {
      ListedSeen(roots, t, cutoff, canonical, i);
    }
  }

  /** The listed file number k is not named by any earlier one. */
  lemma NotYetRequested(roots: seq<Root>, t: Tree, cutoff: int, canonical: string -> bool, k: nat)
    requires DistinctIds(roots) && DistinctPaths(roots) && WellFormed(t) && k < |Listed(roots, t, cutoff, canonical)|
    ensures var found := Listed(roots, t, cutoff, canonical);
            !Requested(roots, Names(found), k, found[k].root.path, found[k].entry.name)
  {
    var found := Listed(roots, t, cutoff, canonical);
    ListedDistinct(roots, |roots|, t, cutoff, canonical);
    ListedSeen(roots, t, cutoff, canonical, k);
    forall i | 0 <= i < k ensures !NamesFile(roots, Names(found)[i], found[k].root.path, found[k].entry.name) {
      ListedSeen(roots, t, cutoff, canonical, i);
      if found[i].root.path == found[k].root.path { SamePathSameRoot(roots, found[i].root, found[k].root); }
    }
  }

  /** One more request for a file that is there. */
  lemma DeleteSeen(roots: seq<Root>, t: Tree, requested: seq<Candidate>, k: nat, e: Entry)
    requires 0 < k <= |requested| && Seen(roots, DeleteUpTo(roots, t, requested, k - 1).t, requested[k - 1]) == Some(e)
    ensures var before, after := DeleteUpTo(roots, t, requested, k - 1), DeleteUpTo(roots, t, requested, k);
            after.count == before.count + 1 && after.bytes == before.bytes + e.size
  {
  }

  /** Found file number i is still there when its turn comes. */
  ghost predicate Present(roots: seq<Root>, t: Tree, found: seq<Found>, i: nat)
    requires i < |found|
  {
    Seen(roots, DeleteUpTo(roots, t, Names(found), i).t, Names(found)[i]) == Some(found[i].entry)
  }

  /** The listed file number k is still there when its turn comes. */
  lemma ListedStays(roots: seq<Root>, t: Tree, cutoff: int, canonical: string -> bool, k: nat)
    requires DistinctIds(roots) && DistinctPaths(roots) && WellFormed(t) && k < |Listed(roots, t, cutoff, canonical)|
    ensures Present(roots, t, Listed(roots, t, cutoff, canonical), k)
  {
    var found := Listed(roots, t, cutoff, canonical);
    ListedSeen(roots, t, cutoff, canonical, k);
    NotYetRequested(roots, t, cutoff, canonical, k);
    DeleteUpToExact(roots, t, Names(found), k, found[k].root.path, found[k].entry.name);
  }

  /** Files that are all there are deleted one by one, with their sizes. */
  lemma {:induction false} DeletePresent(roots: seq<Root>, t: Tree, found: seq<Found>, k: nat)
    requires k <= |found| && forall i :: 0 <= i < |found| ==> Present(roots, t, found, i)
    ensures var d := DeleteUpTo(roots, t, Names(found), k); d.count == k && d.bytes == BytesUpTo(found, k)
    decreases k
  {
    if k > 0 {
      DeletePresent(roots, t, found, k - 1);
      assert Present(roots, t, found, k - 1);
      DeleteSeen(roots, t, Names(found), k, found[k - 1].entry);
    }
  }

  lemma {:induction false} NothingRemains(roots: seq<Root>, t: Tree, requested: seq<Candidate>, k: nat)
    requires k <= |requested|
    ensures RemainingUpTo(roots, DeleteAll(roots, t, requested).t, requested, k) == 0
    decreases k
  {
    if k > 0 {
      NothingRemains(roots, t, requested, k - 1);
      var c := requested[k - 1];
      var root := RootOf(roots, c.root);
      if root.Some? {
        DeleteExact(roots, t, requested, root.value.path, c.name);
        assert NamesFile(roots, requested[k - 1], root.value.path, c.name);
      }
    }
  }

  /**
    Analysis, cleanup of everything listed, and verification on an otherwise unchanged tree: the request is
    acceptable, exactly the listed files go, exactly the estimate is reclaimed, and nothing remains.
   */
  lemma AnalyzeCleanupVerify(roots: seq<Root>, t: Tree, cutoff: int, canonical: string -> bool)
    requires DistinctIds(roots) && DistinctPaths(roots) && WellFormed(t)
    ensures var found := Listed(roots, t, cutoff, canonical);
            var d := DeleteAll(roots, t, Names(found));
            && Acceptable(roots, t, cutoff, canonical, Names(found))
            && d.count == |found| && d.bytes == Bytes(found)
            && Remaining(roots, d.t, Names(found)) == 0
  {
    var found := Listed(roots, t, cutoff, canonical);
    ListingAcceptable(roots, t, cutoff, canonical);
    forall i | 0 <= i < |found| ensures Present(roots, t, found, i) { ListedStays(roots, t, cutoff, canonical, i); }
    DeletePresent(roots, t, found, |found|);
    NothingRemains(roots, t, Names(found), |found|);
  }

  // ---------------------------------------------------------------- with the artifact names of the Agent

  /** Whatever an acceptable request deletes is an expired artifact directly inside one of the roots. */
  lemma DeletesOnlyArtifacts(roots: seq<Root>, t: Tree, cutoff: int, requested: seq<Candidate>, path: string, name: string)
    requires DistinctIds(roots) && WellFormed(t) && Acceptable(roots, t, cutoff, ArtifactName, requested)
    ensures var e := Look(t, path, name);
            e.Some? && Look(DeleteAll(roots, t, requested).t, path, name) != e ==>
              && (exists i :: 0 <= i < |roots| && roots[i].path == path)
              && ArtifactName(name) && '/' !in name && e.value.modified < cutoff
  {
    DeletesOnlyExpired(roots, t, cutoff, ArtifactName, requested, path, name);
    DeleteExact(roots, t, requested, path, name);
    if Look(t, path, name).Some? && Requested(roots, requested, |requested|, path, name) {
      ArtifactNameStaysInRoot(name);
      var i :| 0 <= i < |requested| && NamesFile(roots, requested[i], path, name);
      assert RootOf(roots, requested[i].root).value in roots;
    }
  }

  /** A full cleanup reclaims the estimate, leaves nothing to verify, and every file with another name where it was. */
  lemma FullCleanup(roots: seq<Root>, t: Tree, cutoff: int)
    requires DistinctIds(roots) && DistinctPaths(roots) && WellFormed(t)
    ensures var found := Listed(roots, t, cutoff, ArtifactName);
            var d := DeleteAll(roots, t, Names(found));
            && Acceptable(roots, t, cutoff, ArtifactName, Names(found))
            && d.count == |found| && d.bytes == Bytes(found) && Remaining(roots, d.t, Names(found)) == 0
            && forall path, name :: !ArtifactName(name) ==> Look(d.t, path, name) == Look(t, path, name)
  {
    AnalyzeCleanupVerify(roots, t, cutoff, ArtifactName);
    var requested := Names(Listed(roots, t, cutoff, ArtifactName));
    forall path, name | !ArtifactName(name)
      ensures Look(DeleteAll(roots, t, requested).t, path, name) == Look(t, path, name)
    {
      DeleteExact(roots, t, requested, path, name);
      DeletesOnlyExpired(roots, t, cutoff, ArtifactName, requested, path, name);
    }
  }
}
