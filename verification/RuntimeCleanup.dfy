/**
  The Agent's runtime-artifact cleaner: it lists expired artifacts, deletes requested ones only if every
  request is still acceptable, and never takes the newest backup of a root.
 */
module RuntimeCleanup {
  import opened Common
  import opened ServerIds

  const MAX_CANDIDATES := 256

  /** A directory entry as lstat shows it; `safe` means a regular file of the Agent that others cannot write. */
  datatype Entry = Entry(name: string, modified: int, size: nat, safe: bool)

  /** A root directory; its entries have distinct names. */
  datatype Dir = Dir(safe: bool, entries: seq<Entry>)

  /** Directories by clean path. */
  type Tree = map<string, Dir>

  datatype Root = Root(id: string, path: string, backup: bool)

  datatype Candidate = Candidate(root: string, name: string)

  predicate HexRun(s: string, from: nat, to: nat)
    requires from <= to <= |s|
  {
    forall i :: from <= i < to ==> HexChar(s[i])
  }

  predicate ArtifactUuid(s: string) {
    && |s| == 36 && s[8] == s[13] == s[18] == s[23] == '-'
    && HexRun(s, 0, 8) && HexRun(s, 9, 13) && HexRun(s, 14, 18) && HexRun(s, 19, 23) && HexRun(s, 24, 36)
    && '1' <= s[14] <= '5' && s[19] in "89aAbB"
  }

  /** A UUID, optionally marked as a previous version, with one of the three known suffixes. */
  predicate ArtifactName(s: string) {
    |s| > 36 && ArtifactUuid(s[..36]) &&
    s[36..] in {".json", ".conf", ".toml", ".previous.json", ".previous.conf", ".previous.toml"}
  }

  /** A canonical name has no path separator, so it never leads out of its root. */
  lemma ArtifactNameStaysInRoot(s: string)
    requires ArtifactName(s)
    ensures '/' !in s && s != ""
  {
    assert s == s[..36] + s[36..];
    forall i | 0 <= i < 36 ensures s[i] != '/' {
      assert s[..36][i] == s[i];
    }
  }

  // ---------------------------------------------------------------- directories

  ghost predicate DistinctNames(es: seq<Entry>) {
    forall i, k :: 0 <= i < k < |es| ==> es[i].name != es[k].name
  }

  ghost predicate WellFormed(t: Tree) { forall p :: p in t ==> DistinctNames(t[p].entries) }

  function Find(es: seq<Entry>, name: string): Option<Entry>
    decreases |es|
  {
    if es == [] then None
    else if es[|es| - 1].name == name then Some(es[|es| - 1])
    else Find(es[..|es| - 1], name)
  }

  function Without(es: seq<Entry>, name: string): seq<Entry>
    decreases |es|
  {
    if es == [] then []
    else Without(es[..|es| - 1], name) + (if es[|es| - 1].name == name then [] else [es[|es| - 1]])
  }

  function Look(t: Tree, path: string, name: string): Option<Entry> {
    if path in t then Find(t[path].entries, name) else None
  }

  function Erase(t: Tree, path: string, name: string): Tree {
    if path in t then t[path := t[path].(entries := Without(t[path].entries, name))] else t
  }

  lemma {:induction false} FindWithout(es: seq<Entry>, name: string, other: string)
    ensures Find(Without(es, name), other) == if other == name then None else Find(es, other)
    decreases |es|
  {
    if es != [] {
      var n := |es| - 1;
      FindWithout(es[..n], name, other);
      var w := Without(es[..n], name);
      assert (w + [es[n]])[..|w|] == w;
      assert w + [] == w;
    }
  }

  /** Erasing one file changes what is seen of that file and of nothing else. */
  lemma LookErase(t: Tree, path: string, name: string, path': string, name': string)
    ensures Look(Erase(t, path, name), path', name') == if path' == path && name' == name then None else Look(t, path', name')
  {
    if path in t { FindWithout(t[path].entries, name, name'); }
  }

  lemma {:induction false} WithoutMembers(es: seq<Entry>, name: string, e: Entry)
    ensures e in Without(es, name) <==> e in es && e.name != name
    decreases |es|
  {
    if es != [] {
      var n := |es| - 1;
      WithoutMembers(es[..n], name, e);
      assert es == es[..n] + [es[n]];
    }
  }

  lemma {:induction false} FindMember(es: seq<Entry>, e: Entry)
    requires DistinctNames(es)
    ensures e in es <==> Find(es, e.name) == Some(e)
    decreases |es|
  {
    if es != [] {
      var n := |es| - 1;
      FindMember(es[..n], e);
      assert es == es[..n] + [es[n]];
    }
  }

  // ---------------------------------------------------------------- analysis

  /** The entries whose names are canonical. */
  function Artifacts(es: seq<Entry>, canonical: string -> bool): seq<Entry>
    decreases |es|
  {
    if es == [] then []
    else Artifacts(es[..|es| - 1], canonical) + (if canonical(es[|es| - 1].name) then [es[|es| - 1]] else [])
  }

  /** The first of the entries modified last. */
  function Newest(es: seq<Entry>): Option<Entry>
    decreases |es|
  {
    if es == [] then None
    else
      var n := |es| - 1;
      var p := Newest(es[..n]);
      if p.None? || es[n].modified > p.value.modified then Some(es[n]) else p
  }

  /** The artifact that a backup root must keep. */
  function Kept(root: Root, artifacts: seq<Entry>): Option<Entry> { if root.backup then Newest(artifacts) else None }

  predicate Expires(e: Entry, cutoff: int, kept: Option<Entry>) {
    e.modified < cutoff && !(kept.Some? && e.name == kept.value.name)
  }

  /** An artifact in its root. */
  datatype Found = Found(root: Root, entry: Entry)

  /** The expired ones among the first k artifacts of a root. */
  function ExpiredUpTo(root: Root, es: seq<Entry>, k: nat, cutoff: int, kept: Option<Entry>): seq<Found>
    requires k <= |es|
  {
    if k == 0 then []
    else ExpiredUpTo(root, es, k - 1, cutoff, kept) + (if Expires(es[k - 1], cutoff, kept) then [Found(root, es[k - 1])] else [])
  }

  function RootArtifacts(root: Root, t: Tree, canonical: string -> bool): seq<Entry> {
    if root.path in t then Artifacts(t[root.path].entries, canonical) else []
  }

  function ListedIn(root: Root, t: Tree, cutoff: int, canonical: string -> bool): seq<Found> {
    var artifacts := RootArtifacts(root, t, canonical);
    ExpiredUpTo(root, artifacts, |artifacts|, cutoff, Kept(root, artifacts))
  }

  /** What the first k roots list. */
  function ListedUpTo(roots: seq<Root>, k: nat, t: Tree, cutoff: int, canonical: string -> bool): seq<Found>
    requires k <= |roots|
  {
    if k == 0 then [] else ListedUpTo(roots, k - 1, t, cutoff, canonical) + ListedIn(roots[k - 1], t, cutoff, canonical)
  }

  function Listed(roots: seq<Root>, t: Tree, cutoff: int, canonical: string -> bool): seq<Found> {
    ListedUpTo(roots, |roots|, t, cutoff, canonical)
  }

  function BytesUpTo(found: seq<Found>, k: nat): nat
    requires k <= |found|
  {
    if k == 0 then 0 else BytesUpTo(found, k - 1) + found[k - 1].entry.size
  }

  /** The estimate. */
  function Bytes(found: seq<Found>): nat { BytesUpTo(found, |found|) }

  lemma {:induction false} BytesFrame(a: seq<Found>, b: seq<Found>, k: nat)
    requires k <= |a| && k <= |b| && forall i :: 0 <= i < k ==> a[i] == b[i]
    ensures BytesUpTo(a, k) == BytesUpTo(b, k)
  {
    if k > 0 { BytesFrame(a, b, k - 1); }
  }

  function Names(found: seq<Found>): seq<Candidate> {
    seq(|found|, i requires 0 <= i < |found| => Candidate(found[i].root.id, found[i].entry.name))
  }

  /** The root directory, if present, and every artifact in it can be trusted. */
  ghost predicate SafeRoot(root: Root, t: Tree, canonical: string -> bool) {
    root.path in t ==>
      t[root.path].safe && forall i :: 0 <= i < |t[root.path].entries| && canonical(t[root.path].entries[i].name) ==> t[root.path].entries[i].safe
  }

  ghost predicate DistinctPaths(roots: seq<Root>) {
    forall i, k :: 0 <= i < k < |roots| ==> roots[i].path != roots[k].path
  }

  ghost predicate DistinctIds(roots: seq<Root>) {
    forall i, k :: 0 <= i < k < |roots| ==> roots[i].id != roots[k].id
  }

  lemma {:induction false} ArtifactsMembers(es: seq<Entry>, canonical: string -> bool, e: Entry)
    ensures e in Artifacts(es, canonical) <==> e in es && canonical(e.name)
    decreases |es|
  {
    if es != [] {
      var n := |es| - 1;
      ArtifactsMembers(es[..n], canonical, e);
      assert es == es[..n] + [es[n]];
    }
  }

  lemma {:induction false} ExpiredMembers(root: Root, es: seq<Entry>, k: nat, cutoff: int, kept: Option<Entry>, f: Found)
    requires k <= |es|
    ensures f in ExpiredUpTo(root, es, k, cutoff, kept) <==>
            f.root == root && Expires(f.entry, cutoff, kept) && exists i :: 0 <= i < k && es[i] == f.entry
  {
    if k > 0 { ExpiredMembers(root, es, k - 1, cutoff, kept, f); }
  }

  /** The newest artifact is one of the artifacts, and none was modified later. */
  lemma {:induction false} NewestIsMaximal(es: seq<Entry>)
    ensures Newest(es).None? <==> es == []
    ensures Newest(es).Some? ==> Newest(es).value in es && forall e :: e in es ==> e.modified <= Newest(es).value.modified
    decreases |es|
  {
    if es != [] {
      var n := |es| - 1;
      NewestIsMaximal(es[..n]);
      assert es == es[..n] + [es[n]];
    }
  }

  lemma NewestOne(init: seq<Entry>, x: Entry)
    ensures Newest(init + [x]) == (if Newest(init).None? || x.modified > Newest(init).value.modified then Some(x) else Newest(init))
  {
    assert (init + [x])[..|init|] == init;
  }

  lemma WithoutOne(init: seq<Entry>, x: Entry, name: string)
    ensures Without(init + [x], name) == if x.name == name then Without(init, name) else Without(init, name) + [x]
  {
    assert (init + [x])[..|init|] == init;
  }

  lemma {:induction false} NewestSurvives(es: seq<Entry>, name: string)
    requires Newest(es).Some? && Newest(es).value.name != name
    ensures Newest(Without(es, name)) == Newest(es)
    decreases |es|
  {
    var init, x := es[..|es| - 1], es[|es| - 1];
    var w := Without(init, name);
    assert es == init + [x];
    NewestOne(init, x);
    WithoutOne(init, x, name);
    NewestOne(w, x);
    NewestIsMaximal(init);
    NewestIsMaximal(w);
    if Newest(init).Some? && x.modified <= Newest(init).value.modified {
      NewestSurvives(init, name);
    } else if Newest(w).Some? {
      WithoutMembers(init, name, Newest(w).value);
    }
  }

  lemma ArtifactsOne(init: seq<Entry>, x: Entry, canonical: string -> bool)
    ensures Artifacts(init + [x], canonical) == if canonical(x.name) then Artifacts(init, canonical) + [x] else Artifacts(init, canonical)
  {
    assert (init + [x])[..|init|] == init;
  }

  lemma {:induction false} ArtifactsWithout(es: seq<Entry>, name: string, canonical: string -> bool)
    ensures Artifacts(Without(es, name), canonical) == Without(Artifacts(es, canonical), name)
    decreases |es|
  {
    if es != [] {
      var init, x := es[..|es| - 1], es[|es| - 1];
      assert es == init + [x];
      ArtifactsWithout(init, name, canonical);
      WithoutOne(init, x, name);
      ArtifactsOne(init, x, canonical);
      ArtifactsOne(Without(init, name), x, canonical);
      WithoutOne(Artifacts(init, canonical), x, name);
    }
  }

  /** The artifact is in its root and is not wanted any more. */
  predicate Removable(t: Tree, cutoff: int, canonical: string -> bool, f: Found) {
    && f.root.path in t && f.entry in t[f.root.path].entries && canonical(f.entry.name)
    && Expires(f.entry, cutoff, Kept(f.root, RootArtifacts(f.root, t, canonical)))
  }

  lemma ListedInExact(root: Root, t: Tree, cutoff: int, canonical: string -> bool, f: Found)
    ensures f in ListedIn(root, t, cutoff, canonical) <==> f.root == root && Removable(t, cutoff, canonical, f)
  {
    var artifacts := RootArtifacts(root, t, canonical);
    ExpiredMembers(root, artifacts, |artifacts|, cutoff, Kept(root, artifacts), f);
    if root.path in t { ArtifactsMembers(t[root.path].entries, canonical, f.entry); }
  }

  lemma {:induction false} ListedUpToExact(roots: seq<Root>, k: nat, t: Tree, cutoff: int, canonical: string -> bool, f: Found)
    requires k <= |roots|
    ensures f in ListedUpTo(roots, k, t, cutoff, canonical) <==>
            (exists i :: 0 <= i < k && roots[i] == f.root) && Removable(t, cutoff, canonical, f)
  {
    if k > 0 {
      ListedUpToExact(roots, k - 1, t, cutoff, canonical, f);
      ListedInExact(roots[k - 1], t, cutoff, canonical, f);
    }
  }

  /** Entry i is the artifact modified last, and the first of those modified at the same time. */
  ghost predicate FirstLatest(es: seq<Entry>, i: int, canonical: string -> bool) {
    && 0 <= i < |es| && canonical(es[i].name)
    && (forall k :: 0 <= k < i ==> Older(es[k], es[i].modified, canonical))
    && (forall k :: i < k < |es| ==> Older(es[k], es[i].modified + 1, canonical))
  }

  /** The entry is no artifact, or was modified before the instant. */
  predicate Older(e: Entry, instant: int, canonical: string -> bool) { canonical(e.name) ==> e.modified < instant }

  lemma StaysFirstLatest(init: seq<Entry>, x: Entry, i: int, canonical: string -> bool)
    requires FirstLatest(init, i, canonical) && Older(x, init[i].modified + 1, canonical)
    ensures FirstLatest(init + [x], i, canonical)
  {
  }

  lemma BecomesFirstLatest(init: seq<Entry>, x: Entry, canonical: string -> bool)
    requires canonical(x.name) && forall k :: 0 <= k < |init| ==> Older(init[k], x.modified, canonical)
    ensures FirstLatest(init + [x], |init|, canonical)
  {
  }

  lemma OlderThanNewer(init: seq<Entry>, i: int, instant: int, canonical: string -> bool)
    requires FirstLatest(init, i, canonical) && init[i].modified < instant
    ensures forall k :: 0 <= k < |init| ==> Older(init[k], instant, canonical)
  {
    forall k | 0 <= k < |init| ensures Older(init[k], instant, canonical) {
      if k < i { assert Older(init[k], init[i].modified, canonical); }
      else if k > i { assert Older(init[k], init[i].modified + 1, canonical); }
    }
  }

  /** The newest artifact of a directory is its first latest one. */
  lemma {:induction false} NewestIsFirstLatest(es: seq<Entry>, canonical: string -> bool) returns (i: int)
    ensures Newest(Artifacts(es, canonical)).None? ==> forall k :: 0 <= k < |es| ==> !canonical(es[k].name)
    ensures Newest(Artifacts(es, canonical)).Some? ==> FirstLatest(es, i, canonical) && es[i] == Newest(Artifacts(es, canonical)).value
    decreases |es|
  {
    i := 0;
    if es != [] {
      var init, x := es[..|es| - 1], es[|es| - 1];
      assert es == init + [x];
      i := NewestIsFirstLatest(init, canonical);
      ArtifactsOne(init, x, canonical);
      NewestOne(Artifacts(init, canonical), x);
      var newest := Newest(Artifacts(init, canonical));
      if canonical(x.name) && (newest.None? || x.modified > newest.value.modified) {
        if newest.Some? { OlderThanNewer(init, i, x.modified, canonical); }
        BecomesFirstLatest(init, x, canonical);
        i := |init|;
      } else if newest.Some? {
        StaysFirstLatest(init, x, i, canonical);
      }
    }
  }

  lemma FirstLatestUnique(es: seq<Entry>, i: int, k: int, canonical: string -> bool)
    requires FirstLatest(es, i, canonical) && FirstLatest(es, k, canonical)
    ensures i == k
  {
  }

  /** An entry has the name of the newest artifact exactly if it is the first latest one. */
  lemma NamedLikeNewest(es: seq<Entry>, i: int, canonical: string -> bool)
    requires DistinctNames(es) && 0 <= i < |es| && canonical(es[i].name)
    ensures var newest := Newest(Artifacts(es, canonical));
            newest.Some? && (es[i].name == newest.value.name <==> FirstLatest(es, i, canonical))
  {
    var k := NewestIsFirstLatest(es, canonical);
    if FirstLatest(es, i, canonical) { FirstLatestUnique(es, i, k, canonical); }
  }

  /** Entry i of the root is an artifact from before the cutoff, and not the first latest one of a backup root. */
  ghost predicate Disposable(root: Root, es: seq<Entry>, i: int, cutoff: int, canonical: string -> bool) {
    0 <= i < |es| && canonical(es[i].name) && es[i].modified < cutoff && !(root.backup && FirstLatest(es, i, canonical))
  }

  lemma RemovableIsDisposable(t: Tree, cutoff: int, canonical: string -> bool, root: Root, i: int)
    requires WellFormed(t) && root.path in t && 0 <= i < |t[root.path].entries|
    ensures Removable(t, cutoff, canonical, Found(root, t[root.path].entries[i])) <==> Disposable(root, t[root.path].entries, i, cutoff, canonical)
  {
    var es := t[root.path].entries;
    if canonical(es[i].name) { NamedLikeNewest(es, i, canonical); }
  }

  /** Exactly the artifacts of the roots from before the cutoff are listed, except the first latest one of a backup root. */
  lemma ListedIffDisposable(roots: seq<Root>, t: Tree, cutoff: int, canonical: string -> bool, f: Found)
    requires WellFormed(t)
    ensures f in Listed(roots, t, cutoff, canonical) <==>
            && f.root in roots && f.root.path in t
            && exists i :: Disposable(f.root, t[f.root.path].entries, i, cutoff, canonical) && t[f.root.path].entries[i] == f.entry
  {
    ListedExact(roots, t, cutoff, canonical, f);
    if f.root.path in t {
      var es := t[f.root.path].entries;
      forall i | 0 <= i < |es| && es[i] == f.entry
        ensures Removable(t, cutoff, canonical, f) <==> Disposable(f.root, es, i, cutoff, canonical)
      {
        RemovableIsDisposable(t, cutoff, canonical, f.root, i);
      }
    }
  }

  /** Exactly the removable artifacts of the roots are listed. */
  lemma ListedExact(roots: seq<Root>, t: Tree, cutoff: int, canonical: string -> bool, f: Found)
    ensures f in Listed(roots, t, cutoff, canonical) <==> f.root in roots && Removable(t, cutoff, canonical, f)
  {
    ListedUpToExact(roots, |roots|, t, cutoff, canonical, f);
  }
}
