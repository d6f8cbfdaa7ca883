/** Which folders below a filesystem root are taken as repositories. */
module RepositoryDiscovery {

  import opened GoStrings
  import opened StringSort

  type Path = seq<string>

  /** `git`: there is a .git folder, file or link in it; `readable`: its entries can be listed. */
  datatype Folder = Folder(git: bool, readable: bool, entries: seq<Entry>)

  datatype Entry = Sub(name: string, folder: Folder) | Leaf(name: string)

  datatype Outcome = Failed | Found(roots: seq<Path>, git: bool)

  predicate Hidden(name: string) {
    HasPrefix(name, ".")
  }

  /** A folder that the search goes into. */
  predicate Visible(entry: Entry) {
    entry.Sub? && !Hidden(entry.name)
  }

  /** It looks like the root of a repository: a visible file, or no folders at all. */
  predicate RootLike(entries: seq<Entry>) {
    || (exists i :: 0 <= i < |entries| && entries[i].Leaf? && !Hidden(entries[i].name))
    || (forall i :: 0 <= i < |entries| ==> entries[i].Leaf?)
  }

  method RepositoryRootLike(entries: seq<Entry>) returns (like: bool)
    ensures like == RootLike(entries)
  {
    var childDirectories := 0;
    for i := 0 to |entries|
      invariant childDirectories > 0 <==> exists j :: 0 <= j < i && entries[j].Sub?
      invariant childDirectories >= 0
      invariant forall j :: 0 <= j < i && entries[j].Leaf? ==> Hidden(entries[j].name)
    {
      if entries[i].Sub? {
        childDirectories := childDirectories + 1;
        continue;
      }
      if Hidden(entries[i].name) {
        continue;
      }
      return true;
    }
    return childDirectories == 0;
  }

  function Discovered(root: Path, folder: Folder): Outcome
    decreases folder, 1
  {
    if folder.git then Found([root], true)
    else if !folder.readable then Failed
    else
      var below := DiscoveredIn(root, folder.entries);
      if below.Failed? || below.git || !RootLike(folder.entries) then below else Found([root], false)
  }

  function DiscoveredIn(root: Path, entries: seq<Entry>): Outcome
    decreases entries, 0
  {
    if entries == [] then Found([], false)
    else
      var n := |entries| - 1;
      var before := DiscoveredIn(root, entries[..n]);
      if before.Failed? || !Visible(entries[n]) then before
      else
        var last := Discovered(root + [entries[n].name], entries[n].folder);
        if last.Failed? then last else Found(before.roots + last.roots, before.git || last.git)
  }

  /** The recursive search, with a loop over the entries of each folder. */
  method DiscoverRepoRoots(root: Path, folder: Folder) returns (outcome: Outcome)
    ensures outcome == Discovered(root, folder)
    decreases folder
  {
    if folder.git {
      return Found([root], true);
    }
    if !folder.readable {
      return Failed;
    }
    var entries := folder.entries;
    var roots, foundGitBackedChild := [], false;
    for i := 0 to |entries|
      invariant DiscoveredIn(root, entries[..i]) == Found(roots, foundGitBackedChild)
    {
      assert entries[..i + 1][..i] == entries[..i];
      if !entries[i].Sub? {
        continue;
      }
      if Hidden(entries[i].name) {
        continue;
      }
      var discovered := DiscoverRepoRoots(root + [entries[i].name], entries[i].folder);
      if discovered.Failed? {
        FailureStays(root, entries, i + 1);
        return Failed;
      }
      foundGitBackedChild := foundGitBackedChild || discovered.git;
      roots := roots + discovered.roots;
    }
    assert entries[..|entries|] == entries;
    if foundGitBackedChild {
      return Found(roots, true);
    }
    var like := RepositoryRootLike(entries);
    return if like then Found([root], false) else Found(roots, false);
  }

  lemma {:induction false} FailureStays(root: Path, entries: seq<Entry>, n: nat)
    requires n <= |entries| && DiscoveredIn(root, entries[..n]).Failed?
    ensures DiscoveredIn(root, entries).Failed?
    decreases |entries|
  {
    if n < |entries| {
      assert entries[..|entries| - 1][..n] == entries[..n];
      FailureStays(root, entries[..|entries| - 1], n);
    } else {
      assert entries[..n] == entries;
    }
  }

  // --------------------------------------------------- what the result should be

  /** Some folder here or below, not under a hidden one, is git-marked. */
  ghost predicate GitBelow(folder: Folder) {
    folder.git || exists i :: 0 <= i < |folder.entries| && Visible(folder.entries[i]) && GitBelow(folder.entries[i].folder)
  }

  /** Every folder the search has to list can be listed. */
  ghost predicate Listable(folder: Folder) {
    folder.git || (folder.readable &&
                   forall i :: 0 <= i < |folder.entries| && Visible(folder.entries[i]) ==> Listable(folder.entries[i].folder))
  }

  /** A repository by its marker, or by its looks when no marked one lies below. */
  ghost predicate Repository(folder: Folder) {
    folder.git || (!GitBelow(folder) && RootLike(folder.entries))
  }

  /** `q` leads to a repository that lies in no other one. */
  ghost predicate Topmost(folder: Folder, q: Path)
    decreases q
  {
    if q == [] then Repository(folder)
    else !Repository(folder) && exists i :: 0 <= i < |folder.entries| && Leads(folder.entries[i], q)
  }

  ghost predicate Leads(entry: Entry, q: Path)
    requires q != []
    decreases q, 0
  {
    Visible(entry) && entry.name == q[0] && Topmost(entry.folder, q[1..])
  }

  /** The names in a folder differ, here and below. */
  ghost predicate Proper(folder: Folder)
    decreases folder, 1
  {
    ProperIn(folder.entries)
  }

  ghost predicate ProperIn(entries: seq<Entry>)
    decreases entries, 0
  {
    && (forall i, j :: 0 <= i < j < |entries| ==> entries[i].name != entries[j].name)
    && (forall i :: 0 <= i < |entries| && entries[i].Sub? ==> Proper(entries[i].folder))
  }

  // ------------------------------------------------------------- and what it is

  ghost predicate ListableIn(entries: seq<Entry>) {
    forall i :: 0 <= i < |entries| && Visible(entries[i]) ==> Listable(entries[i].folder)
  }

  ghost predicate GitIn(entries: seq<Entry>) {
    exists i :: 0 <= i < |entries| && Visible(entries[i]) && GitBelow(entries[i].folder)
  }

  /** The search fails exactly when it meets a folder it cannot list. */
  lemma {:induction false} FailsIff(root: Path, folder: Folder)
    ensures Discovered(root, folder).Failed? <==> !Listable(folder)
    decreases folder, 1
  {
    if !folder.git && folder.readable {
      FailsInIff(root, folder.entries);
    }
  }

  lemma {:induction false} FailsInIff(root: Path, entries: seq<Entry>)
    ensures DiscoveredIn(root, entries).Failed? <==> !ListableIn(entries)
    decreases entries, 0
  {
    if entries != [] {
      var n := |entries| - 1;
      FailsInIff(root, entries[..n]);
      if Visible(entries[n]) {
        FailsIff(root + [entries[n].name], entries[n].folder);
      }
    }
  }

  /** The flag tells whether a marked folder was found. */
  lemma {:induction false} FlagIff(root: Path, folder: Folder)
    requires Discovered(root, folder).Found?
    ensures Discovered(root, folder).git <==> GitBelow(folder)
    decreases folder, 1
  {
    if !folder.git {
      FlagInIff(root, folder.entries);
    }
  }

  lemma {:induction false} FlagInIff(root: Path, entries: seq<Entry>)
    requires DiscoveredIn(root, entries).Found?
    ensures DiscoveredIn(root, entries).git <==> GitIn(entries)
    decreases entries, 0
  {
    if entries != [] {
      var n := |entries| - 1;
      FlagInIff(root, entries[..n]);
      if Visible(entries[n]) {
        FlagIff(root + [entries[n].name], entries[n].folder);
      }
    }
  }

  /** Exactly the topmost repositories are returned. */
  lemma {:induction false} RootsExactly(root: Path, folder: Folder, p: Path)
    requires Discovered(root, folder).Found?
    ensures p in Discovered(root, folder).roots <==> root <= p && Topmost(folder, p[|root|..])
    decreases folder, 1
  {
    FlagIff(root, folder);
    assert root <= p && p[|root|..] == [] ==> p == root;
    if !folder.git {
      FlagInIff(root, folder.entries);
      RootsInExactly(root, folder.entries, p);
    }
  }

  lemma {:induction false} RootsInExactly(root: Path, entries: seq<Entry>, p: Path)
    requires DiscoveredIn(root, entries).Found?
    ensures p in DiscoveredIn(root, entries).roots <==>
      root < p && exists i :: 0 <= i < |entries| && Leads(entries[i], p[|root|..])
    decreases entries, 0
  {
    if entries != [] {
      var n := |entries| - 1;
      RootsInExactly(root, entries[..n], p);
      if Visible(entries[n]) {
        var child := root + [entries[n].name];
        RootsExactly(child, entries[n].folder, p);
        assert child <= p <==> root < p && entries[n].name == p[|root|..][0];
        assert child <= p ==> p[|root|..][1..] == p[|child|..];
      }
    }
  }

  predicate Distinct(roots: seq<Path>) {
    forall i, j :: 0 <= i < j < |roots| ==> roots[i] != roots[j]
  }

  /** No root is returned twice. */
  lemma {:induction false} NoRootTwice(root: Path, folder: Folder)
    requires Discovered(root, folder).Found? && Proper(folder)
    ensures Distinct(Discovered(root, folder).roots)
    decreases folder, 1
  {
    if !folder.git {
      NoRootTwiceIn(root, folder.entries);
    }
  }

  lemma {:induction false} NoRootTwiceIn(root: Path, entries: seq<Entry>)
    requires DiscoveredIn(root, entries).Found? && ProperIn(entries)
    ensures Distinct(DiscoveredIn(root, entries).roots)
    decreases entries, 0
  {
    if entries != [] {
      var n := |entries| - 1;
      NoRootTwiceIn(root, entries[..n]);
      if Visible(entries[n]) {
        var child := root + [entries[n].name];
        NoRootTwice(child, entries[n].folder);
        var before, last := DiscoveredIn(root, entries[..n]).roots, Discovered(child, entries[n].folder).roots;
        forall p | p in before ensures p !in last {
          RootsInExactly(root, entries[..n], p);
          RootsExactly(child, entries[n].folder, p);
        }
        DistinctConcat(before, last);
      }
    }
  }

  lemma DistinctConcat(a: seq<Path>, b: seq<Path>)
    requires Distinct(a) && Distinct(b) && forall p :: p in a ==> p !in b
    ensures Distinct(a + b)
  {
    forall i, j | 0 <= i < j < |a + b| ensures (a + b)[i] != (a + b)[j] {
      if i < |a| <= j {
        assert a[i] in a && b[j - |a|] in b;
      }
    }
  }

  /** No returned root lies in another one. */
  lemma {:induction false} NoRepositoryInAnother(folder: Folder, p: Path, q: Path)
    requires Proper(folder) && p <= q && Topmost(folder, p) && Topmost(folder, q)
    ensures p == q
    decreases p
  {
    if p != [] {
      var i :| 0 <= i < |folder.entries| && Leads(folder.entries[i], p);
      var j :| 0 <= j < |folder.entries| && Leads(folder.entries[j], q);
      assert folder.entries[i].name == folder.entries[j].name;
      NoRepositoryInAnother(folder.entries[i].folder, p[1..], q[1..]);
      assert p == [p[0]] + p[1..] && q == [q[0]] + q[1..];
    }
  }

  /** `q` leads to a marked folder with no marked one above it. */
  ghost predicate MarkedAt(folder: Folder, q: Path)
    decreases q
  {
    if q == [] then folder.git
    else !folder.git && exists i :: 0 <= i < |folder.entries| && MarkedUnder(folder.entries[i], q)
  }

  ghost predicate MarkedUnder(entry: Entry, q: Path)
    requires q != []
    decreases q, 0
  {
    Visible(entry) && entry.name == q[0] && MarkedAt(entry.folder, q[1..])
  }

  /** Such a folder is a topmost repository, whatever the folders above it look like. */
  lemma {:induction false} MarkedIsTopmost(folder: Folder, q: Path)
    requires MarkedAt(folder, q)
    ensures GitBelow(folder) && Topmost(folder, q)
    decreases q
  {
    if q != [] {
      var i :| 0 <= i < |folder.entries| && MarkedUnder(folder.entries[i], q);
      MarkedIsTopmost(folder.entries[i].folder, q[1..]);
      assert Leads(folder.entries[i], q);
    }
  }

  lemma {:induction false} MarkedSomewhere(folder: Folder) returns (q: Path)
    requires GitBelow(folder)
    ensures MarkedAt(folder, q)
  {
    if folder.git {
      q := [];
    } else {
      var i :| 0 <= i < |folder.entries| && Visible(folder.entries[i]) && GitBelow(folder.entries[i].folder);
      q := MarkedSomewhere(folder.entries[i].folder);
      q := [folder.entries[i].name] + q;
      assert MarkedUnder(folder.entries[i], q);
    }
  }

  /**
    On every tree that can be listed: no root lies in another, every marked folder that is
    not under a hidden or a marked one is returned, and the flag tells whether some root is marked.
   */
  lemma DiscoveryIsRight(root: Path, folder: Folder)
    requires Discovered(root, folder).Found? && Proper(folder)
    ensures var found := Discovered(root, folder);
      && Distinct(found.roots)
      && (forall p, q :: p in found.roots && q in found.roots && p <= q ==> p == q)
      && (forall q :: MarkedAt(folder, q) ==> root + q in found.roots)
      && (found.git <==> exists q :: MarkedAt(folder, q) && root + q in found.roots)
  {
    var found := Discovered(root, folder);
    NoRootTwice(root, folder);
    forall p, q | p in found.roots && q in found.roots && p <= q ensures p == q {
      RootsExactly(root, folder, p);
      RootsExactly(root, folder, q);
      NoRepositoryInAnother(folder, p[|root|..], q[|root|..]);
      assert p == root + p[|root|..] && q == root + q[|root|..];
    }
    forall q | MarkedAt(folder, q) ensures root + q in found.roots {
      MarkedIsTopmost(folder, q);
      RootsExactly(root, folder, root + q);
      assert (root + q)[|root|..] == q;
    }
    FlagIff(root, folder);
    if found.git {
      var q := MarkedSomewhere(folder);
    }
    if q :| MarkedAt(folder, q) {
      MarkedIsTopmost(folder, q);
    }
  }

  function Relative(root: Path, p: Path): Path {
    if root <= p then p[|root|..] else p
  }

  /** The relative paths, not yet sorted; "." is the empty path. */
  method RelativeRoots(root: Path, roots: seq<Path>) returns (ids: seq<Path>)
    requires forall i :: 0 <= i < |roots| ==> root <= roots[i]
    requires root in roots ==> roots == [root]
    ensures |ids| == |roots| && forall i :: 0 <= i < |roots| ==> root + ids[i] == roots[i]
  {
    if |roots| == 1 && roots[0] == root {
      assert root + [] == root;
      return [[]];
    }
    ids := [];
    for i := 0 to |roots|
      invariant |ids| == i && forall j :: 0 <= j < i ==> root + ids[j] == roots[j]
    {
      if roots[i] == root {
        assert false;
        continue;
      }
      assert roots[i] == root + roots[i][|root|..];
      ids := ids + [Relative(root, roots[i])];
    }
  }

  lemma OnlyTopmost(root: Path, folder: Folder, ids: seq<Path>, q: Path)
    requires Discovered(root, folder).Found?
    requires var roots := Discovered(root, folder).roots;
      |ids| == |roots| && forall i :: 0 <= i < |roots| ==> root + ids[i] == roots[i]
    ensures q in ids <==> Topmost(folder, q)
  {
    var roots := Discovered(root, folder).roots;
    RootsExactly(root, folder, root + q);
    assert (root + q)[|root|..] == q;
    if root + q in roots {
      var i :| 0 <= i < |roots| && roots[i] == root + q;
      assert (root + ids[i])[|root|..] == ids[i];
    }
  }

  function Joined(): Path -> string {
    (path: Path) => Join(path)
  }

  /** The relative paths of the topmost repositories in order, or a failure. */
  method RepositoryIDs(root: Path, folder: Folder) returns (ok: bool, ids: seq<Path>)
    ensures ok <==> Listable(folder)
    ensures ok ==> SortedBy(ids, Joined()) && Discovered(root, folder).Found? && |ids| == |Discovered(root, folder).roots|
    ensures ok ==> forall q :: q in ids <==> Topmost(folder, q)
  {
    var outcome := DiscoverRepoRoots(root, folder);
    FailsIff(root, folder);
    if outcome.Failed? {
      return false, [];
    }
    forall i | 0 <= i < |outcome.roots| ensures root <= outcome.roots[i] {
      RootsExactly(root, folder, outcome.roots[i]);
    }
    if root in outcome.roots {
      RootComesAlone(root, folder);
    }
    var relative := RelativeRoots(root, outcome.roots);
    ids := SortBy(relative, Joined());
    SameMembers(ids, relative);
    assert |multiset(ids)| == |multiset(relative)|;
    forall q ensures q in ids <==> Topmost(folder, q) {
      OnlyTopmost(root, folder, relative, q);
    }
    return true, ids;
  }

  /** Passing over the filesystem root when there are several roots passes over nothing. */
  lemma RootComesAlone(root: Path, folder: Folder)
    requires Discovered(root, folder).Found? && root in Discovered(root, folder).roots
    ensures Discovered(root, folder).roots == [root]
  {
    RootsExactly(root, folder, root);
    FlagIff(root, folder);
  }

  /** No part of a relative root starts with a dot. */
  lemma {:induction false} NoHiddenParts(folder: Folder, q: Path)
    requires Topmost(folder, q)
    ensures forall i :: 0 <= i < |q| ==> q[i] == "" || q[i][0] != '.'
    decreases q
  {
    if q != [] {
      var i :| 0 <= i < |folder.entries| && Leads(folder.entries[i], q);
      NoHiddenParts(folder.entries[i].folder, q[1..]);
      HiddenIff(q[0]);
      assert forall j :: 1 <= j < |q| ==> q[j] == q[1..][j - 1];
    }
  }

  lemma HiddenIff(name: string)
    ensures Hidden(name) <==> name != "" && name[0] == '.'
  {
    assert name != "" ==> name[..1] == [name[0]];
    assert "." == ['.'];
  }

  /** Without a marker, one visible file makes a folder look like a root, and so does having no folders; dot files do not. */
  lemma LooksLikeRoot(folder: Folder)
    requires !GitBelow(folder)
    ensures (exists i :: 0 <= i < |folder.entries| && folder.entries[i] == Leaf("README.md")) ==> Topmost(folder, [])
    ensures (forall i :: 0 <= i < |folder.entries| ==> folder.entries[i].Leaf?) ==> Topmost(folder, [])
    ensures (exists i :: 0 <= i < |folder.entries| && folder.entries[i].Sub?)
      && (forall i :: 0 <= i < |folder.entries| && folder.entries[i].Leaf? ==> folder.entries[i].name != "" && folder.entries[i].name[0] == '.')
      ==> !Topmost(folder, [])
  {
    HiddenIff("README.md");
    forall i | 0 <= i < |folder.entries|
      ensures Hidden(folder.entries[i].name) <==> folder.entries[i].name != "" && folder.entries[i].name[0] == '.'
    {
      HiddenIff(folder.entries[i].name);
    }
  }
}
