/** Copying a repository: one walk that prunes skipped folders and caches .gitignore files. */
module RepositoryCopy {

  import opened GoStrings
  import opened Gitignore

  /** A directory entry; `readable` tells whether a folder can be listed or a file be opened. */
  datatype Entry =
    | Dir(name: string, readable: bool, entries: seq<Entry>)
    | Regular(name: string, readable: bool)
    | Symlink(name: string)

  const DIR_PROBE := "__pcg_dir_probe__"

  predicate PreservedHidden(path: Path) {
    || path == [".github"]
    || path == [".github", "workflows"]
    || (|path| > 2 && path[0] == ".github" && path[1] == "workflows")
  }

  /** The verdict on one entry, from the contents of the .gitignore files alone. */
  ghost predicate Skipped(glob: Glob, files: Files, path: Path, isDir: bool)
    requires path != []
  {
    var name := path[|path| - 1];
    || name == ".DS_Store"
    || (HasPrefix(name, ".") && !PreservedHidden(path))
    || Ignored(glob, files, path)
    || (isDir && Ignored(glob, files, path + [DIR_PROBE]))
  }

  method ShouldSkip(cache: SpecCache, path: Path, isDir: bool) returns (skip: bool)
    requires cache.Valid() && path != []
    modifies cache
    ensures cache.Valid() && skip == Skipped(cache.glob, cache.files, path, isDir)
  {
    var name := path[|path| - 1];
    if name == ".DS_Store" {
      return true;
    }
    if HasPrefix(name, ".") && !PreservedHidden(path) {
      return true;
    }
    var ignored := cache.IsIgnored(path);
    if ignored {
      return true;
    }
    if isDir {
      ignored := cache.IsIgnored(path + [DIR_PROBE]);
      if ignored {
        return true;
      }
    }
    return false;
  }

  // ------------------------------------------------------ what should be copied

  /** `p` leads to a regular file that can be read, through folders that can be listed. */
  ghost predicate Reads(entries: seq<Entry>, p: Path)
    requires p != []
    decreases p
  {
    exists i :: 0 <= i < |entries| && ReadsThrough(entries[i], p)
  }

  ghost predicate ReadsThrough(entry: Entry, p: Path)
    requires p != []
    decreases p, 0
  {
    && entry.name == p[0]
    && !entry.Symlink? && entry.readable
    && (if |p| == 1 then entry.Regular? else entry.Dir? && Reads(entry.entries, p[1..]))
  }

  /** Neither the file nor a folder above it, from depth `depth` on, is skipped on its own account. */
  ghost predicate Kept(glob: Glob, files: Files, path: Path, depth: nat) {
    forall k :: depth < k <= |path| ==> !Skipped(glob, files, path[..k], k < |path|)
  }

  /** What the walk of folder `at` has to copy. */
  ghost predicate Copies(glob: Glob, files: Files, at: Path, entries: seq<Entry>, path: Path) {
    at < path && Reads(entries, path[|at|..]) && Kept(glob, files, path, |at|)
  }

  ghost predicate CopiesThrough(glob: Glob, files: Files, at: Path, entry: Entry, path: Path) {
    at < path && ReadsThrough(entry, path[|at|..]) && Kept(glob, files, path, |at|)
  }

  lemma CopiesOneMore(glob: Glob, files: Files, at: Path, entries: seq<Entry>, path: Path)
    requires entries != []
    ensures var n := |entries| - 1;
      Copies(glob, files, at, entries, path) <==>
        Copies(glob, files, at, entries[..n], path) || CopiesThrough(glob, files, at, entries[n], path)
  {
  }

  lemma KeptDeeper(glob: Glob, files: Files, path: Path, depth: nat)
    requires depth < |path|
    ensures Kept(glob, files, path, depth) <==>
      !Skipped(glob, files, path[..depth + 1], depth + 1 < |path|) && Kept(glob, files, path, depth + 1)
  {
  }

  /** A folder that is not skipped passes on to its own entries. */
  lemma CopiesInside(glob: Glob, files: Files, at: Path, entry: Entry, path: Path)
    requires entry.Dir?
    ensures var child := at + [entry.name];
      CopiesThrough(glob, files, at, entry, path) <==>
        entry.readable && !Skipped(glob, files, child, true) && Copies(glob, files, child, entry.entries, path)
  {
    var child := at + [entry.name];
    if at < path && path[|at|] == entry.name {
      KeptDeeper(glob, files, path, |at|);
      assert path[..|at| + 1] == child;
      assert path[|at|..][1..] == path[|child|..];
    }
    if child < path {
      assert path[|at|] == child[|at|];
    }
  }

  lemma CopiesFile(glob: Glob, files: Files, at: Path, entry: Entry, path: Path)
    requires !entry.Dir?
    ensures CopiesThrough(glob, files, at, entry, path) <==>
      path == at + [entry.name] && entry.Regular? && entry.readable && !Skipped(glob, files, path, false)
  {
    if at < path && path[|at|..] == [entry.name] {
      assert path == at + [entry.name];
      KeptDeeper(glob, files, path, |at|);
      assert path[..|path|] == path;
    }
    assert at < path && |path[|at|..]| == 1 && path[|at|..][0] == entry.name ==> path[|at|..] == [entry.name];
    assert path == at + [entry.name] ==> at < path && path[|at|..] == [entry.name];
  }

  /** A hidden name is kept only as the folder .github at the top and below its workflows, at any depth. */
  predicate HiddenByName(path: Path, k: nat)
    requires k < |path|
  {
    && path[k] != "" && path[k][0] == '.'
    && !(k == 0 && path[0] == ".github") && !(k >= 2 && path[0] == ".github" && path[1] == "workflows")
  }

  /** No .gitignore verdict falls on the path, on a folder above it or on a file that such a folder could hold. */
  ghost predicate NowhereIgnored(glob: Glob, files: Files, path: Path) {
    forall k :: 0 < k <= |path| ==>
      !Ignored(glob, files, path[..k]) && (k < |path| ==> !Ignored(glob, files, path[..k] + [DIR_PROBE]))
  }

  /** Which paths are kept, by their segments and by the verdicts: .github/workflows/ci.yml unless a pattern ignores it. */
  lemma KeptIff(glob: Glob, files: Files, path: Path)
    ensures Kept(glob, files, path, 0) <==>
      && (forall k :: 0 <= k < |path| ==> path[k] != ".DS_Store" && !HiddenByName(path, k))
      && NowhereIgnored(glob, files, path)
  {
    forall k | 0 <= k < |path|
      ensures Skipped(glob, files, path[..k + 1], k + 1 < |path|) <==>
        || path[k] == ".DS_Store" || HiddenByName(path, k) || Ignored(glob, files, path[..k + 1])
        || (k + 1 < |path| && Ignored(glob, files, path[..k + 1] + [DIR_PROBE]))
    {
      SkippedAt(glob, files, path, k);
    }
    if Kept(glob, files, path, 0) {
      KeptParts(glob, files, path);
    }
  }

  lemma KeptParts(glob: Glob, files: Files, path: Path)
    requires Kept(glob, files, path, 0)
    ensures forall k :: 0 <= k < |path| ==> path[k] != ".DS_Store" && !HiddenByName(path, k)
    ensures NowhereIgnored(glob, files, path)
  {
    forall k | 0 <= k < |path| ensures path[k] != ".DS_Store" && !HiddenByName(path, k) {
      SkippedAt(glob, files, path, k);
      assert !Skipped(glob, files, path[..k + 1], k + 1 < |path|);
    }
    forall k | 0 < k <= |path|
      ensures !Ignored(glob, files, path[..k]) && (k < |path| ==> !Ignored(glob, files, path[..k] + [DIR_PROBE]))
    {
      assert !Skipped(glob, files, path[..k], k < |path|);
    }
  }

  lemma SkippedAt(glob: Glob, files: Files, path: Path, k: nat)
    requires k < |path|
    ensures Skipped(glob, files, path[..k + 1], k + 1 < |path|) <==>
      || path[k] == ".DS_Store" || HiddenByName(path, k) || Ignored(glob, files, path[..k + 1])
      || (k + 1 < |path| && Ignored(glob, files, path[..k + 1] + [DIR_PROBE]))
  {
    var upTo := path[..k + 1];
    HiddenIff(path[k]);
    assert "workflows"[0] == 'w';
    assert k == 0 ==> upTo == [path[0]];
    assert k == 1 ==> upTo == [path[0], path[1]];
  }

  lemma HiddenIff(name: string)
    ensures HasPrefix(name, ".") <==> name != "" && name[0] == '.'
  {
    assert name != "" ==> name[..1] == [name[0]];
    assert "." == ['.'];
  }

  // ------------------------------------------------------------------- the walk

  /**
    The pruned and cached walk copies exactly the regular files that the plain verdict keeps,
    on themselves and on every folder above them.
   */
  method CopyTree(cache: SpecCache, at: Path, entries: seq<Entry>) returns (copied: seq<Path>)
    requires cache.Valid()
    modifies cache
    ensures cache.Valid()
    ensures forall path :: path in copied <==> Copies(cache.glob, cache.files, at, entries, path)
    decreases entries
  {
    copied := [];
    for i := 0 to |entries|
      invariant cache.Valid()
      invariant forall path :: path in copied <==> Copies(cache.glob, cache.files, at, entries[..i], path)
    {
      var more := CopyEntry(cache, at, entries[i]);
      forall path ensures path in copied + more <==> Copies(cache.glob, cache.files, at, entries[..i + 1], path) {
        CopiesOneMore(cache.glob, cache.files, at, entries[..i + 1], path);
        assert entries[..i + 1][..i] == entries[..i];
      }
      copied := copied + more;
    }
    assert entries[..|entries|] == entries;
  }

  /** The walk's callback on one entry, and what follows below it. */
  method CopyEntry(cache: SpecCache, at: Path, entry: Entry) returns (copied: seq<Path>)
    requires cache.Valid()
    modifies cache
    ensures cache.Valid()
    ensures forall path :: path in copied <==> CopiesThrough(cache.glob, cache.files, at, entry, path)
    decreases entry
  {
    var path := at + [entry.name];
    forall q ensures
      CopiesThrough(cache.glob, cache.files, at, entry, q) <==>
        if entry.Dir? then
          entry.readable && !Skipped(cache.glob, cache.files, path, true) && Copies(cache.glob, cache.files, path, entry.entries, q)
        else q == path && entry.Regular? && entry.readable && !Skipped(cache.glob, cache.files, path, false)
    {
      if entry.Dir? {
        CopiesInside(cache.glob, cache.files, at, entry, q);
      } else {
        CopiesFile(cache.glob, cache.files, at, entry, q);
      }
    }
    var skip := ShouldSkip(cache, path, entry.Dir?);
    if skip {
      return [];
    }
    match entry
    case Symlink(_) => return [];
    case Regular(_, readable) => return if readable then [path] else [];
    case Dir(_, readable, entries) =>
      if !readable {
        return [];
      }
      copied := CopyTree(cache, path, entries);
  }
}
