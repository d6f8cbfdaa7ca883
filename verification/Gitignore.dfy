/** The .gitignore verdict on a path: last matching pattern wins, outer folders first. */
module Gitignore {

  import opened Basics
  import opened GoStrings

  /** A path below the repository root, segment by segment. */
  type Path = seq<string>

  datatype Pattern = Pattern(raw: string, negated: bool, dirOnly: bool, anchored: bool)

  /** path.Match: whether a glob matches a whole string; a malformed glob matches nothing. */
  type Glob = (string, string) -> bool

  /** What the repository's .gitignore files contain: the lines of the one in a folder, if it can be read. */
  type Files = Path -> Option<seq<string>>

  // ----------------------------------------------------------------- patterns

  /** One line: blank lines and comments give no pattern; then "!", "/" and a final "/" come off in turn. */
  function ParseLine(rawLine: string): Option<Pattern> {
    var line := TrimSpace(rawLine);
    if line == "" || HasPrefix(line, "#") then None
    else if HasPrefix(line, "!") then AfterBang(line[1..], true) else AfterBang(line, false)
  }

  function AfterBang(line: string, negated: bool): Option<Pattern> {
    if HasPrefix(line, "/") then AfterSlash(line[1..], negated, true) else AfterSlash(line, negated, false)
  }

  function AfterSlash(line: string, negated: bool, anchored: bool): Option<Pattern> {
    var dirOnly := line != "" && line[|line| - 1] == '/';
    var raw := TrimSpace(if dirOnly then line[..|line| - 1] else line);
    if raw == "" then None else Some(Pattern(raw, negated, dirOnly, anchored))
  }

  function ParseLines(lines: seq<string>): seq<Pattern> {
    if lines == [] then []
    else
      var last := ParseLine(lines[|lines| - 1]);
      ParseLines(lines[..|lines| - 1]) + if last.Some? then [last.value] else []
  }

  method ParseSpec(lines: seq<string>) returns (spec: Option<seq<Pattern>>)
    ensures spec == if ParseLines(lines) == [] then None else Some(ParseLines(lines))
  {
    var patterns := [];
    for i := 0 to |lines|
      invariant patterns == ParseLines(lines[..i])
    {
      assert lines[..i + 1][..i] == lines[..i];
      var pattern := ParseLine(lines[i]);
      if pattern.None? {
        continue;
      }
      patterns := patterns + [pattern.value];
    }
    assert lines[..|lines|] == lines;
    return if patterns == [] then None else Some(patterns);
  }

  function WrittenTail(p: Pattern): string {
    p.raw + if p.dirOnly then "/" else ""
  }

  function WrittenMiddle(p: Pattern): string {
    if p.anchored then "/" + WrittenTail(p) else WrittenTail(p)
  }

  function Written(p: Pattern): string {
    if p.negated then "!" + WrittenMiddle(p) else WrittenMiddle(p)
  }

  predicate Plain(raw: string) {
    && raw != "" && raw[0] != '#' && raw[0] != '!' && raw[0] != '/' && raw[|raw| - 1] != '/'
    && !IsSpace(raw[0]) && !IsSpace(raw[|raw| - 1])
  }

  lemma StartsWith(s: string)
    requires s != ""
    ensures HasPrefix(s, "!") <==> s[0] == '!'
    ensures HasPrefix(s, "#") <==> s[0] == '#'
    ensures HasPrefix(s, "/") <==> s[0] == '/'
  {
    assert "!" == ['!'] && "#" == ['#'] && "/" == ['/'];
    assert s[..1] == [s[0]];
  }

  lemma ParseWrittenTail(p: Pattern)
    requires Plain(p.raw)
    ensures AfterSlash(WrittenTail(p), p.negated, p.anchored) == Some(p)
  {
    var tail := WrittenTail(p);
    AlreadyTrimmed(p.raw);
    assert (if p.dirOnly then tail[..|tail| - 1] else tail) == p.raw;
  }

  lemma ParseWrittenMiddle(p: Pattern)
    requires Plain(p.raw)
    ensures AfterBang(WrittenMiddle(p), p.negated) == Some(p)
  {
    StartsWith(WrittenMiddle(p));
    ParseWrittenTail(p);
    assert p.anchored ==> WrittenMiddle(p)[1..] == WrittenTail(p);
  }

  lemma WrittenIsTrimmed(p: Pattern)
    requires Plain(p.raw)
    ensures var line := Written(p); line != "" && line[0] != '#' && TrimSpace(line) == line
  {
    AlreadyTrimmed(Written(p));
  }

  /** Reading back a written pattern gives that pattern. */
  lemma ParseWritten(p: Pattern)
    requires Plain(p.raw)
    ensures ParseLine(Written(p)) == Some(p)
  {
    WrittenIsTrimmed(p);
    StartsWith(Written(p));
    ParseWrittenMiddle(p);
    assert p.negated ==> Written(p)[1..] == WrittenMiddle(p);
  }

  predicate Matches(glob: Glob, p: Pattern, rel: Path)
    requires rel != []
  {
    if p.dirOnly then Join(rel) == p.raw || HasPrefix(Join(rel), p.raw + "/")
    else if '/' in p.raw then
      glob(p.raw, Join(rel)) || (!p.anchored && exists i :: 0 <= i < |rel| && glob(p.raw, Join(rel[i..])))
    else exists i :: 0 <= i < |rel| && glob(p.raw, rel[i])
  }

  method PatternMatches(glob: Glob, p: Pattern, rel: Path) returns (matched: bool)
    requires rel != []
    ensures matched == Matches(glob, p, rel)
  {
    if p.dirOnly {
      return Join(rel) == p.raw || HasPrefix(Join(rel), p.raw + "/");
    }
    if '/' in p.raw {
      if glob(p.raw, Join(rel)) {
        return true;
      }
      if p.anchored {
        return false;
      }
      for i := 0 to |rel|
        invariant forall j :: 0 <= j < i ==> !glob(p.raw, Join(rel[j..]))
      {
        if glob(p.raw, Join(rel[i..])) {
          return true;
        }
      }
      return false;
    }
    if glob(p.raw, rel[|rel| - 1]) {
      return true;
    }
    for i := 0 to |rel|
      invariant forall j :: 0 <= j < i ==> !glob(p.raw, rel[j])
    {
      if glob(p.raw, rel[i]) {
        return true;
      }
    }
    return false;
  }

  // ------------------------------------------------------------------ verdict

  /** A pattern, and the path as seen from the folder whose .gitignore holds it. */
  datatype Rule = Rule(pattern: Pattern, rel: Path)

  function PatternsIn(files: Files, dir: Path): seq<Pattern> {
    var lines := files(dir);
    if lines.None? then [] else ParseLines(lines.value)
  }

  function RulesOf(patterns: seq<Pattern>, rel: Path): seq<Rule> {
    seq(|patterns|, i requires 0 <= i < |patterns| => Rule(patterns[i], rel))
  }

  /** The rules of the first `n` folders on the way to `path`, the root's first. */
  function Rules(files: Files, path: Path, n: nat): seq<Rule>
    requires n <= |path|
  {
    if n == 0 then [] else Rules(files, path, n - 1) + RulesOf(PatternsIn(files, path[..n - 1]), path[n - 1..])
  }

  predicate Hits(glob: Glob, rule: Rule) {
    rule.rel != [] && Matches(glob, rule.pattern, rule.rel)
  }

  /** The last rule that matches decides; with none, nothing is ignored. */
  ghost predicate LastHitIgnores(glob: Glob, rules: seq<Rule>) {
    exists i :: 0 <= i < |rules| && Hits(glob, rules[i]) && !rules[i].pattern.negated
                && forall j :: i < j < |rules| ==> !Hits(glob, rules[j])
  }

  ghost predicate Ignored(glob: Glob, files: Files, path: Path) {
    LastHitIgnores(glob, Rules(files, path, |path|))
  }

  /** One more rule overrides the verdict where it matches, and leaves it alone otherwise. */
  lemma OneMoreRule(glob: Glob, rules: seq<Rule>, rule: Rule)
    ensures LastHitIgnores(glob, rules + [rule]) <==>
      if Hits(glob, rule) then !rule.pattern.negated else LastHitIgnores(glob, rules)
  {
    var more := rules + [rule];
    assert more[|rules|] == rule;
    if LastHitIgnores(glob, rules) && !Hits(glob, rule) {
      var i :| 0 <= i < |rules| && Hits(glob, rules[i]) && !rules[i].pattern.negated
               && forall j :: i < j < |rules| ==> !Hits(glob, rules[j]);
      assert Hits(glob, more[i]);
    }
    if LastHitIgnores(glob, more) && !Hits(glob, rule) {
      var i :| 0 <= i < |more| && Hits(glob, more[i]) && !more[i].pattern.negated
               && forall j :: i < j < |more| ==> !Hits(glob, more[j]);
      assert Hits(glob, rules[i]);
      assert forall j :: i < j < |rules| ==> rules[j] == more[j];
    }
  }

  /** The folders on the way to `path`: collected from the inside out, then reversed in place. */
  method AncestorDirs(path: Path) returns (dirs: array<Path>)
    requires path != []
    ensures dirs.Length == |path| && fresh(dirs)
    ensures forall k :: 0 <= k < |path| ==> dirs[k] == path[..k]
  {
    dirs := new Path[|path|];
    var n := 0;
    while n < |path|
      invariant 0 <= n <= |path|
      invariant forall k :: 0 <= k < n ==> dirs[k] == path[..|path| - 1 - k]
    {
      dirs[n] := path[..|path| - 1 - n];
      n := n + 1;
    }
    var i, j := 0, n - 1;
    while i < j
      invariant 0 <= i && i + j == |path| - 1 && i <= j + 1
      invariant forall k :: 0 <= k < i || j < k < |path| ==> dirs[k] == path[..k]
      invariant forall k :: i <= k <= j ==> dirs[k] == path[..|path| - 1 - k]
    {
      dirs[i], dirs[j] := dirs[j], dirs[i];
      i, j := i + 1, j - 1;
    }
  }

  /** Parsed .gitignore files, by folder; read once each. */
  class SpecCache {
    const files: Files
    const glob: Glob
    var specs: map<Path, Option<seq<Pattern>>>

    constructor (files: Files, glob: Glob)
      ensures this.files == files && this.glob == glob && Valid()
    {
      this.files, this.glob := files, glob;
      specs := map[];
    }

    /** A cached spec is what reading the file again would give. */
    ghost predicate Valid()
      reads this
    {
      forall dir :: dir in specs ==>
        specs[dir] == if PatternsIn(files, dir) == [] then None else Some(PatternsIn(files, dir))
    }

    method Load(dir: Path) returns (spec: Option<seq<Pattern>>)
      requires Valid()
      modifies this
      ensures Valid()
      ensures spec == if PatternsIn(files, dir) == [] then None else Some(PatternsIn(files, dir))
    {
      if dir in specs {
        return specs[dir];
      }
      var contents := files(dir);
      if contents.None? {
        specs := specs[dir := None];
        return None;
      }
      spec := ParseSpec(contents.value);
      specs := specs[dir := spec];
    }

    /** Applies one folder's patterns on top of the verdict so far. */
    method Apply(patterns: seq<Pattern>, rel: Path, soFar: bool, ghost rules: seq<Rule>) returns (ignored: bool)
      requires rel != [] && soFar == LastHitIgnores(glob, rules)
      ensures ignored == LastHitIgnores(glob, rules + RulesOf(patterns, rel))
    {
      ignored := soFar;
      assert rules + RulesOf(patterns[..0], rel) == rules;
      for i := 0 to |patterns|
        invariant ignored == LastHitIgnores(glob, rules + RulesOf(patterns[..i], rel))
      {
        var matched := PatternMatches(glob, patterns[i], rel);
        if matched {
          ignored := !patterns[i].negated;
        }
        ghost var before, rule := rules + RulesOf(patterns[..i], rel), Rule(patterns[i], rel);
        OneMoreRule(glob, before, rule);
        assert rules + RulesOf(patterns[..i + 1], rel) == before + [rule];
      }
      assert patterns[..|patterns|] == patterns;
    }

    method IsIgnored(path: Path) returns (ignored: bool)
      requires Valid() && path != []
      modifies this
      ensures Valid() && ignored == Ignored(glob, files, path)
    {
      ignored := false;
      var dirs := AncestorDirs(path);
      for n := 0 to dirs.Length
        invariant Valid()
        invariant forall k :: 0 <= k < |path| ==> dirs[k] == path[..k]
        invariant ignored == LastHitIgnores(glob, Rules(files, path, n))
      {
        var spec := Load(dirs[n]);
        if spec.None? {
          assert Rules(files, path, n + 1) == Rules(files, path, n);
          continue;
        }
        ignored := Apply(spec.value, path[n..], ignored, Rules(files, path, n));
      }
    }
  }

  // ------------------------------------------------- what single patterns say

  predicate SlashFree(path: Path) {
    forall i :: 0 <= i < |path| ==> '/' !in path[i]
  }

  lemma SameHeadLength(x: string, s: string, y: string, t: string)
    requires '/' !in x && '/' !in y && x + ("/" + s) <= y + ("/" + t)
    ensures |x| == |y|
  {
    var a, b := x + ("/" + s), y + ("/" + t);
    assert a[|x|] == '/' && b[|y|] == '/';
    assert forall i :: 0 <= i < |x| ==> a[i] != '/';
    assert forall i :: 0 <= i < |y| ==> b[i] != '/';
    assert forall i :: 0 <= i < |a| ==> a[i] == b[i];
  }

  lemma SameHead(x: string, s: string, y: string, t: string)
    requires '/' !in x && '/' !in y
    ensures x + ("/" + s) <= y + ("/" + t) <==> x == y && s <= t
  {
    var a, b := x + ("/" + s), y + ("/" + t);
    assert a[..|x|] == x && b[..|y|] == y && a[|x| + 1..] == s && b[|y| + 1..] == t;
    if a <= b {
      SameHeadLength(x, s, y, t);
      assert x == y && s == b[|y| + 1..][..|s|];
    }
  }

  function Slashed(path: Path): string {
    if path == [] then "" else path[0] + ("/" + Slashed(path[1..]))
  }

  lemma {:induction false} JoinSlashed(path: Path)
    requires path != []
    ensures Join(path) + "/" == Slashed(path)
  {
    if |path| > 1 {
      JoinSlashed(path[1..]);
    }
  }

  lemma {:induction false} SlashedPrefix(dir: Path, rel: Path)
    requires SlashFree(dir) && SlashFree(rel)
    ensures Slashed(dir) <= Slashed(rel) <==> dir <= rel
  {
    if dir != [] && rel != [] {
      SameHead(dir[0], Slashed(dir[1..]), rel[0], Slashed(rel[1..]));
      SlashedPrefix(dir[1..], rel[1..]);
      assert dir == [dir[0]] + dir[1..] && rel == [rel[0]] + rel[1..];
    }
  }

  lemma JoinedOnlyOneWay(dir: Path, rel: Path)
    requires SlashFree(dir) && SlashFree(rel) && dir != [] && rel != []
    ensures Join(dir) == Join(rel) <==> dir == rel
  {
    JoinSlashed(dir);
    JoinSlashed(rel);
    SlashedPrefix(dir, rel);
    SlashedPrefix(rel, dir);
  }

  lemma WithSlash(s: string, t: string)
    ensures t == s || HasPrefix(t, s + "/") <==> s + "/" <= t + "/"
  {
    if s + "/" <= t + "/" {
      assert (t + "/")[..|s| + 1] == s + "/";
      assert |s| < |t| ==> t[..|s| + 1] == s + "/";
      assert |s| == |t| ==> (t + "/")[..|s|] == t && (s + "/")[..|s|] == s;
    }
  }

  /** A folder pattern matches the folder and everything below it, seen from the .gitignore file, and nothing else. */
  lemma FolderPattern(glob: Glob, p: Pattern, dir: Path, rel: Path)
    requires p.dirOnly && dir != [] && p.raw == Join(dir) && SlashFree(dir) && SlashFree(rel) && rel != []
    ensures Matches(glob, p, rel) <==> dir <= rel
  {
    WithSlash(p.raw, Join(rel));
    JoinSlashed(dir);
    JoinSlashed(rel);
    SlashedPrefix(dir, rel);
  }

  /** A pattern without a wildcard. */
  ghost predicate Literal(glob: Glob, p: Pattern, dir: Path) {
    dir != [] && p.raw == Join(dir) && SlashFree(dir) && forall s :: glob(p.raw, s) <==> s == p.raw
  }

  /** A plain name matches every path that it is a part of, anchored or not. */
  lemma NamePattern(glob: Glob, p: Pattern, name: string, rel: Path)
    requires !p.dirOnly && Literal(glob, p, [name]) && rel != []
    ensures Matches(glob, p, rel) <==> name in rel
  {
  }

  lemma {:induction false} JoinHasSlash(dir: Path)
    requires |dir| > 1
    ensures '/' in Join(dir)
  {
    assert Join(dir)[|dir[0]|] == '/';
  }

  /** A plain path that is anchored matches itself, and one that is not every path that ends with it. */
  lemma PathPattern(glob: Glob, p: Pattern, dir: Path, rel: Path)
    requires !p.dirOnly && Literal(glob, p, dir) && |dir| > 1 && SlashFree(rel) && rel != []
    ensures p.anchored ==> (Matches(glob, p, rel) <==> rel == dir)
    ensures !p.anchored ==> (Matches(glob, p, rel) <==> exists i :: 0 <= i < |rel| && rel[i..] == dir)
  {
    JoinHasSlash(dir);
    JoinedOnlyOneWay(dir, rel);
    assert rel[0..] == rel;
    forall i | 0 <= i < |rel| ensures glob(p.raw, Join(rel[i..])) <==> rel[i..] == dir {
      JoinedOnlyOneWay(dir, rel[i..]);
    }
  }

  /** With wildcards or without, a pattern that is not anchored or has no slash matches at every depth what it matches at one. */
  lemma MatchesDeeper(glob: Glob, p: Pattern, above: Path, rel: Path)
    requires !p.dirOnly && (!p.anchored || '/' !in p.raw) && rel != [] && Matches(glob, p, rel)
    ensures Matches(glob, p, above + rel)
  {
    forall i | 0 <= i < |rel| ensures (above + rel)[|above| + i] == rel[i] && (above + rel)[|above| + i..] == rel[i..] {
    }
    assert rel[0..] == rel;
    if '/' in p.raw {
      var i :| 0 <= i < |rel| && glob(p.raw, Join(rel[i..]));
      assert glob(p.raw, Join((above + rel)[|above| + i..]));
    }
  }

  /** The only pattern of the repository is in the .gitignore file of folder `at`. */
  ghost predicate OnlyPattern(files: Files, at: Path, p: Pattern) {
    forall dir :: PatternsIn(files, dir) == if dir == at then [p] else []
  }

  lemma FolderRules(files: Files, at: Path, p: Pattern, path: Path, n: nat)
    requires OnlyPattern(files, at, p) && n < |path|
    ensures RulesOf(PatternsIn(files, path[..n]), path[n..]) == if path[..n] == at then [Rule(p, path[n..])] else []
  {
    assert RulesOf([p], path[n..]) == [Rule(p, path[n..])];
  }

  function RuleOf(at: Path, p: Pattern, path: Path, n: nat): seq<Rule> {
    if |at| < n && at <= path then [Rule(p, path[|at|..])] else []
  }

  lemma {:induction false} OnlyRule(files: Files, at: Path, p: Pattern, path: Path, n: nat)
    requires OnlyPattern(files, at, p) && n <= |path|
    ensures Rules(files, path, n) == RuleOf(at, p, path, n)
  {
    if n > 0 {
      OnlyRule(files, at, p, path, n - 1);
      FolderRules(files, at, p, path, n - 1);
      assert path[..n - 1] == at <==> |at| == n - 1 && at <= path;
    }
  }

  /** It is matched against paths as they are seen from that folder, and says nothing about any other. */
  lemma OnlyPatternDecides(glob: Glob, files: Files, at: Path, p: Pattern, path: Path)
    requires OnlyPattern(files, at, p)
    ensures Ignored(glob, files, path) <==> at < path && !p.negated && Matches(glob, p, path[|at|..])
  {
    OnlyRule(files, at, p, path, |path|);
    if at < path {
      var rule := Rule(p, path[|at|..]);
      assert LastHitIgnores(glob, [rule]) <==> Hits(glob, rule) && !p.negated by {
        OneMoreRule(glob, [], rule);
        assert [] + [rule] == [rule];
      }
    }
  }

  /** A blank line and a comment, with spaces before it or without, give no pattern. */
  lemma NoPattern(line: string, comment: string)
    requires AllSpace(line)
    ensures ParseLine(line).None? && ParseLine(line + "#" + comment).None?
  {
    TrimLeftAll(line);
    assert line + "#" + comment == line + ("#" + comment);
    assert ("#" + comment)[0] == '#' && !IsSpace('#');
    TrimLeftPast(line, "#" + comment);
    TrimRightKeepsHead("#" + comment);
    StartsWith(TrimSpace(line + "#" + comment));
  }

  lemma {:induction false} TrimLeftAll(line: string)
    requires AllSpace(line)
    ensures TrimLeft(line) == ""
  {
    if line != "" {
      TrimLeftAll(line[1..]);
    }
  }

  /** The last pattern of the .gitignore file next to an entry comes after all others: if it matches, it decides. */
  lemma NearestDecides(glob: Glob, files: Files, at: Path, name: string, p: Pattern)
    requires var patterns := PatternsIn(files, at); patterns != [] && patterns[|patterns| - 1] == p
    requires Matches(glob, p, [name])
    ensures Ignored(glob, files, at + [name]) <==> !p.negated
  {
    var path, patterns := at + [name], PatternsIn(files, at);
    assert path[..|at|] == at && path[|at|..] == [name];
    var before := Rules(files, path, |at|) + RulesOf(patterns[..|patterns| - 1], [name]);
    assert Rules(files, path, |path|) == before + [Rule(p, [name])];
    OneMoreRule(glob, before, Rule(p, [name]));
  }
}
