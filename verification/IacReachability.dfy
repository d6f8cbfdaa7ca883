/** Which infrastructure artifacts are referenced by the files of the repositories. */
module IacReachability {

  import opened GoStrings

  datatype File = File(repoID: string, relativePath: string, content: string)

  datatype Artifact = Artifact(family: string, repoID: string, path: string, name: string)

  /** What the pattern matchers, the path functions and the YAML reader find; the analysis only combines their answers. */
  datatype Readers = Readers(
    artifacts: (string, File) -> seq<Artifact>, // of a file listed for a repository: by path pattern, or by YAML
    sources: string -> seq<string>,           // terraform source = "..."
    playbooks: string -> seq<string>,         // ansible-playbook ...
    tokens: string -> seq<string>,            // words of a file
    fields: string -> seq<string>,
    lines: string -> seq<string>,
    services: string -> seq<string>,          // services named on a compose command line
    playbookPath: string -> string,
    kustomization: string -> bool,            // by file name
    kustomizeLike: string -> bool,            // by a base, bases or overlays folder
    base: string -> string,
    lower: string -> string,
    contains: (string, string) -> bool)

  datatype Reachability = Unused | Ambiguous | Used

  function Level(r: Reachability): nat {
    match r
    case Unused => 0
    case Ambiguous => 1
    case Used => 2
  }

  datatype Row = Row(id: string, family: string, name: string, reachability: Reachability)

  predicate Dynamic(o: Readers, s: string) {
    o.contains(s, "${") || o.contains(s, "{{")
  }

  function TrimQuotesLeft(s: string): string {
    if s != "" && (s[0] == '"' || s[0] == '\'') then TrimQuotesLeft(s[1..]) else s
  }

  function TrimQuotesRight(s: string): string {
    if s != "" && (s[|s| - 1] == '"' || s[|s| - 1] == '\'') then TrimQuotesRight(s[..|s| - 1]) else s
  }

  function TrimQuotes(s: string): string {
    TrimQuotesRight(TrimQuotesLeft(s))
  }

  /** What follows the first occurrence of `part`. */
  function After(s: string, part: string): string {
    if part <= s then s[|part|..] else if s == "" then "" else After(s[1..], part)
  }

  function ArtifactKey(o: Readers, family: string, name: string): string {
    family + ":" + o.lower(TrimSpace(name))
  }

  function IdOf(a: Artifact): string {
    a.family + ":" + a.repoID + ":" + a.path
  }

  // --------------------------------------------------------- references of a file

  /** A key of the index, in its used or in its ambiguous half. */
  datatype Ref = Ref(used: bool, key: string)

  /** The references that a sequence of items makes, item by item. */
  function Union(items: seq<string>, refs: string -> set<Ref>): set<Ref> {
    set item, r | item in items && r in refs(item) :: r
  }

  function NameRefs(o: Readers, used: bool, family: string): string -> set<Ref> {
    name =>
      var trimmed := TrimQuotes(TrimSpace(name));
      if trimmed == "" then {} else {Ref(used, ArtifactKey(o, family, o.base(trimmed)))}
  }

  /** A dynamic reference may mean anything that is named in its file. */
  function TokenRefs(o: Readers, family: string, content: string): set<Ref> {
    Union(o.tokens(content), NameRefs(o, false, family))
  }

  function SourceRefs(o: Readers, content: string, source: string): set<Ref> {
    if Dynamic(o, source) then TokenRefs(o, "terraform", content)
    else if o.contains(source, "/modules/") then NameRefs(o, true, "terraform")(source) else {}
  }

  function TerraformRefs(o: Readers, content: string): string -> set<Ref> {
    source => SourceRefs(o, content, source)
  }

  function FieldRefs(o: Readers, content: string, field: string): set<Ref> {
    var cleaned := TrimQuotes(field);
    if !o.contains(cleaned, "charts/") then {}
    else if Dynamic(o, cleaned) then TokenRefs(o, "helm", content)
    else NameRefs(o, true, "helm")(After(cleaned, "charts/"))
  }

  function HelmRefs(o: Readers, content: string): string -> set<Ref> {
    field => FieldRefs(o, content, field)
  }

  function AnsibleRefs(o: Readers): string -> set<Ref> {
    text =>
      var line := TrimSpace(text);
      if HasPrefix(line, "- ") then NameRefs(o, true, "ansible")(TrimSpace(line[2..])) else {}
  }

  function KustomizePathRefs(o: Readers, content: string, raw: string): set<Ref> {
    var cleaned := TrimQuotes(TrimSpace(raw));
    if cleaned == "" || (!o.kustomizeLike(cleaned) && !Dynamic(o, cleaned)) then {}
    else if Dynamic(o, cleaned) then TokenRefs(o, "kustomize", content)
    else NameRefs(o, true, "kustomize")(cleaned)
  }

  function KustomizeLineRefs(o: Readers, file: File, text: string): set<Ref> {
    var line := TrimSpace(text);
    if HasPrefix(line, "path:") then KustomizePathRefs(o, file.content, TrimSpace(line[5..]))
    else if o.kustomization(file.relativePath) && HasPrefix(line, "- ") then KustomizePathRefs(o, file.content, TrimSpace(line[2..]))
    else {}
  }

  function KustomizeRefs(o: Readers, file: File): string -> set<Ref> {
    text => KustomizeLineRefs(o, file, text)
  }

  function ComposeLineRefs(o: Readers, content: string, text: string): set<Ref> {
    var line := TrimSpace(text);
    if !o.contains(line, "docker compose") && !o.contains(line, "docker-compose") then {}
    else if Dynamic(o, line) then TokenRefs(o, "compose", content)
    else Union(o.services(line), NameRefs(o, true, "compose"))
  }

  function ComposeRefs(o: Readers, content: string): string -> set<Ref> {
    text => ComposeLineRefs(o, content, text)
  }

  function EarlyRefs(o: Readers, file: File): set<Ref> {
    Union(o.sources(file.content), TerraformRefs(o, file.content)) + Union(o.fields(file.content), HelmRefs(o, file.content))
  }

  function LateRefs(o: Readers, file: File): set<Ref> {
    Union(o.lines(file.content), KustomizeRefs(o, file)) + Union(o.lines(file.content), ComposeRefs(o, file.content))
  }

  /** References of a file that do not depend on other files. */
  function OwnRefs(o: Readers): File -> set<Ref> {
    (file: File) => if file.content == "" then {} else EarlyRefs(o, file) + LateRefs(o, file)
  }

  /** Roles count only in playbooks that some file runs. */
  function PlaybookRefs(o: Readers, reached: set<string>): File -> set<Ref> {
    (file: File) =>
      if file.content == "" || o.playbookPath(file.relativePath) !in reached then {}
      else if o.contains(file.content, "{{") then TokenRefs(o, "ansible", file.content)
      else Union(o.lines(file.content), AnsibleRefs(o))
  }

  function Sum(f: File -> set<Ref>, g: File -> set<Ref>): File -> set<Ref> {
    file => f(file) + g(file)
  }

  function ReachedPlaybooks(o: Readers, files: set<File>): set<string> {
    set file, found | file in files && found in o.playbooks(file.content) :: o.playbookPath(found)
  }

  /** All references of these files, in the playbooks that any of them runs. */
  function RefsOf(o: Readers, files: set<File>): set<Ref> {
    Gathered(files, Sum(OwnRefs(o), PlaybookRefs(o, ReachedPlaybooks(o, files))))
  }

  function Gathered(files: set<File>, refs: File -> set<Ref>): set<Ref> {
    set file, r | file in files && r in refs(file) :: r
  }

  function ReachOf(o: Readers, refs: set<Ref>, a: Artifact): Reachability {
    var key := ArtifactKey(o, a.family, a.name);
    if Ref(true, key) in refs then Used else if Ref(false, key) in refs then Ambiguous else Unused
  }

  predicate FamilyEnabled(families: map<string, bool>, family: string) {
    |families| == 0 || (family in families && families[family])
  }

  // ------------------------------------------------------------------- the index

  lemma UnionOneMore(items: seq<string>, i: nat, refs: string -> set<Ref>)
    requires i < |items|
    ensures Union(items[..i + 1], refs) == Union(items[..i], refs) + refs(items[i])
  {
    assert items[..i + 1] == items[..i] + [items[i]];
  }

  /** Evidence for each key that is used or may be. */
  class ReferenceIndex {
    var used: map<string, seq<string>>
    var ambiguous: map<string, seq<string>>

    constructor ()
      ensures used == map[] && ambiguous == map[]
    {
      used, ambiguous := map[], map[];
    }

    /** Every key in the index has evidence. */
    ghost predicate Valid()
      reads this
    {
      (forall k :: k in used ==> used[k] != []) && (forall k :: k in ambiguous ==> ambiguous[k] != [])
    }

    ghost function Refs(): set<Ref>
      reads this
    {
      (set k | k in used :: Ref(true, k)) + (set k | k in ambiguous :: Ref(false, k))
    }

    method AddReference(o: Readers, toUsed: bool, family: string, name: string, evidence: seq<string>)
      requires Valid() && evidence != []
      modifies this
      ensures Valid() && Refs() == old(Refs()) + NameRefs(o, toUsed, family)(name)
    {
      var trimmed := TrimQuotes(TrimSpace(name));
      if trimmed == "" {
        return;
      }
      var key := ArtifactKey(o, family, o.base(trimmed));
      if toUsed {
        used := used[key := (if key in used then used[key] else []) + evidence];
      } else {
        ambiguous := ambiguous[key := (if key in ambiguous then ambiguous[key] else []) + evidence];
      }
    }

    method AddAll(o: Readers, toUsed: bool, family: string, names: seq<string>, evidence: seq<string>)
      requires Valid() && evidence != []
      modifies this
      ensures Valid() && Refs() == old(Refs()) + Union(names, NameRefs(o, toUsed, family))
    {
      for i := 0 to |names|
        invariant Valid() && Refs() == old(Refs()) + Union(names[..i], NameRefs(o, toUsed, family))
      {
        UnionOneMore(names, i, NameRefs(o, toUsed, family));
        AddReference(o, toUsed, family, names[i], evidence);
      }
      assert names[..|names|] == names;
    }

    method RecordTerraformSource(o: Readers, file: File, source: string)
      requires Valid()
      modifies this
      ensures Valid() && Refs() == old(Refs()) + SourceRefs(o, file.content, source)
    {
      var evidence := [file.relativePath + ": terraform source " + source];
      if Dynamic(o, source) {
        AddAll(o, false, "terraform", o.tokens(file.content), evidence);
      } else if o.contains(source, "/modules/") {
        AddReference(o, true, "terraform", source, evidence);
      }
    }

    method RecordTerraformReferences(o: Readers, file: File)
      requires Valid()
      modifies this
      ensures Valid() && Refs() == old(Refs()) + Union(o.sources(file.content), TerraformRefs(o, file.content))
    {
      var sources := o.sources(file.content);
      for i := 0 to |sources|
        invariant Valid() && Refs() == old(Refs()) + Union(sources[..i], TerraformRefs(o, file.content))
      {
        UnionOneMore(sources, i, TerraformRefs(o, file.content));
        RecordTerraformSource(o, file, sources[i]);
      }
      assert sources[..|sources|] == sources;
    }

    method RecordHelmField(o: Readers, file: File, field: string)
      requires Valid()
      modifies this
      ensures Valid() && Refs() == old(Refs()) + FieldRefs(o, file.content, field)
    {
      var cleaned := TrimQuotes(field);
      if !o.contains(cleaned, "charts/") {
        return;
      }
      var evidence := [file.relativePath + ": helm chart reference " + cleaned];
      if Dynamic(o, cleaned) {
        AddAll(o, false, "helm", o.tokens(file.content), evidence);
        return;
      }
      AddReference(o, true, "helm", After(cleaned, "charts/"), evidence);
    }

    method RecordHelmReferences(o: Readers, file: File)
      requires Valid()
      modifies this
      ensures Valid() && Refs() == old(Refs()) + Union(o.fields(file.content), HelmRefs(o, file.content))
    {
      var fields := o.fields(file.content);
      for i := 0 to |fields|
        invariant Valid() && Refs() == old(Refs()) + Union(fields[..i], HelmRefs(o, file.content))
      {
        UnionOneMore(fields, i, HelmRefs(o, file.content));
        RecordHelmField(o, file, fields[i]);
      }
      assert fields[..|fields|] == fields;
    }

    method RecordAnsibleReferences(o: Readers, file: File, reached: map<string, seq<string>>)
      requires Valid() && file.content != "" && forall k :: k in reached ==> reached[k] != []
      modifies this
      ensures Valid() && Refs() == old(Refs()) + PlaybookRefs(o, reached.Keys)(file)
    {
      var playbook := o.playbookPath(file.relativePath);
      if playbook !in reached {
        return;
      }
      if o.contains(file.content, "{{") {
        AddAll(o, false, "ansible", o.tokens(file.content), reached[playbook] + [file.relativePath + ": dynamic role reference"]);
        return;
      }
      RecordRoles(o, o.lines(file.content), reached[playbook] + [file.relativePath + ": role reference"]);
    }

    method RecordRoles(o: Readers, lines: seq<string>, evidence: seq<string>)
      requires Valid() && evidence != []
      modifies this
      ensures Valid() && Refs() == old(Refs()) + Union(lines, AnsibleRefs(o))
    {
      for i := 0 to |lines|
        invariant Valid() && Refs() == old(Refs()) + Union(lines[..i], AnsibleRefs(o))
      {
        UnionOneMore(lines, i, AnsibleRefs(o));
        var line := TrimSpace(lines[i]);
        if HasPrefix(line, "- ") {
          AddReference(o, true, "ansible", TrimSpace(line[2..]), evidence);
        }
      }
      assert lines[..|lines|] == lines;
    }

    method RecordKustomizePathReference(o: Readers, file: File, raw: string)
      requires Valid()
      modifies this
      ensures Valid() && Refs() == old(Refs()) + KustomizePathRefs(o, file.content, raw)
    {
      var cleaned := TrimQuotes(TrimSpace(raw));
      if cleaned == "" {
        return;
      }
      if !o.kustomizeLike(cleaned) && !Dynamic(o, cleaned) {
        return;
      }
      var evidence := [file.relativePath + ": kustomize path reference " + cleaned];
      if Dynamic(o, cleaned) {
        AddAll(o, false, "kustomize", o.tokens(file.content), evidence);
        return;
      }
      AddReference(o, true, "kustomize", cleaned, evidence);
    }

    method RecordKustomizeLine(o: Readers, file: File, text: string)
      requires Valid()
      modifies this
      ensures Valid() && Refs() == old(Refs()) + KustomizeLineRefs(o, file, text)
    {
      var line := TrimSpace(text);
      if HasPrefix(line, "path:") {
        RecordKustomizePathReference(o, file, TrimSpace(line[5..]));
      } else if o.kustomization(file.relativePath) && HasPrefix(line, "- ") {
        RecordKustomizePathReference(o, file, TrimSpace(line[2..]));
      }
    }

    method RecordKustomizeReferences(o: Readers, file: File)
      requires Valid()
      modifies this
      ensures Valid() && Refs() == old(Refs()) + Union(o.lines(file.content), KustomizeRefs(o, file))
    {
      var lines := o.lines(file.content);
      for i := 0 to |lines|
        invariant Valid() && Refs() == old(Refs()) + Union(lines[..i], KustomizeRefs(o, file))
      {
        UnionOneMore(lines, i, KustomizeRefs(o, file));
        RecordKustomizeLine(o, file, lines[i]);
      }
      assert lines[..|lines|] == lines;
    }

    method RecordComposeLine(o: Readers, file: File, text: string)
      requires Valid()
      modifies this
      ensures Valid() && Refs() == old(Refs()) + ComposeLineRefs(o, file.content, text)
    {
      var line := TrimSpace(text);
      if !o.contains(line, "docker compose") && !o.contains(line, "docker-compose") {
        return;
      }
      var evidence := [file.relativePath + ": compose service reference " + line];
      if Dynamic(o, line) {
        AddAll(o, false, "compose", o.tokens(file.content), evidence);
        return;
      }
      AddAll(o, true, "compose", o.services(line), evidence);
    }

    method RecordComposeReferences(o: Readers, file: File)
      requires Valid()
      modifies this
      ensures Valid() && Refs() == old(Refs()) + Union(o.lines(file.content), ComposeRefs(o, file.content))
    {
      var lines := o.lines(file.content);
      for i := 0 to |lines|
        invariant Valid() && Refs() == old(Refs()) + Union(lines[..i], ComposeRefs(o, file.content))
      {
        UnionOneMore(lines, i, ComposeRefs(o, file.content));
        RecordComposeLine(o, file, lines[i]);
      }
      assert lines[..|lines|] == lines;
    }
  }
}
