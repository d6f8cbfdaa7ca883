/** Classifying artifacts, and why adding files never makes one look less used. */
module IacAnalysis {

  import opened StringSort
  import opened IacReachability

  /** A file and the repository it is listed for, which gives an artifact its repository. */
  datatype Input = Input(repo: string, file: File)

  function InputsOf(filesByRepo: map<string, seq<File>>): set<Input> {
    set repo, file | repo in filesByRepo && file in filesByRepo[repo] :: Input(repo, file)
  }

  function FilesIn(inputs: set<Input>): set<File> {
    set input | input in inputs :: input.file
  }

  function Listed(repo: string, files: seq<File>): seq<Input> {
    seq(|files|, i requires 0 <= i < |files| => Input(repo, files[i]))
  }

  /** The inputs in the order of one range over the repositories. */
  method InSomeOrder(filesByRepo: map<string, seq<File>>) returns (inputs: seq<Input>)
    ensures forall input :: input in inputs <==> input in InputsOf(filesByRepo)
  {
    inputs := [];
    var left := filesByRepo.Keys;
    while left != {}
      invariant left <= filesByRepo.Keys
      invariant forall input :: input in inputs <==>
        input.repo in filesByRepo && input.repo !in left && input.file in filesByRepo[input.repo]
      decreases left
    {
      var repo :| repo in left;
      ghost var before := inputs;
      left := left - {repo};
      inputs := inputs + Listed(repo, filesByRepo[repo]);
      forall input ensures input in Listed(repo, filesByRepo[repo]) <==> input.repo == repo && input.file in filesByRepo[repo] {
        if input.repo == repo && input.file in filesByRepo[repo] {
          var i :| 0 <= i < |filesByRepo[repo]| && filesByRepo[repo][i] == input.file;
          assert Listed(repo, filesByRepo[repo])[i] == input;
        }
      }
    }
  }

  method FilesInSomeOrder(filesByRepo: map<string, seq<File>>) returns (files: seq<File>)
    ensures forall file :: file in files <==> file in FilesIn(InputsOf(filesByRepo))
  {
    var inputs := InSomeOrder(filesByRepo);
    files := seq(|inputs|, i requires 0 <= i < |inputs| => inputs[i].file);
    forall file | file in FilesIn(InputsOf(filesByRepo)) ensures file in files {
      var input :| input in InputsOf(filesByRepo) && input.file == file;
      var i :| 0 <= i < |inputs| && inputs[i] == input;
      assert files[i] == file;
    }
    forall i | 0 <= i < |files| ensures files[i] in FilesIn(InputsOf(filesByRepo)) {
      assert inputs[i] in InputsOf(filesByRepo);
    }
  }

  function PathsIn(o: Readers, matches: seq<string>): set<string> {
    set found | found in matches :: o.playbookPath(found)
  }

  method CollectFrom(o: Readers, file: File, before: map<string, seq<string>>) returns (reached: map<string, seq<string>>)
    requires forall k :: k in before ==> before[k] != []
    ensures reached.Keys == before.Keys + PathsIn(o, o.playbooks(file.content))
    ensures forall k :: k in reached ==> reached[k] != []
  {
    reached := before;
    var matches := o.playbooks(file.content);
    for m := 0 to |matches|
      invariant reached.Keys == before.Keys + PathsIn(o, matches[..m])
      invariant forall k :: k in reached ==> reached[k] != []
    {
      var playbook := o.playbookPath(matches[m]);
      var evidence := file.relativePath + ": ansible-playbook " + matches[m];
      reached := reached[playbook := (if playbook in reached then reached[playbook] else []) + [evidence]];
      assert matches[..m + 1] == matches[..m] + [matches[m]];
    }
    assert matches[..|matches|] == matches;
  }

  /** First pass: which playbooks some file runs, with evidence. */
  method CollectReachedAnsiblePlaybooks(o: Readers, filesByRepo: map<string, seq<File>>) returns (reached: map<string, seq<string>>)
    ensures reached.Keys == ReachedPlaybooks(o, FilesIn(InputsOf(filesByRepo)))
    ensures forall k :: k in reached ==> reached[k] != []
  {
    reached := map[];
    var files := FilesInSomeOrder(filesByRepo);
    for i := 0 to |files|
      invariant forall k :: k in reached ==> reached[k] != []
      invariant forall k :: k in reached <==> exists j :: 0 <= j < i && k in PathsIn(o, o.playbooks(files[j].content))
    {
      reached := CollectFrom(o, files[i], reached);
    }
    forall k ensures k in reached <==> k in ReachedPlaybooks(o, FilesIn(InputsOf(filesByRepo))) {
      if k in ReachedPlaybooks(o, FilesIn(InputsOf(filesByRepo))) {
        var file, found :| file in FilesIn(InputsOf(filesByRepo)) && found in o.playbooks(file.content) && k == o.playbookPath(found);
        assert file in files && k in PathsIn(o, o.playbooks(file.content));
      }
    }
  }

  function RefsIn(files: seq<File>, n: nat, refs: File -> set<Ref>): set<Ref>
    requires n <= |files|
  {
    if n == 0 then {} else RefsIn(files, n - 1, refs) + refs(files[n - 1])
  }

  lemma {:induction false} InRefs(files: seq<File>, n: nat, refs: File -> set<Ref>, r: Ref)
    requires n <= |files|
    ensures r in RefsIn(files, n, refs) <==> exists j :: 0 <= j < n && r in refs(files[j])
  {
    if n > 0 {
      InRefs(files, n - 1, refs, r);
    }
  }

  lemma InTurn(start: set<Ref>, early: set<Ref>, ansible: set<Ref>, late: set<Ref>)
    ensures start + early + ansible + late == start + (early + late) + ansible
  {
  }

  method RecordEarly(index: ReferenceIndex, o: Readers, file: File)
    requires index.Valid()
    modifies index
    ensures index.Valid() && index.Refs() == old(index.Refs()) + EarlyRefs(o, file)
  {
    index.RecordTerraformReferences(o, file);
    index.RecordHelmReferences(o, file);
  }

  method RecordLate(index: ReferenceIndex, o: Readers, file: File)
    requires index.Valid()
    modifies index
    ensures index.Valid() && index.Refs() == old(index.Refs()) + LateRefs(o, file)
  {
    index.RecordKustomizeReferences(o, file);
    index.RecordComposeReferences(o, file);
  }

  method RecordFile(index: ReferenceIndex, o: Readers, file: File, reached: map<string, seq<string>>)
    requires index.Valid() && forall k :: k in reached ==> reached[k] != []
    modifies index
    ensures index.Valid()
    ensures index.Refs() == old(index.Refs()) + OwnRefs(o)(file) + PlaybookRefs(o, reached.Keys)(file)
  {
    if file.content == "" {
      return;
    }
    ghost var before := index.Refs();
    RecordEarly(index, o, file);
    index.RecordAnsibleReferences(o, file, reached);
    RecordLate(index, o, file);
    InTurn(before, EarlyRefs(o, file), PlaybookRefs(o, reached.Keys)(file), LateRefs(o, file));
  }

  lemma GatheredAll(files: seq<File>, all: set<File>, refs: File -> set<Ref>)
    requires forall file :: file in files <==> file in all
    ensures RefsIn(files, |files|, refs) == Gathered(all, refs)
  {
    forall r ensures r in RefsIn(files, |files|, refs) <==> r in Gathered(all, refs) {
      InRefs(files, |files|, refs, r);
    }
  }

  /** Second pass. */
  method BuildReferenceIndex(o: Readers, filesByRepo: map<string, seq<File>>) returns (index: ReferenceIndex)
    ensures fresh(index) && index.Valid() && index.Refs() == RefsOf(o, FilesIn(InputsOf(filesByRepo)))
  {
    index := new ReferenceIndex();
    var reached := CollectReachedAnsiblePlaybooks(o, filesByRepo);
    var files := FilesInSomeOrder(filesByRepo);
    RecordFiles(index, o, files, reached);
    GatheredAll(files, FilesIn(InputsOf(filesByRepo)), Sum(OwnRefs(o), PlaybookRefs(o, reached.Keys)));
  }

  method RecordFiles(index: ReferenceIndex, o: Readers, files: seq<File>, reached: map<string, seq<string>>)
    requires index.Valid() && index.Refs() == {} && forall k :: k in reached ==> reached[k] != []
    modifies index
    ensures index.Valid() && index.Refs() == RefsIn(files, |files|, Sum(OwnRefs(o), PlaybookRefs(o, reached.Keys)))
  {
    ghost var own, playbooks := OwnRefs(o), PlaybookRefs(o, reached.Keys);
    for i := 0 to |files|
      invariant index.Valid() && index.Refs() == RefsIn(files, i, Sum(own, playbooks))
    {
      RecordFile(index, o, files[i], reached);
      NextRefs(files, i, own, playbooks);
    }
  }

  lemma NextRefs(files: seq<File>, i: nat, own: File -> set<Ref>, playbooks: File -> set<Ref>)
    requires i < |files|
    ensures RefsIn(files, i + 1, Sum(own, playbooks)) == RefsIn(files, i, Sum(own, playbooks)) + own(files[i]) + playbooks(files[i])
  {
  }

  // ---------------------------------------------------------------- artifacts

  function ArtifactsOf(o: Readers, inputs: set<Input>, families: map<string, bool>): set<Artifact> {
    set input, a | input in inputs && a in o.artifacts(input.repo, input.file) && FamilyEnabled(families, a.family) :: a
  }

  /** One artifact for each identifier that occurs. */
  ghost predicate IsDiscovery(artifacts: seq<Artifact>, all: set<Artifact>) {
    && (forall i :: 0 <= i < |artifacts| ==> artifacts[i] in all)
    && (forall i, j :: 0 <= i < j < |artifacts| ==> IdOf(artifacts[i]) != IdOf(artifacts[j]))
    && (forall a :: a in all ==> Kept(artifacts, a))
  }

  ghost predicate Kept(artifacts: seq<Artifact>, a: Artifact) {
    exists i :: 0 <= i < |artifacts| && IdOf(artifacts[i]) == IdOf(a)
  }

  /** Appends an artifact unless its identifier has been seen. */
  method AppendUnique(artifacts: seq<Artifact>, seen: set<string>, a: Artifact, ghost all: set<Artifact>)
    returns (more: seq<Artifact>, nowSeen: set<string>)
    requires IsDiscovery(artifacts, all) && Seen(artifacts, seen)
    ensures IsDiscovery(more, all + {a}) && Seen(more, nowSeen)
  {
    if IdOf(a) in seen {
      DiscoveryKnown(artifacts, a, all);
      return artifacts, seen;
    }
    SeenOneMore(artifacts, seen, a);
    DiscoveryOneMore(artifacts, a, all);
    return artifacts + [a], seen + {IdOf(a)};
  }

  lemma DiscoveryKnown(artifacts: seq<Artifact>, a: Artifact, all: set<Artifact>)
    requires IsDiscovery(artifacts, all) && Kept(artifacts, a)
    ensures IsDiscovery(artifacts, all + {a})
  {
  }

  lemma DiscoveryOneMore(artifacts: seq<Artifact>, a: Artifact, all: set<Artifact>)
    requires IsDiscovery(artifacts, all) && !Kept(artifacts, a)
    ensures IsDiscovery(artifacts + [a], all + {a})
  {
    var more := artifacts + [a];
    forall i, j | 0 <= i < j < |more| ensures IdOf(more[i]) != IdOf(more[j]) {
      assert more[i] == artifacts[i];
    }
    forall x | x in all + {a} ensures Kept(more, x) {
      if x in all {
        assert Kept(artifacts, x);
        var i :| 0 <= i < |artifacts| && IdOf(artifacts[i]) == IdOf(x);
        assert more[i] == artifacts[i];
      } else {
        assert more[|artifacts|] == x;
      }
    }
  }

  lemma SeenOneMore(artifacts: seq<Artifact>, seen: set<string>, a: Artifact)
    requires Seen(artifacts, seen)
    ensures Seen(artifacts + [a], seen + {IdOf(a)})
  {
    var more := artifacts + [a];
    forall id | id in seen ensures exists i :: 0 <= i < |more| && IdOf(more[i]) == id {
      var i :| 0 <= i < |artifacts| && IdOf(artifacts[i]) == id;
      assert IdOf(more[i]) == id;
    }
    assert IdOf(more[|artifacts|]) == IdOf(a);
    forall i | 0 <= i < |more| ensures IdOf(more[i]) in seen + {IdOf(a)} {
      assert i < |artifacts| ==> IdOf(artifacts[i]) in seen;
    }
  }

  /** The identifiers seen are those of the artifacts kept. */
  ghost predicate Seen(artifacts: seq<Artifact>, seen: set<string>) {
    forall id :: id in seen <==> exists i :: 0 <= i < |artifacts| && IdOf(artifacts[i]) == id
  }

  function ArtifactsIn(found: seq<Artifact>, families: map<string, bool>): set<Artifact> {
    set a | a in found && FamilyEnabled(families, a.family)
  }

  function ArtifactsAmong(o: Readers, inputs: seq<Input>, n: nat, families: map<string, bool>): set<Artifact>
    requires n <= |inputs|
  {
    if n == 0 then {} else ArtifactsAmong(o, inputs, n - 1, families) + ArtifactsIn(o.artifacts(inputs[n - 1].repo, inputs[n - 1].file), families)
  }

  lemma {:induction false} InArtifacts(o: Readers, inputs: seq<Input>, n: nat, families: map<string, bool>, a: Artifact)
    requires n <= |inputs|
    ensures a in ArtifactsAmong(o, inputs, n, families) <==>
      FamilyEnabled(families, a.family) && exists j :: 0 <= j < n && a in o.artifacts(inputs[j].repo, inputs[j].file)
  {
    if n > 0 {
      InArtifacts(o, inputs, n - 1, families, a);
    }
  }

  method AppendAll(start: seq<Artifact>, startSeen: set<string>, found: seq<Artifact>, families: map<string, bool>, ghost all: set<Artifact>)
    returns (artifacts: seq<Artifact>, seen: set<string>)
    requires IsDiscovery(start, all) && Seen(start, startSeen)
    ensures IsDiscovery(artifacts, all + ArtifactsIn(found, families)) && Seen(artifacts, seen)
  {
    artifacts, seen := start, startSeen;
    ghost var now := all;                        // what has been gone through
    for m := 0 to |found|
      invariant now == all + ArtifactsIn(found[..m], families)
      invariant IsDiscovery(artifacts, now) && Seen(artifacts, seen)
    {
      NextArtifact(found, m, families, all);
      if FamilyEnabled(families, found[m].family) {
        artifacts, seen := AppendUnique(artifacts, seen, found[m], now);
        now := now + {found[m]};
      }
    }
    assert found[..|found|] == found;
  }

  lemma NextArtifact(found: seq<Artifact>, m: nat, families: map<string, bool>, all: set<Artifact>)
    requires m < |found|
    ensures all + ArtifactsIn(found[..m + 1], families) ==
      all + ArtifactsIn(found[..m], families) + if FamilyEnabled(families, found[m].family) then {found[m]} else {}
  {
    assert found[..m + 1] == found[..m] + [found[m]];
  }

  method DiscoverArtifacts(o: Readers, filesByRepo: map<string, seq<File>>, families: map<string, bool>) returns (artifacts: seq<Artifact>)
    ensures IsDiscovery(artifacts, ArtifactsOf(o, InputsOf(filesByRepo), families))
  {
    artifacts := [];
    var seen: set<string> := {};
    var inputs := InSomeOrder(filesByRepo);
    for i := 0 to |inputs|
      invariant IsDiscovery(artifacts, ArtifactsAmong(o, inputs, i, families)) && Seen(artifacts, seen)
    {
      artifacts, seen := AppendAll(artifacts, seen, o.artifacts(inputs[i].repo, inputs[i].file), families, ArtifactsAmong(o, inputs, i, families));
    }
    AmongAll(o, inputs, InputsOf(filesByRepo), families);
  }

  lemma AmongAll(o: Readers, inputs: seq<Input>, all: set<Input>, families: map<string, bool>)
    requires forall input :: input in inputs <==> input in all
    ensures ArtifactsAmong(o, inputs, |inputs|, families) == ArtifactsOf(o, all, families)
  {
    forall a ensures a in ArtifactsAmong(o, inputs, |inputs|, families) <==> a in ArtifactsOf(o, all, families) {
      InArtifacts(o, inputs, |inputs|, families, a);
    }
  }

  // ----------------------------------------------------------- classification

  function RowOf(o: Readers, refs: set<Ref>, a: Artifact): Row {
    Row(IdOf(a), a.family, a.name, ReachOf(o, refs, a))
  }

  /** A row per artifact; ambiguous ones only if asked for. */
  function Classified(o: Readers, refs: set<Ref>, artifacts: seq<Artifact>, includeAmbiguous: bool): seq<Row> {
    if artifacts == [] then []
    else
      var row := RowOf(o, refs, artifacts[|artifacts| - 1]);
      Classified(o, refs, artifacts[..|artifacts| - 1], includeAmbiguous)
      + if row.reachability.Ambiguous? && !includeAmbiguous then [] else [row]
  }

  function RowId(): Row -> string {
    (row: Row) => row.id
  }

  /** A row for each identifier, classified by the references of all files, in order of the identifiers. */
  ghost predicate IsAnalysis(o: Readers, inputs: set<Input>, families: map<string, bool>, includeAmbiguous: bool, rows: seq<Row>) {
    && SortedBy(rows, RowId())
    && exists artifacts :: IsDiscovery(artifacts, ArtifactsOf(o, inputs, families))
                           && multiset(rows) == multiset(Classified(o, RefsOf(o, FilesIn(inputs)), artifacts, includeAmbiguous))
  }

  method Analyze(o: Readers, filesByRepo: map<string, seq<File>>, families: map<string, bool>, includeAmbiguous: bool)
    returns (rows: seq<Row>)
    ensures IsAnalysis(o, InputsOf(filesByRepo), families, includeAmbiguous, rows)
  {
    var found := DiscoverArtifacts(o, filesByRepo, families);
    var index := BuildReferenceIndex(o, filesByRepo);
    rows := Classify(o, index, found, includeAmbiguous);
    rows := SortBy(rows, RowId());
  }

  method Classify(o: Readers, index: ReferenceIndex, found: seq<Artifact>, includeAmbiguous: bool) returns (rows: seq<Row>)
    requires index.Valid()
    ensures rows == Classified(o, index.Refs(), found, includeAmbiguous)
  {
    rows := [];
    for i := 0 to |found|
      invariant rows == Classified(o, index.Refs(), found[..i], includeAmbiguous)
    {
      assert found[..i + 1][..i] == found[..i];
      var row := ClassifyOne(o, index, found[i]);
      if row.reachability.Ambiguous? && !includeAmbiguous {
        continue;
      }
      rows := rows + [row];
    }
    assert found[..|found|] == found;
  }

  /** Used with any used evidence, else ambiguous with any ambiguous evidence, else unused. */
  method ClassifyOne(o: Readers, index: ReferenceIndex, a: Artifact) returns (row: Row)
    requires index.Valid()
    ensures row == RowOf(o, index.Refs(), a)
  {
    var key := ArtifactKey(o, a.family, a.name);
    if key in index.used && |index.used[key]| > 0 {
      return Row(IdOf(a), a.family, a.name, Used);
    }
    if key in index.ambiguous && |index.ambiguous[key]| > 0 {
      return Row(IdOf(a), a.family, a.name, Ambiguous);
    }
    return Row(IdOf(a), a.family, a.name, Unused);
  }

  predicate Inspected(row: Row, includeAmbiguous: bool) {
    row.reachability.Unused? || (row.reachability.Ambiguous? && includeAmbiguous)
  }

  /** The rows that an operator has to look at. */
  function ToInspect(rows: seq<Row>, includeAmbiguous: bool): (r: seq<Row>)
    ensures forall row :: row in r <==> row in rows && Inspected(row, includeAmbiguous)
  {
    if rows == [] then []
    else
      var n := |rows| - 1;
      assert rows == rows[..n] + [rows[n]];
      ToInspect(rows[..n], includeAmbiguous) + if Inspected(rows[n], includeAmbiguous) then [rows[n]] else []
  }

  /** They are in order; never a used artifact, every unused one, ambiguous ones if asked for. */
  method CleanupRows(rows: seq<Row>, includeAmbiguous: bool) returns (findings: seq<Row>)
    ensures SortedBy(findings, RowId()) && multiset(findings) == multiset(ToInspect(rows, includeAmbiguous))
    ensures forall row :: row in findings <==> row in rows && Inspected(row, includeAmbiguous)
  {
    findings := [];
    for i := 0 to |rows|
      invariant findings == ToInspect(rows[..i], includeAmbiguous)
    {
      assert rows[..i + 1][..i] == rows[..i];
      match rows[i].reachability
      case Unused => findings := findings + [rows[i]];
      case Ambiguous =>
        if includeAmbiguous {
          findings := findings + [rows[i]];
        }
      case Used =>
    }
    assert rows[..|rows|] == rows;
    ghost var unsorted := findings;
    findings := SortBy(findings, RowId());
    SameMembers(findings, unsorted);
  }

  // ------------------------------------------------------------- monotonicity

  /** More reached playbooks never take a reference away. */
  lemma MorePlaybooks(o: Readers, file: File, reached: set<string>, more: set<string>)
    requires reached <= more
    ensures PlaybookRefs(o, reached)(file) <= PlaybookRefs(o, more)(file)
  {
    if o.playbookPath(file.relativePath) in reached {
      assert PlaybookRefs(o, reached)(file) == PlaybookRefs(o, more)(file);
    }
  }

  lemma GatheredMore(files: set<File>, more: set<File>, own: File -> set<Ref>, p: File -> set<Ref>, q: File -> set<Ref>)
    requires files <= more && forall file :: p(file) <= q(file)
    ensures Gathered(files, Sum(own, p)) <= Gathered(more, Sum(own, q))
  {
    forall r | r in Gathered(files, Sum(own, p)) ensures r in Gathered(more, Sum(own, q)) {
      var file :| file in files && r in Sum(own, p)(file);
      assert file in more && r in Sum(own, q)(file);
    }
  }

  lemma MoreFilesMoreRefs(o: Readers, files: set<File>, more: set<File>)
    requires files <= more
    ensures RefsOf(o, files) <= RefsOf(o, more)
  {
    var reached, further := ReachedPlaybooks(o, files), ReachedPlaybooks(o, more);
    forall file ensures PlaybookRefs(o, reached)(file) <= PlaybookRefs(o, further)(file) {
      MorePlaybooks(o, file, reached, further);
    }
    GatheredMore(files, more, OwnRefs(o), PlaybookRefs(o, reached), PlaybookRefs(o, further));
  }

  /** Adding files, to any repository, never lowers an artifact. */
  lemma AddingFilesNeverLowers(o: Readers, files: set<File>, more: set<File>, a: Artifact)
    requires files <= more
    ensures Level(ReachOf(o, RefsOf(o, files), a)) <= Level(ReachOf(o, RefsOf(o, more), a))
  {
    MoreFilesMoreRefs(o, files, more);
  }

  /** Row `i` is that of artifact `i` when ambiguous rows are kept. */
  lemma {:induction false} ClassifiedAt(o: Readers, refs: set<Ref>, artifacts: seq<Artifact>, i: nat)
    requires i < |artifacts|
    ensures |Classified(o, refs, artifacts, true)| == |artifacts|
    ensures Classified(o, refs, artifacts, true)[i] == RowOf(o, refs, artifacts[i])
  {
    var n := |artifacts| - 1;
    if i < n {
      ClassifiedAt(o, refs, artifacts[..n], i);
    } else if n > 0 {
      ClassifiedAt(o, refs, artifacts[..n], n - 1);
    }
  }

  lemma RowsAreClassified(o: Readers, refs: set<Ref>, artifacts: seq<Artifact>, row: Row)
    ensures row in Classified(o, refs, artifacts, true) <==>
      exists i :: 0 <= i < |artifacts| && row == RowOf(o, refs, artifacts[i])
  {
    if artifacts != [] {
      forall i | 0 <= i < |artifacts|
        ensures |Classified(o, refs, artifacts, true)| == |artifacts|
        ensures Classified(o, refs, artifacts, true)[i] == RowOf(o, refs, artifacts[i])
      {
        ClassifiedAt(o, refs, artifacts, i);
      }
    }
  }

  lemma SameKeySameReach(o: Readers, refs: set<Ref>, a: Artifact, b: Artifact)
    requires a.family == b.family && a.name == b.name
    ensures ReachOf(o, refs, a) == ReachOf(o, refs, b)
  {
  }

  /** Every row is that of an artifact that some file defines. */
  lemma RowComesFrom(o: Readers, inputs: set<Input>, families: map<string, bool>, rows: seq<Row>, row: Row) returns (a: Artifact)
    requires IsAnalysis(o, inputs, families, true, rows) && row in rows
    ensures a in ArtifactsOf(o, inputs, families) && row == RowOf(o, RefsOf(o, FilesIn(inputs)), a)
  {
    var refs, all := RefsOf(o, FilesIn(inputs)), ArtifactsOf(o, inputs, families);
    var artifacts :| IsDiscovery(artifacts, all) && multiset(rows) == multiset(Classified(o, refs, artifacts, true));
    SameMembers(rows, Classified(o, refs, artifacts, true));
    RowsAreClassified(o, refs, artifacts, row);
    var i :| 0 <= i < |artifacts| && row == RowOf(o, refs, artifacts[i]);
    a := artifacts[i];
  }

  lemma KeptHasRow(o: Readers, refs: set<Ref>, artifacts: seq<Artifact>, a: Artifact) returns (row: Row)
    requires Kept(artifacts, a)
    ensures row in Classified(o, refs, artifacts, true) && row.id == IdOf(a)
  {
    var j :| 0 <= j < |artifacts| && IdOf(artifacts[j]) == IdOf(a);
    row := RowOf(o, refs, artifacts[j]);
    ClassifiedAt(o, refs, artifacts, j);
  }

  /** Every artifact's identifier has a row. */
  lemma IdHasRow(o: Readers, inputs: set<Input>, families: map<string, bool>, rows: seq<Row>, a: Artifact) returns (row: Row)
    requires IsAnalysis(o, inputs, families, true, rows) && a in ArtifactsOf(o, inputs, families)
    ensures row in rows && row.id == IdOf(a)
  {
    var refs, all := RefsOf(o, FilesIn(inputs)), ArtifactsOf(o, inputs, families);
    var artifacts :| IsDiscovery(artifacts, all) && multiset(rows) == multiset(Classified(o, refs, artifacts, true));
    SameMembers(rows, Classified(o, refs, artifacts, true));
    row := KeptHasRow(o, refs, artifacts, a);
  }

  /**
    Two analyses, in whatever order they go through the files, of which the second sees more:
    every row still has its identifier in the second, and no row of the same artifact is lower.
   */
  lemma RowsNeverLower(o: Readers, inputs: set<Input>, more: set<Input>, families: map<string, bool>,
                       before: seq<Row>, after: seq<Row>, row: Row)
    requires inputs <= more && row in before
    requires IsAnalysis(o, inputs, families, true, before) && IsAnalysis(o, more, families, true, after)
    ensures exists i :: 0 <= i < |after| && after[i].id == row.id
    ensures forall next :: next in after && next.family == row.family && next.name == row.name ==>
      Level(row.reachability) <= Level(next.reachability)
  {
    var a := RowComesFrom(o, inputs, families, before, row);
    var there := IdHasRow(o, more, families, after, a);
    forall next | next in after && next.family == row.family && next.name == row.name
      ensures Level(row.reachability) <= Level(next.reachability)
    {
      var b := RowComesFrom(o, more, families, after, next);
      SameKeySameReach(o, RefsOf(o, FilesIn(more)), b, a);
      AddingFilesNeverLowers(o, FilesIn(inputs), FilesIn(more), a);
    }
  }

  /** An analysis has exactly the rows of the artifacts kept: used if referenced, else ambiguous, else unused. */
  lemma RowsAreRight(o: Readers, inputs: set<Input>, families: map<string, bool>, rows: seq<Row>, row: Row)
    requires IsAnalysis(o, inputs, families, true, rows) && row in rows
    ensures exists a :: a in ArtifactsOf(o, inputs, families) && row.id == IdOf(a) && row.family == a.family && row.name == a.name
    ensures var refs, key := RefsOf(o, FilesIn(inputs)), ArtifactKey(o, row.family, row.name);
      && (row.reachability.Used? <==> Ref(true, key) in refs)
      && (row.reachability.Unused? <==> Ref(true, key) !in refs && Ref(false, key) !in refs)
  {
    var a := RowComesFrom(o, inputs, families, rows, row);
  }

  /** An empty filter keeps every artifact that a file defines; any other keeps those of the families it sets. */
  lemma FilterKeeps(o: Readers, inputs: set<Input>, families: map<string, bool>, a: Artifact)
    ensures families == map[] ==>
      (a in ArtifactsOf(o, inputs, families) <==> exists input :: input in inputs && a in o.artifacts(input.repo, input.file))
    ensures families != map[] ==>
      (a in ArtifactsOf(o, inputs, families) <==>
         a.family in families && families[a.family] && exists input :: input in inputs && a in o.artifacts(input.repo, input.file))
  {
    if families != map[] {
      var family :| family in families;
      assert |families| != 0;
    }
  }
}
