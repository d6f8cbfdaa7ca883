/** What makes an artifact look used or ambiguous, read off the files. */
module IacReferences {

  import opened GoStrings
  import opened IacReachability

  /** The text, without spaces and quotes around it, names the artifact with this key. */
  predicate Names(o: Readers, family: string, text: string, key: string) {
    var name := TrimQuotes(TrimSpace(text));
    name != "" && key == family + ":" + o.lower(TrimSpace(o.base(name)))
  }

  /** A source of a module that stands for itself. */
  ghost predicate TerraformUses(o: Readers, file: File, key: string) {
    exists source :: source in o.sources(file.content) && !Dynamic(o, source) && o.contains(source, "/modules/")
                     && Names(o, "terraform", source, key)
  }

  /** A field that names a chart. */
  ghost predicate HelmUses(o: Readers, file: File, key: string) {
    exists field :: field in o.fields(file.content) && o.contains(TrimQuotes(field), "charts/")
                    && !Dynamic(o, TrimQuotes(field)) && Names(o, "helm", After(TrimQuotes(field), "charts/"), key)
  }

  /** A list item of a playbook without templates that some file runs. */
  ghost predicate AnsibleUses(o: Readers, files: set<File>, file: File, key: string) {
    && Runs(o, files, file) && !o.contains(file.content, "{{")
    && exists text :: text in o.lines(file.content) && HasPrefix(TrimSpace(text), "- ")
                      && Names(o, "ansible", TrimSpace(TrimSpace(text)[2..]), key)
  }

  ghost predicate Runs(o: Readers, files: set<File>, playbook: File) {
    exists file, found :: file in files && found in o.playbooks(file.content)
                          && o.playbookPath(found) == o.playbookPath(playbook.relativePath)
  }

  /** A path of a line "path: ...", or of a list item in a kustomization. */
  ghost predicate PathOn(o: Readers, file: File, text: string, path: string) {
    var line := TrimSpace(text);
    || (HasPrefix(line, "path:") && path == TrimQuotes(TrimSpace(TrimSpace(line[5..]))))
    || (!HasPrefix(line, "path:") && o.kustomization(file.relativePath) && HasPrefix(line, "- ")
        && path == TrimQuotes(TrimSpace(TrimSpace(line[2..]))))
  }

  ghost predicate KustomizeUsesOn(o: Readers, file: File, text: string, key: string) {
    exists path :: PathOn(o, file, text, path) && o.kustomizeLike(path) && !Dynamic(o, path) && Names(o, "kustomize", path, key)
  }

  ghost predicate KustomizeUses(o: Readers, file: File, key: string) {
    exists text :: text in o.lines(file.content) && KustomizeUsesOn(o, file, text, key)
  }

  predicate ComposeLine(o: Readers, line: string) {
    o.contains(line, "docker compose") || o.contains(line, "docker-compose")
  }

  ghost predicate ComposeUses(o: Readers, file: File, key: string) {
    exists text, service :: text in o.lines(file.content) && ComposeLine(o, TrimSpace(text)) && !Dynamic(o, TrimSpace(text))
                            && service in o.services(TrimSpace(text)) && Names(o, "compose", service, key)
  }

  lemma NameRefsIff(o: Readers, used: bool, family: string, text: string, r: Ref)
    ensures r in NameRefs(o, used, family)(text) <==> r.used == used && Names(o, family, text, r.key)
  {
    assert forall key :: (family + ":") + key == family + ":" + key;
  }

  lemma TokenRefsIff(o: Readers, family: string, content: string, r: Ref)
    ensures r in TokenRefs(o, family, content) <==>
      !r.used && exists token :: token in o.tokens(content) && Names(o, family, token, r.key)
  {
    forall token ensures r in NameRefs(o, false, family)(token) <==> !r.used && Names(o, family, token, r.key) {
      NameRefsIff(o, false, family, token, r);
    }
  }

  lemma TerraformIff(o: Readers, file: File, key: string)
    ensures Ref(true, key) in Union(o.sources(file.content), TerraformRefs(o, file.content)) <==> TerraformUses(o, file, key)
  {
    var r := Ref(true, key);
    forall source ensures r in TerraformRefs(o, file.content)(source) <==>
      !Dynamic(o, source) && o.contains(source, "/modules/") && Names(o, "terraform", source, key)
    {
      NameRefsIff(o, true, "terraform", source, r);
      TokenRefsIff(o, "terraform", file.content, r);
    }
  }

  lemma HelmIff(o: Readers, file: File, key: string)
    ensures Ref(true, key) in Union(o.fields(file.content), HelmRefs(o, file.content)) <==> HelmUses(o, file, key)
  {
    var r := Ref(true, key);
    forall field ensures r in HelmRefs(o, file.content)(field) <==>
      o.contains(TrimQuotes(field), "charts/") && !Dynamic(o, TrimQuotes(field))
      && Names(o, "helm", After(TrimQuotes(field), "charts/"), key)
    {
      NameRefsIff(o, true, "helm", After(TrimQuotes(field), "charts/"), r);
      TokenRefsIff(o, "helm", file.content, r);
    }
  }

  lemma AnsibleIff(o: Readers, files: set<File>, file: File, key: string)
    requires file.content != ""
    ensures Ref(true, key) in PlaybookRefs(o, ReachedPlaybooks(o, files))(file) <==> AnsibleUses(o, files, file, key)
  {
    var r := Ref(true, key);
    TokenRefsIff(o, "ansible", file.content, r);
    forall text ensures r in AnsibleRefs(o)(text) <==>
      HasPrefix(TrimSpace(text), "- ") && Names(o, "ansible", TrimSpace(TrimSpace(text)[2..]), key)
    {
      if HasPrefix(TrimSpace(text), "- ") {
        NameRefsIff(o, true, "ansible", TrimSpace(TrimSpace(text)[2..]), r);
      }
    }
    assert o.playbookPath(file.relativePath) in ReachedPlaybooks(o, files) <==> Runs(o, files, file);
  }

  lemma KustomizePathIff(o: Readers, content: string, raw: string, key: string)
    ensures Ref(true, key) in KustomizePathRefs(o, content, raw) <==>
      var path := TrimQuotes(TrimSpace(raw));
      o.kustomizeLike(path) && !Dynamic(o, path) && Names(o, "kustomize", path, key)
  {
    var path := TrimQuotes(TrimSpace(raw));
    NameRefsIff(o, true, "kustomize", path, Ref(true, key));
    TokenRefsIff(o, "kustomize", content, Ref(true, key));
    assert TrimQuotes(TrimSpace("")) == "";
  }

  lemma KustomizeIff(o: Readers, file: File, key: string)
    ensures Ref(true, key) in Union(o.lines(file.content), KustomizeRefs(o, file)) <==> KustomizeUses(o, file, key)
  {
    var r := Ref(true, key);
    forall text ensures r in KustomizeRefs(o, file)(text) <==> KustomizeUsesOn(o, file, text, key) {
      var line := TrimSpace(text);
      if HasPrefix(line, "path:") {
        KustomizePathIff(o, file.content, TrimSpace(line[5..]), key);
        assert PathOn(o, file, text, TrimQuotes(TrimSpace(TrimSpace(line[5..]))));
      } else if HasPrefix(line, "- ") {
        KustomizePathIff(o, file.content, TrimSpace(line[2..]), key);
        assert o.kustomization(file.relativePath) ==> PathOn(o, file, text, TrimQuotes(TrimSpace(TrimSpace(line[2..]))));
      }
    }
  }

  lemma ComposeIff(o: Readers, file: File, key: string)
    ensures Ref(true, key) in Union(o.lines(file.content), ComposeRefs(o, file.content)) <==> ComposeUses(o, file, key)
  {
    var r := Ref(true, key);
    forall text ensures r in ComposeRefs(o, file.content)(text) <==>
      var line := TrimSpace(text);
      ComposeLine(o, line) && !Dynamic(o, line) && exists service :: service in o.services(line) && Names(o, "compose", service, key)
    {
      var line := TrimSpace(text);
      TokenRefsIff(o, "compose", file.content, r);
      forall service ensures r in NameRefs(o, true, "compose")(service) <==> Names(o, "compose", service, key) {
        NameRefsIff(o, true, "compose", service, r);
      }
    }
  }

  /** The key is used by something that the file says. */
  ghost predicate Uses(o: Readers, files: set<File>, file: File, key: string) {
    && file.content != ""
    && (TerraformUses(o, file, key) || HelmUses(o, file, key) || AnsibleUses(o, files, file, key)
        || KustomizeUses(o, file, key) || ComposeUses(o, file, key))
  }

  lemma FileUsesIff(o: Readers, files: set<File>, file: File, key: string)
    ensures Ref(true, key) in Sum(OwnRefs(o), PlaybookRefs(o, ReachedPlaybooks(o, files)))(file) <==> Uses(o, files, file, key)
  {
    if file.content != "" {
      TerraformIff(o, file, key);
      HelmIff(o, file, key);
      AnsibleIff(o, files, file, key);
      KustomizeIff(o, file, key);
      ComposeIff(o, file, key);
    }
  }

  /** An artifact is used exactly if some file says so in one of the five ways. */
  lemma UsedIff(o: Readers, files: set<File>, a: Artifact)
    ensures ReachOf(o, RefsOf(o, files), a).Used? <==> exists file :: file in files && Uses(o, files, file, ArtifactKey(o, a.family, a.name))
  {
    var key := ArtifactKey(o, a.family, a.name);
    forall file ensures Ref(true, key) in Sum(OwnRefs(o), PlaybookRefs(o, ReachedPlaybooks(o, files)))(file) <==> Uses(o, files, file, key) {
      FileUsesIff(o, files, file, key);
    }
  }

  // ------------------------------------------------------------ what is unclear

  /** Some word of the file names the artifact. */
  ghost predicate WordNames(o: Readers, family: string, file: File, key: string) {
    exists token :: token in o.tokens(file.content) && Names(o, family, token, key)
  }

  ghost predicate TerraformUnclear(o: Readers, file: File) {
    exists source :: source in o.sources(file.content) && Dynamic(o, source)
  }

  ghost predicate HelmUnclear(o: Readers, file: File) {
    exists field :: field in o.fields(file.content) && o.contains(TrimQuotes(field), "charts/") && Dynamic(o, TrimQuotes(field))
  }

  ghost predicate KustomizeUnclearOn(o: Readers, file: File, text: string) {
    exists path :: PathOn(o, file, text, path) && path != "" && Dynamic(o, path)
  }

  ghost predicate KustomizeUnclear(o: Readers, file: File) {
    exists text :: text in o.lines(file.content) && KustomizeUnclearOn(o, file, text)
  }

  ghost predicate ComposeUnclear(o: Readers, file: File) {
    exists text :: text in o.lines(file.content) && ComposeLine(o, TrimSpace(text)) && Dynamic(o, TrimSpace(text))
  }

  /** The file has a reference that may mean anything, and a word that names the artifact. */
  ghost predicate MayUse(o: Readers, files: set<File>, file: File, key: string) {
    && file.content != ""
    && (|| (TerraformUnclear(o, file) && WordNames(o, "terraform", file, key))
        || (HelmUnclear(o, file) && WordNames(o, "helm", file, key))
        || (Runs(o, files, file) && o.contains(file.content, "{{") && WordNames(o, "ansible", file, key))
        || (KustomizeUnclear(o, file) && WordNames(o, "kustomize", file, key))
        || (ComposeUnclear(o, file) && WordNames(o, "compose", file, key)))
  }

  lemma TerraformUnclearIff(o: Readers, file: File, key: string)
    ensures Ref(false, key) in Union(o.sources(file.content), TerraformRefs(o, file.content)) <==>
      TerraformUnclear(o, file) && WordNames(o, "terraform", file, key)
  {
    var r := Ref(false, key);
    TokenRefsIff(o, "terraform", file.content, r);
    forall source ensures r in TerraformRefs(o, file.content)(source) <==> Dynamic(o, source) && WordNames(o, "terraform", file, key) {
      NameRefsIff(o, true, "terraform", source, r);
    }
  }

  lemma HelmUnclearIff(o: Readers, file: File, key: string)
    ensures Ref(false, key) in Union(o.fields(file.content), HelmRefs(o, file.content)) <==>
      HelmUnclear(o, file) && WordNames(o, "helm", file, key)
  {
    var r := Ref(false, key);
    TokenRefsIff(o, "helm", file.content, r);
    forall field ensures r in HelmRefs(o, file.content)(field) <==>
      o.contains(TrimQuotes(field), "charts/") && Dynamic(o, TrimQuotes(field)) && WordNames(o, "helm", file, key)
    {
      NameRefsIff(o, true, "helm", After(TrimQuotes(field), "charts/"), r);
    }
  }

  lemma AnsibleUnclearIff(o: Readers, files: set<File>, file: File, key: string)
    requires file.content != ""
    ensures Ref(false, key) in PlaybookRefs(o, ReachedPlaybooks(o, files))(file) <==>
      Runs(o, files, file) && o.contains(file.content, "{{") && WordNames(o, "ansible", file, key)
  {
    var r := Ref(false, key);
    TokenRefsIff(o, "ansible", file.content, r);
    forall text ensures r !in AnsibleRefs(o)(text) {
      if HasPrefix(TrimSpace(text), "- ") {
        NameRefsIff(o, true, "ansible", TrimSpace(TrimSpace(text)[2..]), r);
      }
    }
    assert o.playbookPath(file.relativePath) in ReachedPlaybooks(o, files) <==> Runs(o, files, file);
  }

  lemma KustomizeUnclearIff(o: Readers, file: File, key: string)
    ensures Ref(false, key) in Union(o.lines(file.content), KustomizeRefs(o, file)) <==>
      KustomizeUnclear(o, file) && WordNames(o, "kustomize", file, key)
  {
    var r := Ref(false, key);
    TokenRefsIff(o, "kustomize", file.content, r);
    forall text ensures r in KustomizeRefs(o, file)(text) <==> KustomizeUnclearOn(o, file, text) && WordNames(o, "kustomize", file, key) {
      var line := TrimSpace(text);
      if HasPrefix(line, "path:") {
        var path := TrimQuotes(TrimSpace(TrimSpace(line[5..])));
        NameRefsIff(o, true, "kustomize", path, r);
        assert PathOn(o, file, text, path);
      } else if HasPrefix(line, "- ") {
        var path := TrimQuotes(TrimSpace(TrimSpace(line[2..])));
        NameRefsIff(o, true, "kustomize", path, r);
        assert o.kustomization(file.relativePath) ==> PathOn(o, file, text, path);
      }
    }
  }

  lemma ComposeUnclearIff(o: Readers, file: File, key: string)
    ensures Ref(false, key) in Union(o.lines(file.content), ComposeRefs(o, file.content)) <==>
      ComposeUnclear(o, file) && WordNames(o, "compose", file, key)
  {
    var r := Ref(false, key);
    TokenRefsIff(o, "compose", file.content, r);
    forall text ensures r in ComposeRefs(o, file.content)(text) <==>
      ComposeLine(o, TrimSpace(text)) && Dynamic(o, TrimSpace(text)) && WordNames(o, "compose", file, key)
    {
      forall service ensures r !in NameRefs(o, true, "compose")(service) {
        NameRefsIff(o, true, "compose", service, r);
      }
    }
  }

  lemma FileMayUseIff(o: Readers, files: set<File>, file: File, key: string)
    ensures Ref(false, key) in Sum(OwnRefs(o), PlaybookRefs(o, ReachedPlaybooks(o, files)))(file) <==> MayUse(o, files, file, key)
  {
    if file.content != "" {
      TerraformUnclearIff(o, file, key);
      HelmUnclearIff(o, file, key);
      AnsibleUnclearIff(o, files, file, key);
      KustomizeUnclearIff(o, file, key);
      ComposeUnclearIff(o, file, key);
    }
  }

  /** An artifact is ambiguous exactly if no file uses it and some file may. */
  lemma AmbiguousIff(o: Readers, files: set<File>, a: Artifact)
    ensures var key := ArtifactKey(o, a.family, a.name);
      ReachOf(o, RefsOf(o, files), a).Ambiguous? <==>
        (forall file :: file in files ==> !Uses(o, files, file, key)) && exists file :: file in files && MayUse(o, files, file, key)
  {
    var key := ArtifactKey(o, a.family, a.name);
    UsedIff(o, files, a);
    forall file ensures Ref(false, key) in Sum(OwnRefs(o), PlaybookRefs(o, ReachedPlaybooks(o, files)))(file) <==> MayUse(o, files, file, key) {
      FileMayUseIff(o, files, file, key);
    }
  }
}
