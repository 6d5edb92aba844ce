/** What a Compose document refers to, resolved inside the repository. */
module References {
  import opened Paths
  import opened Values

  /** One file to be read; a Compose document resolves its own references against `base`. */
  datatype Document = Document(path: Text, base: Text, compose: bool, optional: bool)

  // ---------- what a parsed document refers to ----------

  datatype FileReference = FileReference(raw: Text, compose: bool, optional: bool)

  datatype Include = Include(paths: seq<Text>, projectDirectory: Option<Text>, envFiles: Option<seq<FileReference>>)

  datatype BindMount = BindMount(source: Text, readOnly: bool)

  /** The references of a document, as the YAML reader finds them. */
  datatype Parsed = Parsed(files: seq<FileReference>, includes: seq<Include>, binds: seq<BindMount>)

  // ---------- paths ----------

  /** Relative, clean, and not above the root; the root itself is ".". */
  predicate ValidPath(value: Text) {
    value != [] && !Rooted(value) && Clean(value) == value && !Escapes(value)
  }

  lemma {:induction false} ValidIffMember(value: Text)
    ensures ValidPath(value) <==> value == DOT || (value != [] && !Rooted(value) && AllOrdinary(Split(value)))
  {
    if value == DOT {
      DotIsClean();
    } else if value != [] && !Rooted(value) {
      CanonicalIffOrdinary(value);
    }
  }

  function ResolvePath(raw: Text, base: Text): Option<Text> {
    if raw == [] || 36 in raw || 58 in raw || raw[0] == 126 || Rooted(raw) then None
    else
      var path := Clean(Joined(base, raw));
      if ValidPath(path) then Some(path) else None
  }

  /** The bytes of ".env". */
  const ENV: Text := [46, 101, 110, 118]

  function DefaultEnv(base: Text): Text {
    Joined(base, ENV)
  }

  /** The directory of a valid path is a valid path. */
  lemma {:induction false} DirIsValid(path: Text)
    requires ValidPath(path)
    ensures ValidPath(Dir(path))
  {
    ValidIffMember(path);
    if path == DOT {
      assert DirectoryPart(DOT) == [];
      SplitOfText([]);
      assert Dir(path) == DOT;
    } else {
      var parts := Split(path);
      JoinOfSplit(path);
      DirOfMember(parts);
      if |parts| > 1 {
        var front := parts[..|parts| - 1];
        MemberIsRelative(front);
        SplitOfJoin(front);
        ValidIffMember(Join(front));
      }
    }
    DotIsClean();
  }

  lemma {:induction false} EnvIsOrdinary()
    ensures Ordinary(ENV) && Split(ENV) == [ENV] && ENV != [] && !Rooted(ENV)
  {
    SplitOfText(ENV);
  }

  /** So is the path of the default environment file beside it. */
  lemma {:induction false} DefaultEnvIsValid(base: Text)
    requires ValidPath(base)
    ensures ValidPath(DefaultEnv(base))
  {
    ValidIffMember(base);
    EnvIsOrdinary();
    var parts := if base == DOT then [] else Split(base);
    if base == DOT {
      SplitOfText(DOT);
    } else {
      JoinOfSplit(base);
    }
    SplitOfJoined(base, ENV);
    EnvWalk(base, parts);
    var all := parts + [ENV];
    MemberIsRelative(all);
    SplitOfJoin(all);
    ValidIffMember(Join(all));
  }

  lemma {:induction false} EnvWalk(base: Text, parts: seq<Text>)
    requires AllOrdinary(parts) && Ordinary(ENV)
    requires Split(base + [SLASH] + ENV) == Split(base) + [ENV] && base != [] && !Rooted(base)
    requires Split(base) == if parts == [] then [DOT] else parts
    ensures DefaultEnv(base) == Join(parts + [ENV])
  {
    var walked := Walk([], Split(base) + [ENV], false);
    WalkJoins([], Split(base), [ENV]);
    if parts == [] {
      assert Walk([], [DOT], false) == Walk([], [], false);
    } else {
      OrdinaryWalk([], parts);
      assert [] + parts == parts;
    }
    OrdinaryWalk(parts, [ENV]);
    assert !Rooted(base + [SLASH] + ENV);
  }

  // ---------- collecting references ----------

  function CollectedPath(reference: FileReference, base: Text): Option<Document> {
    var path := ResolvePath(reference.raw, base);
    if path.None? then None
    else Some(Document(path.value, Dir(path.value), reference.compose, reference.optional))
  }

  function Collector(base: Text): FileReference -> Option<Document> {
    (r: FileReference) => CollectedPath(r, base)
  }

  function CollectedFiles(references: seq<FileReference>, base: Text): Option<seq<Document>> {
    All(references, Collector(base))
  }

  function ResolvedPaths(raws: seq<Text>, base: Text): (paths: Option<seq<Text>>)
    ensures paths.Some? ==> |paths.value| == |raws|
  {
    All(raws, (raw: Text) => ResolvePath(raw, base))
  }

  function IncludedDocuments(paths: seq<Text>, base: Text): seq<Document> {
    seq(|paths|, i requires 0 <= i < |paths| => Document(paths[i], base, true, false))
  }

  /** The directory that an inclusion resolves against: its own choice, or that of its first path. */
  function ProjectBase(inclusion: Include, paths: seq<Text>, base: Text): Option<Text>
    requires paths != []
  {
    if inclusion.projectDirectory.None? then Some(Dir(paths[0]))
    else ResolvePath(inclusion.projectDirectory.value, base)
  }

  function DefaultEnvOf(inclusion: Include, projectBase: Text): seq<Document> {
    if inclusion.envFiles.None? then [Document(DefaultEnv(projectBase), [], false, true)] else []
  }

  function CollectedInclude(inclusion: Include, base: Text): Option<seq<Document>> {
    var paths := ResolvedPaths(inclusion.paths, base);
    if paths.None? || inclusion.paths == [] then None
    else
      var envFiles :=
        if inclusion.envFiles.None? then Some([]) else CollectedFiles(inclusion.envFiles.value, base);
      var projectBase := ProjectBase(inclusion, paths.value, base);
      if envFiles.None? || projectBase.None? then None
      else
        Some(envFiles.value + IncludedDocuments(paths.value, projectBase.value) +
             DefaultEnvOf(inclusion, projectBase.value))
  }

  function CollectedIncludes(includes: seq<Include>, base: Text): Option<seq<Document>> {
    if includes == [] then Some([])
    else
      var front := CollectedIncludes(includes[..|includes| - 1], base);
      var last := CollectedInclude(includes[|includes| - 1], base);
      if front.None? || last.None? then None else Some(front.value + last.value)
  }

  /** None when the mount is refused, an empty list when it needs nothing from the repository. */
  function CollectedBind(bind: BindMount, base: Text): Option<seq<Text>> {
    if Rooted(bind.source) then
      if Clean(bind.source) != bind.source || 36 in bind.source || 0 in bind.source then None else Some([])
    else
      var path := ResolvePath(bind.source, base);
      if path.None? || path.value == DOT || !bind.readOnly then None else Some([path.value])
  }

  function CollectedBinds(binds: seq<BindMount>, base: Text): Option<seq<Text>> {
    if binds == [] then Some([])
    else
      var front := CollectedBinds(binds[..|binds| - 1], base);
      var last := CollectedBind(binds[|binds| - 1], base);
      if front.None? || last.None? then None else Some(front.value + last.value)
  }

  datatype References = References(documents: seq<Document>, runtimePaths: seq<Text>)

  function ReferencesOf(parsed: Parsed, base: Text): Option<References> {
    var files := CollectedFiles(parsed.files, base);
    var includes := CollectedIncludes(parsed.includes, base);
    var binds := CollectedBinds(parsed.binds, base);
    if files.None? || includes.None? || binds.None? then None
    else Some(References(files.value + includes.value, binds.value))
  }

  /** A document that can be read, and resolved against if it is a Compose document. */
  predicate ValidDocument(d: Document) {
    ValidPath(d.path) && (d.compose ==> ValidPath(d.base))
  }

  predicate ValidDocuments(documents: seq<Document>) {
    forall i | 0 <= i < |documents| :: ValidDocument(documents[i])
  }

  lemma {:induction false} AllAt<A, B>(values: seq<A>, parse: A -> Option<B>, i: nat)
    requires All(values, parse).Some? && i < |values|
    ensures parse(values[i]) == Some(All(values, parse).value[i])
  {
    if i < |values| - 1 {
      AllAt(values[..|values| - 1], parse, i);
    }
  }

  lemma {:induction false} CollectedFilesAreValid(references: seq<FileReference>, base: Text)
    requires CollectedFiles(references, base).Some?
    ensures ValidDocuments(CollectedFiles(references, base).value)
  {
    forall i | 0 <= i < |references|
      ensures ValidDocument(CollectedFiles(references, base).value[i])
    {
      AllAt(references, Collector(base), i);
      DirIsValid(CollectedPath(references[i], base).value.path);
    }
  }

  lemma {:induction false} ResolvedAreValid(raws: seq<Text>, base: Text)
    requires ResolvedPaths(raws, base).Some?
    ensures forall i | 0 <= i < |raws| :: ValidPath(ResolvedPaths(raws, base).value[i])
  {
    forall i | 0 <= i < |raws|
      ensures ValidPath(ResolvedPaths(raws, base).value[i])
    {
      AllAt(raws, (raw: Text) => ResolvePath(raw, base), i);
    }
  }

  lemma {:induction false} CollectedIncludeIsValid(inclusion: Include, base: Text)
    requires CollectedInclude(inclusion, base).Some?
    ensures ValidDocuments(CollectedInclude(inclusion, base).value)
  {
    var paths := ResolvedPaths(inclusion.paths, base).value;
    ResolvedAreValid(inclusion.paths, base);
    DirIsValid(paths[0]);
    var projectBase := ProjectBase(inclusion, paths, base).value;
    DefaultEnvIsValid(projectBase);
    if inclusion.envFiles.Some? {
      CollectedFilesAreValid(inclusion.envFiles.value, base);
    }
  }

  lemma {:induction false} CollectedIncludesAreValid(includes: seq<Include>, base: Text)
    requires CollectedIncludes(includes, base).Some?
    ensures ValidDocuments(CollectedIncludes(includes, base).value)
  {
    if includes != [] {
      CollectedIncludesAreValid(includes[..|includes| - 1], base);
      CollectedIncludeIsValid(includes[|includes| - 1], base);
    }
  }

  lemma {:induction false} CollectedBindsAreValid(binds: seq<BindMount>, base: Text)
    requires CollectedBinds(binds, base).Some?
    ensures forall i | 0 <= i < |CollectedBinds(binds, base).value| ::
      ValidPath(CollectedBinds(binds, base).value[i])
  {
    if binds != [] {
      CollectedBindsAreValid(binds[..|binds| - 1], base);
    }
  }

  /** Whatever a document refers to stays inside the repository. */
  lemma {:induction false} ReferencesAreValid(parsed: Parsed, base: Text)
    requires ReferencesOf(parsed, base).Some?
    ensures ValidDocuments(ReferencesOf(parsed, base).value.documents)
    ensures forall i | 0 <= i < |ReferencesOf(parsed, base).value.runtimePaths| ::
      ValidPath(ReferencesOf(parsed, base).value.runtimePaths[i])
  {
    CollectedFilesAreValid(parsed.files, base);
    CollectedIncludesAreValid(parsed.includes, base);
    CollectedBindsAreValid(parsed.binds, base);
  }

  lemma {:induction false} AllNext<A, B>(values: seq<A>, parse: A -> Option<B>, i: nat, results: seq<B>)
    requires i < |values| && All(values[..i], parse) == Some(results) && parse(values[i]).Some?
    ensures All(values[..i + 1], parse) == Some(results + [parse(values[i]).value])
  {
    assert values[..i + 1][..i] == values[..i];
  }

  lemma {:induction false} AllFails<A, B>(values: seq<A>, parse: A -> Option<B>, i: nat)
    requires i < |values| && parse(values[i]).None?
    ensures All(values, parse).None?
  {
    if i < |values| - 1 {
      AllFails(values[..|values| - 1], parse, i);
    }
  }

  lemma {:induction false} AllDone<A, B>(values: seq<A>, parse: A -> Option<B>)
    ensures All(values[..|values|], parse) == All(values, parse)
  {
    assert values[..|values|] == values;
  }

  method CollectPathList(references: seq<FileReference>, base: Text) returns (documents: Option<seq<Document>>)
    ensures documents == CollectedFiles(references, base)
  {
    var result: seq<Document> := [];
    for i := 0 to |references|
      invariant All(references[..i], Collector(base)) == Some(result)
    {
      var document := CollectedPath(references[i], base);
      if document.None? {
        AllFails(references, Collector(base), i);
        return None;
      }
      AllNext(references, Collector(base), i, result);
      result := result + [document.value];
    }
    AllDone(references, Collector(base));
    return Some(result);
  }

  lemma {:induction false} FrontIsCollected(includes: seq<Include>, base: Text)
    requires includes != [] && CollectedIncludes(includes, base).Some?
    ensures CollectedIncludes(includes[..|includes| - 1], base).Some?
  {
  }

  lemma {:induction false} IncludesPrefix(includes: seq<Include>, base: Text, n: nat)
    requires n <= |includes| && CollectedIncludes(includes, base).Some?
    ensures CollectedIncludes(includes[..n], base).Some?
    decreases |includes| - n
  {
    if n < |includes| {
      IncludesPrefix(includes, base, n + 1);
      FrontIsCollected(includes[..n + 1], base);
      assert includes[..n + 1][..n] == includes[..n];
    } else {
      assert includes[..n] == includes;
    }
  }

  method IncludeDocuments(paths: seq<Text>, base: Text) returns (documents: seq<Document>)
    ensures documents == IncludedDocuments(paths, base)
  {
    documents := [];
    for i := 0 to |paths|
      invariant documents == IncludedDocuments(paths, base)[..i]
    {
      documents := documents + [Document(paths[i], base, true, false)];
    }
  }

  method CollectInclude(inclusion: Include, base: Text) returns (documents: Option<seq<Document>>)
    ensures documents == CollectedInclude(inclusion, base)
  {
    var paths := ResolvedPaths(inclusion.paths, base);
    if paths.None? || inclusion.paths == [] {
      return None;
    }
    var result: Option<seq<Document>> := Some([]);
    if inclusion.envFiles.Some? {
      result := CollectPathList(inclusion.envFiles.value, base);
    }
    var projectBase := ProjectBase(inclusion, paths.value, base);
    if result.None? || projectBase.None? {
      return None;
    }
    var included := IncludeDocuments(paths.value, projectBase.value);
    return Some(result.value + included + DefaultEnvOf(inclusion, projectBase.value));
  }

  method CollectIncludes(includes: seq<Include>, base: Text) returns (documents: Option<seq<Document>>)
    ensures documents == CollectedIncludes(includes, base)
  {
    var result: seq<Document> := [];
    for i := 0 to |includes|
      invariant CollectedIncludes(includes[..i], base) == Some(result)
    {
      assert includes[..i + 1][..i] == includes[..i];
      var collected := CollectInclude(includes[i], base);
      if collected.None? {
        if CollectedIncludes(includes, base).Some? {
          IncludesPrefix(includes, base, i + 1);
        }
        return None;
      }
      result := result + collected.value;
    }
    assert includes[..|includes|] == includes;
    return Some(result);
  }

  lemma {:induction false} BindsPrefix(binds: seq<BindMount>, base: Text, n: nat)
    requires n <= |binds| && CollectedBinds(binds, base).Some?
    ensures CollectedBinds(binds[..n], base).Some?
    decreases |binds| - n
  {
    if n < |binds| {
      BindsPrefix(binds, base, n + 1);
      assert binds[..n + 1][..n] == binds[..n];
    } else {
      assert binds[..n] == binds;
    }
  }

  method CollectBindMounts(binds: seq<BindMount>, base: Text) returns (paths: Option<seq<Text>>)
    ensures paths == CollectedBinds(binds, base)
  {
    var result: seq<Text> := [];
    for i := 0 to |binds|
      invariant CollectedBinds(binds[..i], base) == Some(result)
    {
      assert binds[..i + 1][..i] == binds[..i];
      var collected := CollectedBind(binds[i], base);
      if collected.None? {
        if CollectedBinds(binds, base).Some? {
          BindsPrefix(binds, base, i + 1);
        }
        return None;
      }
      result := result + collected.value;
    }
    assert binds[..|binds|] == binds;
    return Some(result);
  }

  method DocumentReferences(parsed: Parsed, base: Text) returns (references: Option<References>)
    ensures references == ReferencesOf(parsed, base)
  {
    var files := CollectPathList(parsed.files, base);
    if files.None? {
      return None;
    }
    var includes := CollectIncludes(parsed.includes, base);
    if includes.None? {
      return None;
    }
    var binds := CollectBindMounts(parsed.binds, base);
    if binds.None? {
      return None;
    }
    return Some(References(files.value + includes.value, binds.value));
  }
}
