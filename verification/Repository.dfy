/** Capturing a Compose source: every tracked file that it reads, and nothing that it does not. */
module Repository {
  import opened Budget
  import opened Encoding
  import opened References
  import opened Tracked
  import opened Values
  import opened Walk
  import Ordering
  import Paths
  import Union
  import WorkloadDigest

  // ---------- runtime paths ----------

  /** The name is the path itself, or lies below it when the path is a directory. */
  predicate Contains(path: Text, name: Text, directory: bool) {
    ValidPath(path) && ValidPath(name) && if directory then path + [Paths.SLASH] <= name else name == path
  }

  /** The name is where it should be, and its file not too large. */
  function Fitting(path: Text, snapshot: PathSnapshot): Text -> bool {
    (name: Text) =>
      name in snapshot.files && Contains(path, name, snapshot.directory) &&
      |snapshot.files[name].content| <= MAXIMUM_SOURCE
  }

  predicate Acceptable(files: map<Text, RepositoryFile>, path: Text, snapshot: PathSnapshot) {
    Mergeable(files, snapshot.files, Fitting(path, snapshot))
  }

  method AddSnapshot(files: map<Text, RepositoryFile>, totalBytes: int, path: Text, snapshot: PathSnapshot)
    returns (more: Option<map<Text, RepositoryFile>>, total: int)
    requires WithinBudget(files) && totalBytes == Total(files)
    ensures more == if Acceptable(files, path, snapshot) then Some(files + snapshot.files) else None
    ensures more.Some? ==> WithinBudget(more.value) && total == Total(more.value)
  {
    more, total := AddFiles(files, totalBytes, snapshot.files, Fitting(path, snapshot));
  }

  /** Every path is there, in full, under its own name. */
  predicate Provides(w: World, files: map<Text, RepositoryFile>, path: RepositoryPath) {
    w.readPath(path.path).Some? &&
    var snapshot := w.readPath(path.path).value;
    path.directory == snapshot.directory && snapshot.files != map[] && Includes(snapshot.files, files)
  }

  lemma {:induction false} IncludesTransitive(
      files: map<Text, RepositoryFile>, middle: map<Text, RepositoryFile>, more: map<Text, RepositoryFile>)
    requires Includes(files, middle) && Includes(middle, more)
    ensures Includes(files, more)
  {
  }

  /** The added name lies at or below one of the runtime paths. */
  predicate Covered(paths: seq<RepositoryPath>, name: Text) {
    exists i | 0 <= i < |paths| :: Contains(paths[i].path, name, paths[i].directory)
  }

  lemma {:induction false} CoveredGrows(paths: seq<RepositoryPath>, path: RepositoryPath, name: Text)
    requires Covered(paths, name) || Contains(path.path, name, path.directory)
    ensures Covered(paths + [path], name)
  {
    if Covered(paths, name) {
      var i :| 0 <= i < |paths| && Contains(paths[i].path, name, paths[i].directory);
      assert (paths + [path])[i] == paths[i];
    } else {
      assert (paths + [path])[|paths|] == path;
    }
  }

  /** The files are those of the walk and of the first runtime paths. */
  predicate Extended(
    w: World, files: map<Text, RepositoryFile>, more: map<Text, RepositoryFile>, paths: seq<RepositoryPath>)
  {
    Includes(files, more) && (forall i | 0 <= i < |paths| :: Provides(w, more, paths[i])) &&
    forall name | name in more && name !in files :: ValidPath(name) && Covered(paths, name)
  }

  lemma {:induction false} ProvidesStill(
      w: World, held: map<Text, RepositoryFile>, more: map<Text, RepositoryFile>, path: RepositoryPath)
    requires Provides(w, held, path) && Includes(held, more)
    ensures Provides(w, more, path)
  {
    IncludesTransitive(w.readPath(path.path).value.files, held, more);
  }

  /** What merging an acceptable snapshot does to what is held. */
  lemma {:induction false} MergedWith(
      held: map<Text, RepositoryFile>, path: Text, snapshot: PathSnapshot, more: map<Text, RepositoryFile>)
    requires Acceptable(held, path, snapshot) && more == held + snapshot.files
    ensures Includes(held, more) && Includes(snapshot.files, more)
    ensures forall name | name in more && name !in held :: ValidPath(name) && Contains(path, name, snapshot.directory)
  {
  }

  lemma {:induction false} ExtendsFurther(
      w: World, files: map<Text, RepositoryFile>, held: map<Text, RepositoryFile>, paths: seq<RepositoryPath>,
      more: map<Text, RepositoryFile>, path: RepositoryPath)
    requires Extended(w, files, held, paths) && Provides(w, more, path) && Includes(held, more)
    requires forall name | name in more && name !in held ::
      ValidPath(name) && Contains(path.path, name, path.directory)
    ensures Extended(w, files, more, paths + [path])
  {
    IncludesTransitive(files, held, more);
    forall i | 0 <= i < |paths| + 1
      ensures Provides(w, more, (paths + [path])[i])
    {
      if i < |paths| {
        ProvidesStill(w, held, more, paths[i]);
      }
    }
    forall name | name in more && name !in files
      ensures ValidPath(name) && Covered(paths + [path], name)
    {
      CoveredGrows(paths, path, name);
    }
  }

  function PathNames(paths: seq<RepositoryPath>): seq<Text> {
    seq(|paths|, i requires 0 <= i < |paths| => paths[i].path)
  }

  function WithPath(w: World, files: map<Text, RepositoryFile>, path: Text): Option<map<Text, RepositoryFile>> {
    var snapshot := w.readPath(path);
    if snapshot.None? || snapshot.value.files == map[] || !Acceptable(files, path, snapshot.value) then None
    else Some(files + snapshot.value.files)
  }

  method AddRuntimePath(w: World, held: map<Text, RepositoryFile>, totalBytes: int, path: Text)
    returns (more: Option<map<Text, RepositoryFile>>, total: int, added: RepositoryPath)
    requires WithinBudget(held) && totalBytes == Total(held)
    ensures more == WithPath(w, held, path)
    ensures more.Some? ==> WithinBudget(more.value) && total == Total(more.value) && added == PathOf(w, path)
  {
    var snapshot := w.readPath(path);
    if snapshot.None? || snapshot.value.files == map[] {
      return None, totalBytes, RepositoryPath(path, false);
    }
    more, total := AddSnapshot(held, totalBytes, path, snapshot.value);
    added := RepositoryPath(path, snapshot.value.directory);
  }

  function PathOf(w: World, path: Text): RepositoryPath {
    RepositoryPath(path, w.readPath(path).Some? && w.readPath(path).value.directory)
  }

  function PathsOf(w: World, ordered: seq<Text>): seq<RepositoryPath> {
    seq(|ordered|, i requires 0 <= i < |ordered| => PathOf(w, ordered[i]))
  }

  lemma {:induction false} PathsOfGrows(w: World, done: seq<Text>, path: Text)
    ensures PathsOf(w, done + [path]) == PathsOf(w, done) + [PathOf(w, path)]
  {
  }

  lemma {:induction false} NamesOfPaths(w: World, ordered: seq<Text>)
    ensures PathNames(PathsOf(w, ordered)) == ordered
  {
  }

  /** The files once all runtime paths were added in ascending order, if they can be. */
  function AllFiles(w: World, files: map<Text, RepositoryFile>, runtime: set<Text>): Option<map<Text, RepositoryFile>> {
    Folded(AddsPath(w), files, Ordering.Ascending(runtime))
  }

  function AddsPath(w: World): (map<Text, RepositoryFile>, Text) -> Option<map<Text, RepositoryFile>> {
    (held: map<Text, RepositoryFile>, path: Text) => WithPath(w, held, path)
  }

  /** Adds the next of the paths to what the ones before it made of the files. */
  method AddNextPath(
      w: World, ghost files: map<Text, RepositoryFile>, ordered: seq<Text>, i: nat, held: map<Text, RepositoryFile>,
      totalBytes: int)
    returns (more: Option<map<Text, RepositoryFile>>, total: int, added: RepositoryPath)
    requires i < |ordered| && Folded(AddsPath(w), files, ordered[..i]) == Some(held)
    requires WithinBudget(held) && totalBytes == Total(held)
    ensures more == Folded(AddsPath(w), files, ordered[..i + 1])
    ensures more.Some? ==>
      WithinBudget(more.value) && total == Total(more.value) &&
      PathsOf(w, ordered[..i + 1]) == PathsOf(w, ordered[..i]) + [added]
  {
    more, total, added := AddRuntimePath(w, held, totalBytes, ordered[i]);
    FoldedGrows(AddsPath(w), files, ordered, i);
    PathsOfGrows(w, ordered[..i], ordered[i]);
    assert ordered[..i + 1] == ordered[..i] + [ordered[i]];
  }

  /** Adds the paths in ascending order. */
  method AddRuntimePaths(w: World, files: map<Text, RepositoryFile>, totalBytes: int, runtime: set<Text>)
    returns (more: Option<map<Text, RepositoryFile>>, paths: seq<RepositoryPath>)
    requires WithinBudget(files) && totalBytes == Total(files)
    ensures more == AllFiles(w, files, runtime)
    ensures more.Some? ==> WithinBudget(more.value) && paths == PathsOf(w, Ordering.Ascending(runtime))
  {
    var ordered := Ordering.Ascending(runtime);
    var held, total := files, totalBytes;
    paths := [];
    for i := 0 to |ordered|
      invariant WithinBudget(held) && total == Total(held)
      invariant paths == PathsOf(w, ordered[..i])
      invariant Folded(AddsPath(w), files, ordered[..i]) == Some(held)
    {
      var more', added;
      more', total, added := AddNextPath(w, files, ordered, i, held, total);
      if more'.None? {
        FoldedStops(AddsPath(w), files, ordered, i + 1);
        return None, paths;
      }
      held, paths := more'.value, paths + [added];
    }
    assert ordered[..|ordered|] == ordered;
    return Some(held), paths;
  }

  /** Whatever the runtime paths add is provided in full, and nothing else is added. */
  lemma {:induction false} AllExtends(
      w: World, files: map<Text, RepositoryFile>, runtime: set<Text>, all: map<Text, RepositoryFile>)
    requires AllFiles(w, files, runtime) == Some(all)
    ensures Extended(w, files, all, PathsOf(w, Ordering.Ascending(runtime)))
  {
    var keeps := (held, done) => Extended(w, files, held, PathsOf(w, done));
    NothingExtends(w, files);
    forall held, done, path | keeps(held, done) && AddsPath(w)(held, path).Some?
      ensures keeps(AddsPath(w)(held, path).value, done + [path])
    {
      NextExtends(w, files, held, done, path, WithPath(w, held, path).value);
    }
    FoldedKeeps(AddsPath(w), files, Ordering.Ascending(runtime), keeps);
  }

  lemma {:induction false} NothingExtends(w: World, files: map<Text, RepositoryFile>)
    ensures Extended(w, files, files, PathsOf(w, []))
  {
  }

  lemma {:induction false} NextExtends(
      w: World, files: map<Text, RepositoryFile>, held: map<Text, RepositoryFile>, done: seq<Text>, path: Text,
      all: map<Text, RepositoryFile>)
    requires Extended(w, files, held, PathsOf(w, done)) && WithPath(w, held, path) == Some(all)
    ensures Extended(w, files, all, PathsOf(w, done + [path]))
  {
    PathsOfGrows(w, done, path);
    WithPathExtends(w, files, held, PathsOf(w, done), path, all);
  }

  lemma {:induction false} WithPathExtends(
      w: World, files: map<Text, RepositoryFile>, held: map<Text, RepositoryFile>, paths: seq<RepositoryPath>,
      path: Text, more: map<Text, RepositoryFile>)
    requires Extended(w, files, held, paths) && WithPath(w, held, path) == Some(more)
    ensures Extended(w, files, more, paths + [PathOf(w, path)])
  {
    MergedWith(held, path, w.readPath(path).value, more);
    ExtendsFurther(w, files, held, paths, more, PathOf(w, path));
  }

  // ---------- the union of the runtime paths ----------

  /** What a runtime path leads to, if it can be taken: some files, all of them below it and not too large. */
  function Offered(w: World): Text -> Option<map<Text, RepositoryFile>> {
    (path: Text) =>
      var snapshot := w.readPath(path);
      if snapshot.None? || snapshot.value.files == map[] || !AllFit(path, snapshot.value) then None
      else Some(snapshot.value.files)
  }

  predicate AllFit(path: Text, snapshot: PathSnapshot) {
    forall name | name in snapshot.files :: Fitting(path, snapshot)(name)
  }

  lemma {:induction false} WithPathTakes(w: World, held: map<Text, RepositoryFile>, path: Text)
    ensures AddsPath(w)(held, path) == Union.Taking(Offered(w))(held, path)
  {
    if w.readPath(path).Some? {
      var snapshot := w.readPath(path).value;
      Union.MergeableTakes(held, snapshot.files, Fitting(path, snapshot));
      FitsAll(path, snapshot);
      TakesAlike(w, held, path, snapshot);
    }
  }

  lemma {:induction false} FitsAll(path: Text, snapshot: PathSnapshot)
    ensures (forall name | name in snapshot.files :: Fitting(path, snapshot)(name)) <==> AllFit(path, snapshot)
  {
  }

  lemma {:induction false} TakesAlike(
      w: World, held: map<Text, RepositoryFile>, path: Text, snapshot: PathSnapshot)
    requires w.readPath(path) == Some(snapshot)
    requires Acceptable(held, path, snapshot) <==> AllFit(path, snapshot) && Union.Takes(held, snapshot.files)
    ensures WithPath(w, held, path) == Union.Taking(Offered(w))(held, path)
  {
  }

  lemma {:induction false} FoldsAlike(w: World, files: map<Text, RepositoryFile>, paths: seq<Text>)
    ensures Folded(AddsPath(w), files, paths) == Folded(Union.Taking(Offered(w)), files, paths)
  {
    if paths != [] {
      var n := |paths| - 1;
      FoldsAlike(w, files, paths[..n]);
      if Folded(AddsPath(w), files, paths[..n]).Some? {
        WithPathTakes(w, Folded(AddsPath(w), files, paths[..n]).value, paths[n]);
      }
    }
  }

  /** Adding the runtime paths gives exactly the union of what they lead to with what is held, if each of
      them can be taken, none contradicts another, and the union is within the budget. */
  lemma {:induction false} AllFilesExactly(
      w: World, files: map<Text, RepositoryFile>, runtime: set<Text>, all: map<Text, RepositoryFile>)
    requires WithinBudget(files)
    ensures AllFiles(w, files, runtime) == Some(all) <==>
            Union.IsUnion(Offered(w), files, runtime, all) && |all| <= MAXIMUM_FILES && Total(all) <= MAXIMUM_BYTES
  {
    var paths := Ordering.Ascending(runtime);
    FoldsAlike(w, files, paths);
    Union.FoldExactly(Offered(w), files, paths, all);
    Union.UnionOfSet(Offered(w), files, paths, runtime, all);
  }

  // ---------- the captured source ----------

  datatype Snapshot = Snapshot(
    root: Text,
    entry: Text,
    files: map<Text, RepositoryFile>,
    runtimePaths: seq<RepositoryPath>,
    preimage: Bytes)

  datatype Source = Source(content: Bytes, environment: map<Text, Text>, repository: Snapshot)

  datatype FileEntry = FileEntry(name: Text, file: RepositoryFile)

  function FileBytes(v: FileEntry): Bytes {
    TextBytes(v.name) + (Flag(v.file.executable) + TextBytes(v.file.content))
  }

  function FileEntries(files: map<Text, RepositoryFile>): seq<FileEntry> {
    var names := Ordering.Ascending(files.Keys);
    seq(|names|, i requires 0 <= i < |names| => assert names[i] in names; FileEntry(names[i], files[names[i]]))
  }

  function PathBytes(v: RepositoryPath): Bytes {
    TextBytes(v.path) + Flag(v.directory)
  }

  /** What the digest of a snapshot is computed over. */
  function RepositoryPreimage(
    entry: Text, files: map<Text, RepositoryFile>, paths: seq<RepositoryPath>, environment: map<Text, Text>): Bytes
  {
    ([3] + TextBytes(entry)) +
    (Listed(FileEntries(files), FileBytes) + (WorkloadDigest.MapBytes(environment) + Listed(paths, PathBytes)))
  }

  lemma {:induction false} FileIsUnique()
    ensures Unique(FileBytes)
  {
    TextIsUnique();
    OneByteCodesAreUnique();
    forall x: FileEntry, y: FileEntry, r: Bytes, s: Bytes | FileBytes(x) + r == FileBytes(y) + s
      ensures x == y && r == s
    {
      WorkloadDigest.TripleSplits(TextBytes, Flag, TextBytes, x.name, x.file.executable, x.file.content,
                   y.name, y.file.executable, y.file.content, r, s);
    }
  }

  lemma {:induction false} PathIsUnique()
    ensures Unique(PathBytes)
  {
    TextIsUnique();
    OneByteCodesAreUnique();
    forall x: RepositoryPath, y: RepositoryPath, r: Bytes, s: Bytes | PathBytes(x) + r == PathBytes(y) + s
      ensures x == y && r == s
    {
      WorkloadDigest.PairSplits(TextBytes, Flag, x.path, x.directory, y.path, y.directory, r, s);
    }
  }

  lemma {:induction false} FileEntriesDetermine(x: map<Text, RepositoryFile>, y: map<Text, RepositoryFile>)
    requires FileEntries(x) == FileEntries(y)
    ensures x == y
  {
    var names, others := Ordering.Ascending(x.Keys), Ordering.Ascending(y.Keys);
    assert |names| == |FileEntries(x)| == |others|;
    assert forall i | 0 <= i < |names| :: names[i] == FileEntries(x)[i].name == FileEntries(y)[i].name == others[i];
    assert names == others;
    assert forall name :: name in x.Keys <==> name in y.Keys;
    forall name | name in x
      ensures x[name] == y[name]
    {
      var i :| 0 <= i < |names| && names[i] == name;
      assert x[name] == FileEntries(x)[i].file == FileEntries(y)[i].file == y[name];
    }
  }

  lemma {:induction false} PreimageSplits(
      text: Text -> Bytes, file: FileEntry -> Bytes, environment: map<Text, Text> -> Bytes,
      path: RepositoryPath -> Bytes,
      x: Text, f: seq<FileEntry>, e: map<Text, Text>, p: seq<RepositoryPath>,
      y: Text, f': seq<FileEntry>, e': map<Text, Text>, p': seq<RepositoryPath>)
    requires Unique(text) && Unique(file) && Unique(environment) && Unique(path)
    requires ([3] + text(x)) + (Listed(f, file) + (environment(e) + Listed(p, path))) ==
             ([3] + text(y)) + (Listed(f', file) + (environment(e') + Listed(p', path)))
    ensures x == y && f == f' && e == e' && p == p'
  {
    var rest, rest' := Listed(f, file) + (environment(e) + Listed(p, path)),
      Listed(f', file) + (environment(e') + Listed(p', path));
    assert ([3] + text(x)) + rest == [3] + (text(x) + rest);
    assert ([3] + text(y)) + rest' == [3] + (text(y) + rest');
    SplitsAt([3], [3], text(x) + rest, text(y) + rest');
    ListedUnique(f, f', file, environment(e) + Listed(p, path), environment(e') + Listed(p', path));
    assert Listed(p, path) + [] == Listed(p', path) + [];
    ListedUnique(p, p', path, [], []);
  }

  /** Snapshots have equal pre-images exactly when entry, files, runtime paths and environment agree. */
  lemma {:induction false} RepositoryDigestIdentifies(
      entry: Text, files: map<Text, RepositoryFile>, paths: seq<RepositoryPath>, environment: map<Text, Text>,
      entry': Text, files': map<Text, RepositoryFile>, paths': seq<RepositoryPath>, environment': map<Text, Text>)
    ensures RepositoryPreimage(entry, files, paths, environment) ==
            RepositoryPreimage(entry', files', paths', environment') <==>
            entry == entry' && files == files' && paths == paths' && environment == environment'
  {
    if RepositoryPreimage(entry, files, paths, environment) ==
       RepositoryPreimage(entry', files', paths', environment') {
      TextIsUnique();
      FileIsUnique();
      WorkloadDigest.MapIsUnique();
      PathIsUnique();
      PreimageSplits(TextBytes, FileBytes, WorkloadDigest.MapBytes, PathBytes, entry, FileEntries(files), environment,
                     paths,
                     entry', FileEntries(files'), environment', paths');
      FileEntriesDetermine(files, files');
    }
  }

  /** The checks that a loaded snapshot has to pass, except that its digest is not zero. */
  predicate ValidSnapshot(source: Source) {
    var snapshot := source.repository;
    Paths.Rooted(snapshot.root) && ValidPath(snapshot.entry) && snapshot.entry in snapshot.files &&
    source.content == snapshot.files[snapshot.entry].content && |snapshot.files| <= MAXIMUM_FILES &&
    snapshot.preimage ==
      RepositoryPreimage(snapshot.entry, snapshot.files, snapshot.runtimePaths, source.environment) &&
    (forall name | name in snapshot.files :: ValidPath(name)) && WithinBudget(snapshot.files) &&
    Ascend(snapshot.runtimePaths)
  }

  predicate Ascend(paths: seq<RepositoryPath>) {
    forall i | 0 <= i < |paths| ::
      ValidPath(paths[i].path) && (i > 0 ==> Ordering.Less(paths[i - 1].path, paths[i].path))
  }

  /** The bundle is closed: every document reached from the entry is held as tracked, or is optional and
      absent; so is every runtime path in full; and whatever is held was reached. */
  predicate Captured(w: World, source: Source, parsed: set<Document>, runtime: set<Text>) {
    var files := source.repository.files;
    Document(source.repository.entry, Paths.Dir(source.repository.entry), true, false) in parsed &&
    Closed(w, files, parsed, runtime) &&
    PathNames(source.repository.runtimePaths) == Ordering.Ascending(runtime) &&
    (forall i | 0 <= i < |source.repository.runtimePaths| :: Provides(w, files, source.repository.runtimePaths[i])) &&
    forall name | name in files ::
      (exists d | d in parsed :: d.path == name) || Covered(source.repository.runtimePaths, name)
  }

  lemma {:induction false} ClosedGrows(
      w: World, files: map<Text, RepositoryFile>, more: map<Text, RepositoryFile>, parsed: set<Document>,
      runtime: set<Text>)
    requires Closed(w, files, parsed, runtime) && Includes(files, more)
    ensures Closed(w, more, parsed, runtime)
  {
    forall d | d in parsed
      ensures Secured(w, more, parsed, runtime, d)
    {
      SecuredGrows(w, files, parsed, runtime, more, parsed, runtime, d);
    }
  }

  /** The documents that the walk starts from: the entry, and its environment file unless that is off. */
  function FirstDocuments(entry: Text, defaultEnvironment: bool): seq<Document> {
    [Document(entry, Paths.Dir(entry), true, false)] +
    if defaultEnvironment then [Document(DefaultEnv(Paths.Dir(entry)), [], false, true)] else []
  }

  function EnvironmentOf(w: World, files: map<Text, RepositoryFile>, entry: Text, enabled: bool)
    : Option<map<Text, Text>>
  {
    var path := DefaultEnv(Paths.Dir(entry));
    if !enabled || path !in files then Some(map[]) else w.parseEnvironment(files[path].content)
  }

  /** What a capture asks of its surroundings: everything that can be reached fits, every runtime path can be
      added, and the environment file can be read. */
  predicate Complete(w: World, root: Text, entry: Text, defaultEnvironment: bool, scope: set<Document>) {
    Paths.Rooted(root) && Paths.Clean(root) == root && ValidPath(entry) && Capturable(w, scope, entry) &&
    var files := AllFiles(w, FilesOf(w, scope), RuntimeOf(w, scope));
    files.Some? && EnvironmentOf(w, files.value, entry, defaultEnvironment).Some?
  }

  lemma {:induction false} FirstAreValid(entry: Text, defaultEnvironment: bool)
    requires ValidPath(entry)
    ensures ValidDocuments(FirstDocuments(entry, defaultEnvironment))
    ensures FirstDocuments(entry, defaultEnvironment)[0] in Pending(FirstDocuments(entry, defaultEnvironment))
  {
    DirIsValid(entry);
    DefaultEnvIsValid(Paths.Dir(entry));
  }

  /** The source made of what the walk has taken, if its runtime paths and environment can be added. */
  function Assembled(
    w: World, root: Text, entry: Text, defaultEnvironment: bool, files: map<Text, RepositoryFile>, runtime: set<Text>)
    : Option<Source>
  {
    var all := AllFiles(w, files, runtime);
    if all.None? || entry !in all.value then None
    else
      var environment := EnvironmentOf(w, all.value, entry, defaultEnvironment);
      if environment.None? then None
      else Some(SourceOf(root, entry, all.value, PathsOf(w, Ordering.Ascending(runtime)), environment.value))
  }

  function SourceOf(
    root: Text, entry: Text, files: map<Text, RepositoryFile>, paths: seq<RepositoryPath>, environment: map<Text, Text>)
    : Source
    requires entry in files
  {
    Source(files[entry].content, environment,
           Snapshot(root, entry, files, paths, RepositoryPreimage(entry, files, paths, environment)))
  }

  /** What can be reached is finite, and all that a capture asks of it is there. */
  ghost predicate CanComplete(w: World, root: Text, entry: Text, defaultEnvironment: bool) {
    exists scope: set<Document> ::
      IsReach(w, FirstDocuments(entry, defaultEnvironment), scope) &&
      Complete(w, root, entry, defaultEnvironment, scope)
  }

  /** The environment is what its file says, when it is on and there. */
  predicate Environs(w: World, source: Source, enabled: bool) {
    var path := DefaultEnv(Paths.Dir(source.repository.entry));
    if enabled && path in source.repository.files
    then w.parseEnvironment(source.repository.files[path].content) == Some(source.environment)
    else source.environment == map[]
  }

  /** The source is a valid snapshot of the entry and all that these documents and runtime paths lead to. */
  predicate Delivers(
    w: World, root: Text, entry: Text, enabled: bool, source: Source, parsed: set<Document>, runtime: set<Text>)
  {
    ValidSnapshot(source) && source.repository.root == root && source.repository.entry == entry &&
    source.content != [] && Captured(w, source, parsed, runtime) && Environs(w, source, enabled)
  }

  /** A walk has to look into the entry, and into its environment file when that is on. */
  predicate Begins(documents: set<Document>, entry: Text, enabled: bool) {
    Document(entry, Paths.Dir(entry), true, false) in documents &&
    (enabled ==> Document(DefaultEnv(Paths.Dir(entry)), [], false, true) in documents)
  }

  /** The documents are those, what they refer to, and no more. */
  ghost predicate Least(w: World, documents: set<Document>, entry: Text, enabled: bool) {
    Begins(documents, entry, enabled) && ClosedUnder(w, documents) &&
    forall other: set<Document> | Begins(other, entry, enabled) && ClosedUnder(w, other) :: documents <= other
  }

  lemma {:induction false} ReachIsLeast(w: World, entry: Text, enabled: bool, scope: set<Document>)
    requires IsReach(w, FirstDocuments(entry, enabled), scope)
    ensures Least(w, scope, entry, enabled)
  {
    var first := FirstDocuments(entry, enabled);
    forall other: set<Document>
      ensures Begins(other, entry, enabled) <==> Pending(first) <= other
    {
      assert first[0] in Pending(first) && (enabled ==> first[1] in Pending(first));
    }
  }

  /** Captures the source that starts at the entry. The ghost results are the documents looked into and
      the runtime paths found. What is captured is closed and valid, and the capture succeeds exactly when
      all that it asks for is there. */
  method CaptureRepositorySource(w: World, root: Text, entry: Text, defaultEnvironment: bool)
    returns (source: Option<Source>, ghost visits: seq<Document>, ghost runtime: set<Text>)
    ensures source.Some? <==> CanComplete(w, root, entry, defaultEnvironment)
    ensures source.Some? ==>
      Delivers(w, root, entry, defaultEnvironment, source.value, ToSet(visits), runtime) && Distinct(visits) &&
      Least(w, ToSet(visits), entry, defaultEnvironment)
  {
    visits, runtime := [], {};
    if !Paths.Rooted(root) || Paths.Clean(root) != root || !ValidPath(entry) {
      return None, visits, runtime;
    }
    FirstAreValid(entry, defaultEnvironment);
    var walk;
    walk, visits := WalkDocuments(w, FirstDocuments(entry, defaultEnvironment), entry);
    if walk.None? {
      NothingToComplete(w, root, entry, defaultEnvironment);
      return None, visits, runtime;
    }
    runtime := walk.value.runtime;
    source := Finish(w, root, entry, defaultEnvironment, walk.value);
    CompletesAsAssembled(w, root, entry, defaultEnvironment, walk.value);
    ReachIsLeast(w, entry, defaultEnvironment, walk.value.parsed);
  }

  lemma {:induction false} NothingToComplete(w: World, root: Text, entry: Text, defaultEnvironment: bool)
    requires !CanCapture(w, FirstDocuments(entry, defaultEnvironment), entry)
    ensures !CanComplete(w, root, entry, defaultEnvironment)
  {
  }

  lemma {:induction false} CompletesAsAssembled(
      w: World, root: Text, entry: Text, defaultEnvironment: bool, walk: Walked)
    requires Paths.Rooted(root) && Paths.Clean(root) == root && ValidPath(entry)
    requires IsReach(w, FirstDocuments(entry, defaultEnvironment), walk.parsed) && Capturable(w, walk.parsed, entry)
    requires walk.files == FilesOf(w, walk.parsed) && walk.runtime == RuntimeOf(w, walk.parsed)
    requires Closed(w, walk.files, walk.parsed, walk.runtime)
    ensures Assembled(w, root, entry, defaultEnvironment, walk.files, walk.runtime).Some? <==>
            CanComplete(w, root, entry, defaultEnvironment)
  {
    var first := FirstDocuments(entry, defaultEnvironment);
    assert first[0] in Pending(first);
    EntryIsHeld(w, walk.files, walk.parsed, walk.runtime, entry);
    CompleteWhenAssembled(w, root, entry, defaultEnvironment, walk.parsed, walk.files, walk.runtime);
    forall scope: set<Document> | IsReach(w, first, scope)
      ensures scope == walk.parsed
    {
      ReachIsOne(w, first, scope, walk.parsed);
    }
  }

  /** Adds the runtime paths and the environment to what the walk has taken. */
  method Finish(w: World, root: Text, entry: Text, defaultEnvironment: bool, walk: Walked)
    returns (source: Option<Source>)
    requires Paths.Rooted(root) && ValidPath(entry) && Held(w, walk.files, walk.parsed) &&
      walk.totalBytes == Total(walk.files)
    requires Closed(w, walk.files, walk.parsed, walk.runtime) && EntryFilled(walk.files, entry)
    requires forall path | path in walk.runtime :: ValidPath(path)
    requires Document(entry, Paths.Dir(entry), true, false) in walk.parsed
    ensures source == Assembled(w, root, entry, defaultEnvironment, walk.files, walk.runtime)
    ensures source.Some? ==>
      Delivers(w, root, entry, defaultEnvironment, source.value, walk.parsed, walk.runtime)
  {
    var more, paths := AddRuntimePaths(w, walk.files, walk.totalBytes, walk.runtime);
    if more.None? {
      return None;
    }
    EntryIsHeld(w, walk.files, walk.parsed, walk.runtime, entry);
    AllExtends(w, walk.files, walk.runtime, more.value);
    var environment := EnvironmentOf(w, more.value, entry, defaultEnvironment);
    if environment.None? {
      return None;
    }
    source := Some(SourceOf(root, entry, more.value, paths, environment.value));
    PathsAscend(w, walk.runtime);
    NamesAreValid(w, walk.files, walk.parsed, more.value, paths);
    IsValid(root, entry, more.value, paths, environment.value);
    IsCaptured(w, root, entry, walk.files, walk.parsed, walk.runtime, more.value, environment.value);
    HasEnvironment(w, source.value, defaultEnvironment);
  }

  lemma {:induction false} HasEnvironment(w: World, source: Source, enabled: bool)
    requires EnvironmentOf(w, source.repository.files, source.repository.entry, enabled) == Some(source.environment)
    ensures Environs(w, source, enabled)
  {
  }

  lemma {:induction false} PathsAscend(w: World, runtime: set<Text>)
    requires forall path | path in runtime :: ValidPath(path)
    ensures Ascend(PathsOf(w, Ordering.Ascending(runtime)))
  {
    NamesOfPaths(w, Ordering.Ascending(runtime));
    PathsIncrease(PathsOf(w, Ordering.Ascending(runtime)), runtime);
  }

  lemma {:induction false} IsValid(
      root: Text, entry: Text, all: map<Text, RepositoryFile>, paths: seq<RepositoryPath>, environment: map<Text, Text>)
    requires Paths.Rooted(root) && ValidPath(entry) && entry in all && WithinBudget(all) && Ascend(paths)
    requires forall name | name in all :: ValidPath(name)
    ensures ValidSnapshot(SourceOf(root, entry, all, paths, environment))
  {
  }

  lemma {:induction false} NamesAreValid(
      w: World, files: map<Text, RepositoryFile>, parsed: set<Document>, all: map<Text, RepositoryFile>,
      paths: seq<RepositoryPath>)
    requires Held(w, files, parsed) && Extended(w, files, all, paths)
    ensures forall name | name in all :: ValidPath(name)
  {
  }

  lemma {:induction false} IsCaptured(
      w: World, root: Text, entry: Text, files: map<Text, RepositoryFile>, parsed: set<Document>, runtime: set<Text>,
      all: map<Text, RepositoryFile>, environment: map<Text, Text>)
    requires Held(w, files, parsed) && Closed(w, files, parsed, runtime) && entry in all
    requires Document(entry, Paths.Dir(entry), true, false) in parsed
    requires Extended(w, files, all, PathsOf(w, Ordering.Ascending(runtime)))
    ensures Captured(w, SourceOf(root, entry, all, PathsOf(w, Ordering.Ascending(runtime)), environment), parsed,
                     runtime)
  {
    NamesOfPaths(w, Ordering.Ascending(runtime));
    ClosedGrows(w, files, all, parsed, runtime);
    NamesAreKnown(w, files, parsed, all, PathsOf(w, Ordering.Ascending(runtime)));
  }

  lemma {:induction false} NamesAreKnown(
      w: World, files: map<Text, RepositoryFile>, parsed: set<Document>, all: map<Text, RepositoryFile>,
      paths: seq<RepositoryPath>)
    requires Held(w, files, parsed) && Extended(w, files, all, paths)
    ensures forall name | name in all :: (exists d | d in parsed :: d.path == name) || Covered(paths, name)
  {
  }

  lemma {:induction false} CompleteWhenAssembled(
      w: World, root: Text, entry: Text, defaultEnvironment: bool, scope: set<Document>,
      files: map<Text, RepositoryFile>, runtime: set<Text>)
    requires Paths.Rooted(root) && Paths.Clean(root) == root && ValidPath(entry) && Capturable(w, scope, entry)
    requires files == FilesOf(w, scope) && runtime == RuntimeOf(w, scope) && entry in files
    ensures Assembled(w, root, entry, defaultEnvironment, files, runtime).Some? <==>
            Complete(w, root, entry, defaultEnvironment, scope)
  {
    var all := AllFiles(w, files, runtime);
    if all.Some? {
      AllExtends(w, files, runtime, all.value);
    }
  }

  lemma {:induction false} EntryIsHeld(
      w: World, files: map<Text, RepositoryFile>, parsed: set<Document>, runtime: set<Text>, entry: Text)
    requires Closed(w, files, parsed, runtime) && Document(entry, Paths.Dir(entry), true, false) in parsed
    ensures entry in files
  {
    assert Secured(w, files, parsed, runtime, Document(entry, Paths.Dir(entry), true, false));
  }

  lemma {:induction false} PathsIncrease(paths: seq<RepositoryPath>, runtime: set<Text>)
    requires PathNames(paths) == Ordering.Ascending(runtime) && forall path | path in runtime :: ValidPath(path)
    ensures Ascend(paths)
  {
    Ordering.AscendingIncreases(runtime);
    forall i | 0 <= i < |paths|
      ensures paths[i].path == Ordering.Ascending(runtime)[i] && paths[i].path in runtime
    {
      assert PathNames(paths)[i] == paths[i].path;
      assert Ordering.Ascending(runtime)[i] in Ordering.Ascending(runtime);
    }
  }
}
