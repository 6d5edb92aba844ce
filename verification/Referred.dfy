/** What a Compose document refers to, said of its references themselves. */
module Referred {
  import opened Paths
  import opened References
  import opened Universe
  import opened Values

  // ---------- resolving ----------

  /** No variable, drive or home directory, and not absolute. */
  predicate Plain(raw: Text) {
    raw != [] && !Rooted(raw) && raw[0] != 126 && 36 !in raw && 58 !in raw
  }

  /** The place that the components of a reference lead to from those of its base; None above the root. */
  function Followed(raw: Text, base: Text): Option<Text> {
    if Plain(raw) && StaysInside(|Parts(base)|, Split(raw)) then Some(Below(Walk(Parts(base), Split(raw), false)))
    else None
  }

  lemma {:induction false} BelowIsValid(walked: seq<Text>)
    requires Settled(walked)
    ensures ValidPath(Below(walked)) <==> walked == [] || walked[0] != DOTS
  {
    SettledReturns(walked);
    if walked != [] {
      DotsEscape(walked);
      SettledIsRelative(walked);
      SplitOfJoin(walked);
    }
  }

  /** A reference resolves exactly when following it stays inside the repository, to where it leads. */
  lemma {:induction false} ResolvesExactly(raw: Text, base: Text)
    requires ValidPath(base)
    ensures ResolvePath(raw, base) == Followed(raw, base)
  {
    if Plain(raw) {
      var walked := Walk(Parts(base), Split(raw), false);
      JoinedIsBelow(base, raw);
      PartsAreOrdinary(base);
      OrdinarySettles(Parts(base));
      WalkSettles(Parts(base), Split(raw));
      SettledReturns(walked);
      BelowIsValid(walked);
      WalkStaysInside(Parts(base), Split(raw));
    }
  }

  // ---------- what is referred to ----------

  /** The document is one of these files, with its own directory as base. */
  predicate NamesFile(references: seq<FileReference>, base: Text, d: Document) {
    exists r | r in references :: IsFile(r, base, d)
  }

  predicate IsFile(r: FileReference, base: Text, d: Document) {
    ResolvePath(r.raw, base) == Some(d.path) && d == Document(d.path, Dir(d.path), r.compose, r.optional)
  }

  /** The directory that an inclusion resolves against. */
  function BaseOf(n: Include, base: Text): Option<Text> {
    if n.projectDirectory.Some? then ResolvePath(n.projectDirectory.value, base)
    else if n.paths == [] || ResolvePath(n.paths[0], base).None? then None
    else Some(Dir(ResolvePath(n.paths[0], base).value))
  }

  /** The document is an environment file of the inclusion, one of its paths, or, when it names no
      environment files, the one that it has by default. */
  predicate Includes(n: Include, base: Text, d: Document) {
    (n.envFiles.Some? && NamesFile(n.envFiles.value, base, d)) ||
    (BaseOf(n, base).Some? && IsIncluded(n, base, BaseOf(n, base).value, d)) ||
    (BaseOf(n, base).Some? && n.envFiles.None? && d == Document(DefaultEnv(BaseOf(n, base).value), [], false, true))
  }

  predicate IsIncluded(n: Include, base: Text, projectBase: Text, d: Document) {
    d == Document(d.path, projectBase, true, false) &&
    exists raw | raw in n.paths :: ResolvePath(raw, base) == Some(d.path)
  }

  predicate Refers(parsed: Parsed, base: Text, d: Document) {
    NamesFile(parsed.files, base, d) || exists n | n in parsed.includes :: Includes(n, base, d)
  }

  predicate Binds(b: BindMount, base: Text, path: Text) {
    !Rooted(b.source) && ResolvePath(b.source, base) == Some(path)
  }

  predicate Needs(parsed: Parsed, base: Text, path: Text) {
    exists b | b in parsed.binds :: Binds(b, base, path)
  }

  // ---------- what is accepted ----------

  predicate FilesResolve(references: seq<FileReference>, base: Text) {
    forall r | r in references :: ResolvePath(r.raw, base).Some?
  }

  predicate IncludeResolves(n: Include, base: Text) {
    n.paths != [] && (forall raw | raw in n.paths :: ResolvePath(raw, base).Some?) &&
    (n.envFiles.Some? ==> FilesResolve(n.envFiles.value, base)) && BaseOf(n, base).Some?
  }

  /** An absolute mount is clean and without variables; a relative one is read-only and not the whole
      repository. */
  predicate BindAllowed(b: BindMount, base: Text) {
    if Rooted(b.source) then Clean(b.source) == b.source && 36 !in b.source && 0 !in b.source
    else b.readOnly && ResolvePath(b.source, base).Some? && ResolvePath(b.source, base).value != DOT
  }

  predicate Acceptable(parsed: Parsed, base: Text) {
    FilesResolve(parsed.files, base) && (forall n | n in parsed.includes :: IncludeResolves(n, base)) &&
    forall b | b in parsed.binds :: BindAllowed(b, base)
  }

  // ---------- the collectors ----------

  lemma {:induction false} AllExactly<A, B>(values: seq<A>, parse: A -> Option<B>)
    ensures All(values, parse).Some? <==> forall v | v in values :: parse(v).Some?
    ensures All(values, parse).Some? ==>
      forall x | x in All(values, parse).value :: exists v | v in values :: parse(v) == Some(x)
    ensures All(values, parse).Some? ==>
      forall v | v in values :: parse(v).value in All(values, parse).value
  {
    if values != [] {
      var n := |values| - 1;
      AllExactly(values[..n], parse);
      assert values == values[..n] + [values[n]];
    }
  }

  lemma {:induction false} FilesExactly(references: seq<FileReference>, base: Text)
    ensures CollectedFiles(references, base).Some? <==> FilesResolve(references, base)
    ensures CollectedFiles(references, base).Some? ==>
      forall d: Document :: d in CollectedFiles(references, base).value <==> NamesFile(references, base, d)
  {
    AllExactly(references, Collector(base));
    if CollectedFiles(references, base).Some? {
      forall d: Document
        ensures d in CollectedFiles(references, base).value <==> NamesFile(references, base, d)
      {
        if d in CollectedFiles(references, base).value {
          var r :| r in references && Collector(base)(r) == Some(d);
          assert IsFile(r, base, d);
        }
        if NamesFile(references, base, d) {
          var r :| r in references && IsFile(r, base, d);
          assert Collector(base)(r) == Some(d);
        }
      }
    }
  }

  lemma {:induction false} PathsExactly(raws: seq<Text>, base: Text)
    ensures ResolvedPaths(raws, base).Some? <==> forall raw | raw in raws :: ResolvePath(raw, base).Some?
    ensures ResolvedPaths(raws, base).Some? ==>
      forall path: Text ::
        path in ResolvedPaths(raws, base).value <==> exists raw | raw in raws :: ResolvePath(raw, base) == Some(path)
    ensures ResolvedPaths(raws, base).Some? && raws != [] ==>
      ResolvePath(raws[0], base) == Some(ResolvedPaths(raws, base).value[0])
  {
    var resolve := (raw: Text) => ResolvePath(raw, base);
    AllExactly(raws, resolve);
    if ResolvedPaths(raws, base).Some? {
      forall path: Text
        ensures path in ResolvedPaths(raws, base).value <==>
                exists raw | raw in raws :: ResolvePath(raw, base) == Some(path)
      {
        if path in ResolvedPaths(raws, base).value {
          var raw :| raw in raws && resolve(raw) == Some(path);
        }
        if exists raw | raw in raws :: ResolvePath(raw, base) == Some(path) {
          var raw :| raw in raws && ResolvePath(raw, base) == Some(path);
          assert resolve(raw) == Some(path);
        }
      }
      if raws != [] {
        AllAt(raws, resolve, 0);
      }
    }
  }

  lemma {:induction false} IncludedExactly(paths: seq<Text>, base: Text, d: Document)
    ensures d in IncludedDocuments(paths, base) <==> d == Document(d.path, base, true, false) && d.path in paths
  {
    var documents := IncludedDocuments(paths, base);
    if d in documents {
      var i :| 0 <= i < |documents| && documents[i] == d;
    }
    if d == Document(d.path, base, true, false) && d.path in paths {
      var i :| 0 <= i < |paths| && paths[i] == d.path;
      assert documents[i] == d;
    }
  }

  lemma {:induction false} BaseExactly(n: Include, base: Text)
    requires ResolvedPaths(n.paths, base).Some? && n.paths != []
    ensures ProjectBase(n, ResolvedPaths(n.paths, base).value, base) == BaseOf(n, base)
  {
    PathsExactly(n.paths, base);
  }

  lemma {:induction false} IncludeExactly(n: Include, base: Text)
    ensures CollectedInclude(n, base).Some? <==> IncludeResolves(n, base)
    ensures CollectedInclude(n, base).Some? ==>
      forall d: Document :: d in CollectedInclude(n, base).value <==> Includes(n, base, d)
  {
    PathsExactly(n.paths, base);
    if n.envFiles.Some? {
      FilesExactly(n.envFiles.value, base);
    }
    if ResolvedPaths(n.paths, base).Some? && n.paths != [] {
      BaseExactly(n, base);
    }
    if CollectedInclude(n, base).Some? {
      forall d: Document
        ensures d in CollectedInclude(n, base).value <==> Includes(n, base, d)
      {
        IncludedExactly(ResolvedPaths(n.paths, base).value, BaseOf(n, base).value, d);
      }
    }
  }

  lemma {:induction false} IncludesExactly(includes: seq<Include>, base: Text)
    ensures CollectedIncludes(includes, base).Some? <==> forall n | n in includes :: IncludeResolves(n, base)
    ensures CollectedIncludes(includes, base).Some? ==>
      forall d: Document ::
        d in CollectedIncludes(includes, base).value <==> exists n | n in includes :: Includes(n, base, d)
  {
    if includes != [] {
      var k := |includes| - 1;
      IncludesExactly(includes[..k], base);
      IncludeExactly(includes[k], base);
      assert includes == includes[..k] + [includes[k]];
    }
  }

  lemma {:induction false} BindExactly(b: BindMount, base: Text)
    ensures CollectedBind(b, base).Some? <==> BindAllowed(b, base)
    ensures CollectedBind(b, base).Some? ==>
      forall path: Text :: path in CollectedBind(b, base).value <==> Binds(b, base, path)
  {
  }

  lemma {:induction false} BindsExactly(binds: seq<BindMount>, base: Text)
    ensures CollectedBinds(binds, base).Some? <==> forall b | b in binds :: BindAllowed(b, base)
    ensures CollectedBinds(binds, base).Some? ==>
      forall path: Text ::
        path in CollectedBinds(binds, base).value <==> exists b | b in binds :: Binds(b, base, path)
  {
    if binds != [] {
      var k := |binds| - 1;
      BindsExactly(binds[..k], base);
      BindExactly(binds[k], base);
      assert binds == binds[..k] + [binds[k]];
    }
  }

  /** A document's references are collected exactly when all of them are acceptable, and then they are
      exactly what it refers to. */
  lemma {:induction false} ReferencesExactly(parsed: Parsed, base: Text)
    ensures ReferencesOf(parsed, base).Some? <==> Acceptable(parsed, base)
    ensures ReferencesOf(parsed, base).Some? ==>
      (forall d: Document :: d in ReferencesOf(parsed, base).value.documents <==> Refers(parsed, base, d)) &&
      forall path: Text :: path in ReferencesOf(parsed, base).value.runtimePaths <==> Needs(parsed, base, path)
  {
    FilesExactly(parsed.files, base);
    IncludesExactly(parsed.includes, base);
    BindsExactly(parsed.binds, base);
  }
}
