/** The union of the files held with what several paths offer, taken one path after another. */
module Union {
  import opened Budget
  import opened Values

  type Files = map<Text, RepositoryFile>

  /** The added files contradict nothing that is held, and fit the budget together with it. */
  predicate Takes(held: Files, added: Files) {
    (forall name | name in added && name in held :: held[name] == added[name]) &&
    |held + added| <= MAXIMUM_FILES && Total(held + added) <= MAXIMUM_BYTES
  }

  function Taking(offers: Text -> Option<Files>): (Files, Text) -> Option<Files> {
    (held: Files, path: Text) =>
      if offers(path).None? || !Takes(held, offers(path).value) then None else Some(held + offers(path).value)
  }

  lemma {:induction false} MergeableTakes(held: Files, added: Files, fits: Text -> bool)
    ensures Mergeable(held, added, fits) <==> (forall name | name in added :: fits(name)) && Takes(held, added)
  {
  }

  /** Every path offers something, all of which is among these files. */
  predicate Agree(offers: Text -> Option<Files>, paths: seq<Text>, all: Files) {
    paths == [] ||
    (Agree(offers, paths[..|paths| - 1], all) && OfferedIn(offers, paths[|paths| - 1], all))
  }

  predicate OfferedIn(offers: Text -> Option<Files>, path: Text, all: Files) {
    offers(path).Some? && Includes(offers(path).value, all)
  }

  /** The names of all that the paths offer. */
  function Names(offers: Text -> Option<Files>, paths: seq<Text>): set<Text> {
    if paths == [] then {}
    else
      var last := offers(paths[|paths| - 1]);
      Names(offers, paths[..|paths| - 1]) + if last.None? then {} else last.value.Keys
  }

  predicate UnionAlong(offers: Text -> Option<Files>, files: Files, paths: seq<Text>, all: Files) {
    Includes(files, all) && Agree(offers, paths, all) && all.Keys == files.Keys + Names(offers, paths)
  }

  predicate Bounded(files: Files) {
    |files| <= MAXIMUM_FILES && Total(files) <= MAXIMUM_BYTES
  }

  /** The part of the union that the paths offer. */
  function PartOf(offers: Text -> Option<Files>, files: Files, paths: seq<Text>, all: Files): Files {
    map name | name in all && name in files.Keys + Names(offers, paths) :: all[name]
  }

  lemma {:induction false} PartsAreTaken(held: Files, added: Files, all: Files)
    requires Includes(held, all) && Includes(added, all) && Bounded(all)
    ensures Takes(held, added)
  {
    PartFits(held + added, all);
  }

  lemma {:induction false} NextIsTaken(offers: Text -> Option<Files>, held: Files, path: Text)
    requires offers(path).Some? && Takes(held, offers(path).value)
    ensures Taking(offers)(held, path) == Some(held + offers(path).value)
  {
  }

  lemma {:induction false} PartGrows(offers: Text -> Option<Files>, files: Files, paths: seq<Text>, all: Files)
    requires paths != [] && Includes(files, all) && OfferedIn(offers, paths[|paths| - 1], all)
    ensures
      var n := |paths| - 1;
      PartOf(offers, files, paths[..n], all) + offers(paths[n]).value == PartOf(offers, files, paths, all)
  {
  }

  lemma {:induction false} PartIsIncluded(offers: Text -> Option<Files>, files: Files, paths: seq<Text>, all: Files)
    ensures Includes(PartOf(offers, files, paths, all), all)
  {
  }

  lemma {:induction false} NextPart(offers: Text -> Option<Files>, files: Files, paths: seq<Text>, all: Files)
    requires paths != [] && Includes(files, all) && OfferedIn(offers, paths[|paths| - 1], all) && Bounded(all)
    ensures
      var n := |paths| - 1;
      Taking(offers)(PartOf(offers, files, paths[..n], all), paths[n]) == Some(PartOf(offers, files, paths, all))
  {
    var n := |paths| - 1;
    PartIsIncluded(offers, files, paths[..n], all);
    PartsAreTaken(PartOf(offers, files, paths[..n], all), offers(paths[n]).value, all);
    NextIsTaken(offers, PartOf(offers, files, paths[..n], all), paths[n]);
    PartGrows(offers, files, paths, all);
  }

  lemma {:induction false} FoldsToPart(offers: Text -> Option<Files>, files: Files, paths: seq<Text>, all: Files)
    requires Includes(files, all) && Agree(offers, paths, all) && Bounded(all)
    ensures Folded(Taking(offers), files, paths) == Some(PartOf(offers, files, paths, all))
  {
    if paths == [] {
      assert PartOf(offers, files, [], all) == files;
    } else {
      FoldsToPart(offers, files, paths[..|paths| - 1], all);
      NextPart(offers, files, paths, all);
    }
  }

  lemma {:induction false} AgreesWithMore(offers: Text -> Option<Files>, paths: seq<Text>, held: Files, more: Files)
    requires Agree(offers, paths, held) && Includes(held, more)
    ensures Agree(offers, paths, more)
  {
    if paths != [] {
      AgreesWithMore(offers, paths[..|paths| - 1], held, more);
    }
  }

  lemma {:induction false} TakenHolds(offers: Text -> Option<Files>, held: Files, path: Text)
    requires Taking(offers)(held, path).Some?
    ensures
      var more := Taking(offers)(held, path).value;
      Includes(held, more) && OfferedIn(offers, path, more) && more.Keys == held.Keys + offers(path).value.Keys &&
      Bounded(more)
  {
  }

  lemma {:induction false} IncludesMore(files: Files, held: Files, more: Files)
    requires Includes(files, held) && Includes(held, more)
    ensures Includes(files, more)
  {
  }

  lemma {:induction false} FoldIsUnion(offers: Text -> Option<Files>, files: Files, paths: seq<Text>)
    requires Bounded(files) && Folded(Taking(offers), files, paths).Some?
    ensures UnionAlong(offers, files, paths, Folded(Taking(offers), files, paths).value)
    ensures Bounded(Folded(Taking(offers), files, paths).value)
  {
    if paths != [] {
      var n := |paths| - 1;
      FoldIsUnion(offers, files, paths[..n]);
      var held := Folded(Taking(offers), files, paths[..n]).value;
      TakenHolds(offers, held, paths[n]);
      UnionGrows(offers, files, paths, held, Taking(offers)(held, paths[n]).value);
    }
  }

  lemma {:induction false} UnionGrows(
      offers: Text -> Option<Files>, files: Files, paths: seq<Text>, held: Files, more: Files)
    requires paths != [] && UnionAlong(offers, files, paths[..|paths| - 1], held)
    requires Includes(held, more) && OfferedIn(offers, paths[|paths| - 1], more)
    requires more.Keys == held.Keys + offers(paths[|paths| - 1]).value.Keys
    ensures UnionAlong(offers, files, paths, more)
  {
    AgreesWithMore(offers, paths[..|paths| - 1], held, more);
    IncludesMore(files, held, more);
  }

  lemma {:induction false} FoldExactly(offers: Text -> Option<Files>, files: Files, paths: seq<Text>, all: Files)
    requires Bounded(files)
    ensures Folded(Taking(offers), files, paths) == Some(all) <==>
            UnionAlong(offers, files, paths, all) && Bounded(all)
  {
    if Folded(Taking(offers), files, paths) == Some(all) {
      FoldIsUnion(offers, files, paths);
    }
    if UnionAlong(offers, files, paths, all) && Bounded(all) {
      FoldsToPart(offers, files, paths, all);
      assert PartOf(offers, files, paths, all) == all;
    }
  }

  // ---------- whatever the order ----------

  /** These are the files held and all that the paths offer, and no others. */
  predicate IsUnion(offers: Text -> Option<Files>, files: Files, paths: set<Text>, all: Files) {
    Includes(files, all) && (forall path | path in paths :: OfferedIn(offers, path, all)) &&
    forall name | name in all :: name in files || exists path | path in paths :: Offers(offers, path, name)
  }

  predicate Offers(offers: Text -> Option<Files>, path: Text, name: Text) {
    offers(path).Some? && name in offers(path).value
  }

  lemma {:induction false} AgreeEach(offers: Text -> Option<Files>, paths: seq<Text>, all: Files)
    ensures Agree(offers, paths, all) <==> forall path | path in paths :: OfferedIn(offers, path, all)
  {
    if paths != [] {
      var n := |paths| - 1;
      AgreeEach(offers, paths[..n], all);
      assert paths == paths[..n] + [paths[n]];
    }
  }

  lemma {:induction false} NamesEach(offers: Text -> Option<Files>, paths: seq<Text>, name: Text)
    ensures name in Names(offers, paths) <==> exists path | path in paths :: Offers(offers, path, name)
  {
    if paths != [] {
      var n := |paths| - 1;
      NamesEach(offers, paths[..n], name);
      assert paths == paths[..n] + [paths[n]];
      assert Offers(offers, paths[n], name) ==> paths[n] in paths;
    }
  }

  lemma {:induction false} UnionOfSet(
      offers: Text -> Option<Files>, files: Files, ordered: seq<Text>, paths: set<Text>, all: Files)
    requires forall path :: path in ordered <==> path in paths
    ensures UnionAlong(offers, files, ordered, all) <==> IsUnion(offers, files, paths, all)
  {
    AgreeEach(offers, ordered, all);
    forall name: Text
      ensures name in Names(offers, ordered) <==> exists path | path in paths :: Offers(offers, path, name)
    {
      NamesEach(offers, ordered, name);
    }
    if Agree(offers, ordered, all) {
      forall path, name | path in paths && Offers(offers, path, name)
        ensures name in all
      {
        assert OfferedIn(offers, path, all);
      }
    }
  }
}
