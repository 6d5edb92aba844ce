/** The files that a capture holds, and the limits on how many and how large they may be. */
module Budget {
  import opened Values
  import Encoding
  import Ordering

  const MAXIMUM_FILES: nat := 256
  const MAXIMUM_BYTES: int := 0x100_0000
  const MAXIMUM_SOURCE: int := 0x10_0000

  datatype RepositoryFile = RepositoryFile(content: Encoding.Bytes, executable: bool)

  function Sum(keys: set<Text>, files: map<Text, RepositoryFile>): int
    requires keys <= files.Keys
  {
    if keys == {} then 0
    else
      var first := Ordering.FirstKey(keys);
      |files[first].content| + Sum(keys - {first}, files)
  }

  function Total(files: map<Text, RepositoryFile>): int {
    Sum(files.Keys, files)
  }

  /** The sum may be taken in any order. */
  lemma {:induction false} SumOf(keys: set<Text>, files: map<Text, RepositoryFile>, name: Text)
    requires keys <= files.Keys && name in keys
    ensures Sum(keys, files) == |files[name].content| + Sum(keys - {name}, files)
  {
    var first := Ordering.FirstKey(keys);
    if name != first {
      SumOf(keys - {first}, files, name);
      assert first in keys - {name};
      Ordering.SmallestIsOne(keys - {name}, first, Ordering.FirstKey(keys - {name}));
      assert keys - {first} - {name} == keys - {name} - {first};
    }
  }

  lemma {:induction false} SumSame(keys: set<Text>, files: map<Text, RepositoryFile>, more: map<Text, RepositoryFile>)
    requires keys <= files.Keys && keys <= more.Keys && forall name | name in keys :: files[name] == more[name]
    ensures Sum(keys, files) == Sum(keys, more)
  {
    if keys != {} {
      SumSame(keys - {Ordering.FirstKey(keys)}, files, more);
    }
  }

  lemma {:induction false} TotalGrows(files: map<Text, RepositoryFile>, name: Text, file: RepositoryFile)
    requires name !in files
    ensures Total(files[name := file]) == Total(files) + |file.content|
  {
    var more := files[name := file];
    SumOf(more.Keys, more, name);
    assert more.Keys - {name} == files.Keys;
    SumSame(files.Keys, files, more);
  }

  lemma {:induction false} BudgetGrows(files: map<Text, RepositoryFile>, name: Text, file: RepositoryFile)
    requires WithinBudget(files) && name !in files && |files| < MAXIMUM_FILES
    requires |file.content| <= MAXIMUM_SOURCE && Total(files) + |file.content| <= MAXIMUM_BYTES
    ensures WithinBudget(files[name := file]) && Total(files[name := file]) == Total(files) + |file.content|
  {
    TotalGrows(files, name, file);
  }

  predicate WithinBudget(files: map<Text, RepositoryFile>) {
    |files| <= MAXIMUM_FILES && Total(files) <= MAXIMUM_BYTES &&
    forall name | name in files :: |files[name].content| <= MAXIMUM_SOURCE
  }

  // ---------- adding files in any order ----------

  predicate Includes(files: map<Text, RepositoryFile>, more: map<Text, RepositoryFile>) {
    forall name | name in files :: name in more && more[name] == files[name]
  }

  /** The added files fit each, do not contradict what is held, and fit the budget together with it. */
  predicate Mergeable(files: map<Text, RepositoryFile>, added: map<Text, RepositoryFile>, fits: Text -> bool) {
    (forall name | name in added :: fits(name) && (name in files ==> files[name] == added[name])) &&
    |files + added| <= MAXIMUM_FILES && Total(files + added) <= MAXIMUM_BYTES
  }

  lemma {:induction false} SumGrows(keys: set<Text>, more: set<Text>, files: map<Text, RepositoryFile>)
    requires keys <= more <= files.Keys
    ensures Sum(keys, files) <= Sum(more, files)
  {
    if more != {} {
      var name :| name in more;
      SumOf(more, files, name);
      if name in keys {
        SumOf(keys, files, name);
      }
      SumGrows(keys - {name}, more - {name}, files);
      assert name !in keys ==> keys - {name} == keys;
    }
  }

  /** A part of the files holds at most as many, and as many bytes, as the whole. */
  lemma {:induction false} PartFits(part: map<Text, RepositoryFile>, whole: map<Text, RepositoryFile>)
    requires Includes(part, whole)
    ensures |part| <= |whole| && Total(part) <= Total(whole)
  {
    assert part.Keys <= whole.Keys;
    SumSame(part.Keys, part, whole);
    SumGrows(part.Keys, whole.Keys, whole);
    SetsGrow(part.Keys, whole.Keys);
    assert |part| == |part.Keys| && |whole| == |whole.Keys|;
  }

  lemma {:induction false} SetsGrow(part: set<Text>, whole: set<Text>)
    requires part <= whole
    ensures |part| <= |whole|
  {
    assert whole == part + (whole - part);
  }

  /** One more file of a whole that fits still fits. */
  lemma {:induction false} NextFits(held: map<Text, RepositoryFile>, whole: map<Text, RepositoryFile>, name: Text)
    requires Includes(held, whole) && name in whole && name !in held
    ensures |held| < |whole| && Total(held) + |whole[name].content| <= Total(whole)
  {
    var more := held[name := whole[name]];
    PartFits(more, whole);
    TotalGrows(held, name, whole[name]);
    assert |more| == |held| + 1 by {
      assert more.Keys == held.Keys + {name};
      assert |more| == |more.Keys| && |held| == |held.Keys|;
    }
  }

  /** The files held are the old ones and the added ones, all but the remaining names. */
  predicate Joins(
    files: map<Text, RepositoryFile>, held: map<Text, RepositoryFile>, added: map<Text, RepositoryFile>,
    names: set<Text>, fits: Text -> bool)
  {
    (forall name | name in held :: name in files || (name in added && name !in names)) &&
    (forall name | name in files :: name in held && held[name] == files[name]) &&
    forall name | name in added && name !in names :: name in held && held[name] == added[name] && fits(name)
  }

  /** The added files so far, within the budget. */
  predicate Merged(
    files: map<Text, RepositoryFile>, held: map<Text, RepositoryFile>, added: map<Text, RepositoryFile>,
    names: set<Text>, fits: Text -> bool)
  {
    names <= added.Keys && |held| <= MAXIMUM_FILES && Total(held) <= MAXIMUM_BYTES &&
    Joins(files, held, added, names, fits)
  }

  lemma {:induction false} JoinsNext(
      files: map<Text, RepositoryFile>, held: map<Text, RepositoryFile>, added: map<Text, RepositoryFile>,
      names: set<Text>, fits: Text -> bool, name: Text)
    requires Joins(files, held, added, names, fits) && name in added && fits(name)
    requires name in held ==> held[name] == added[name]
    ensures Joins(files, held[name := added[name]], added, names - {name}, fits)
  {
  }

  /** While everything fits, so does the next file. */
  lemma {:induction false} MergeableHasRoom(
      files: map<Text, RepositoryFile>, held: map<Text, RepositoryFile>, added: map<Text, RepositoryFile>,
      names: set<Text>, fits: Text -> bool, name: Text)
    requires Mergeable(files, added, fits) && Merged(files, held, added, names, fits) && name in names
    ensures fits(name) && (name in held ==> held[name] == added[name])
    ensures name !in held ==>
      |held| < MAXIMUM_FILES && Total(held) + |added[name].content| <= MAXIMUM_BYTES
  {
    if name !in held {
      NextFits(held, files + added, name);
    }
  }

  lemma {:induction false} JoinsAll(
      files: map<Text, RepositoryFile>, held: map<Text, RepositoryFile>, added: map<Text, RepositoryFile>,
      fits: Text -> bool)
    requires Joins(files, held, added, {}, fits)
    ensures held == files + added
    ensures forall name | name in added :: fits(name) && (name in files ==> files[name] == added[name])
  {
    forall name
      ensures name in held <==> name in files + added
      ensures name in held ==> held[name] == (files + added)[name]
    {
    }
  }

  /** Takes in one of the added files. */
  method AddFile(
      ghost files: map<Text, RepositoryFile>, held: map<Text, RepositoryFile>, totalBytes: int,
      added: map<Text, RepositoryFile>, ghost names: set<Text>, fits: Text -> bool, name: Text)
    returns (more: Option<map<Text, RepositoryFile>>, total: int)
    requires Merged(files, held, added, names, fits) && totalBytes == Total(held) && name in names
    ensures more.Some? ==> Merged(files, more.value, added, names - {name}, fits) && total == Total(more.value)
    ensures more.None? ==> !Mergeable(files, added, fits)
  {
    total := totalBytes;
    var file := added[name];
    if Mergeable(files, added, fits) {
      MergeableHasRoom(files, held, added, names, fits, name);
    }
    if !fits(name) {
      return None, total;
    }
    if name in held {
      if held[name].executable != file.executable || held[name].content != file.content {
        return None, total;
      }
      assert held[name := file] == held;
      JoinsNext(files, held, added, names, fits, name);
      return Some(held), total;
    }
    if |held| >= MAXIMUM_FILES {
      return None, total;
    }
    if total + |file.content| > MAXIMUM_BYTES {
      return None, total;
    }
    TotalGrows(held, name, file);
    JoinsNext(files, held, added, names, fits, name);
    return Some(held[name := file]), total + |file.content|;
  }

  /** Adds files that may come in any order: the outcome is the same. */
  method AddFiles(
      files: map<Text, RepositoryFile>, totalBytes: int, added: map<Text, RepositoryFile>, fits: Text -> bool)
    returns (more: Option<map<Text, RepositoryFile>>, total: int)
    requires |files| <= MAXIMUM_FILES && Total(files) <= MAXIMUM_BYTES && totalBytes == Total(files)
    ensures more == if Mergeable(files, added, fits) then Some(files + added) else None
    ensures more.Some? ==> total == Total(more.value)
  {
    var held, names := files, added.Keys;
    total := totalBytes;
    while names != {}
      invariant Merged(files, held, added, names, fits) && total == Total(held)
      decreases |names|
    {
      var name :| name in names;
      var next;
      next, total := AddFile(files, held, total, added, names, fits, name);
      if next.None? {
        return None, total;
      }
      held, names := next.value, names - {name};
    }
    JoinsAll(files, held, added, fits);
    return Some(held), total;
  }
}
