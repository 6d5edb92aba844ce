/** Why the walk over Compose documents comes to an end: while it meets no new file, there are only
    finitely many documents that it can come to. */
module Universe {
  import opened Paths
  import opened References
  import opened Tracked
  import opened Values

  /** Reading the document adds no file to these and does not fail for its absence. */
  predicate Within(w: World, paths: set<Text>, d: Document) {
    d.path in paths || (w.read(d.path).Missing? && d.optional)
  }

  predicate LinksWithin(w: World, paths: set<Text>, d: Document) {
    forall i | 0 <= i < |Links(w, d)| :: Within(w, paths, Links(w, d)[i])
  }

  /** What leads to no new file leads nowhere else. */
  predicate ClosedWithin(w: World, paths: set<Text>, all: set<Document>) {
    forall d | d in all && LinksWithin(w, paths, d) :: Pending(Links(w, d)) <= all
  }

  // ---------- components ----------

  /** The components below the root. */
  function Parts(value: Text): seq<Text> {
    if value == DOT then [] else Split(value)
  }

  function Below(parts: seq<Text>): Text {
    if parts == [] then DOT else Join(parts)
  }

  lemma {:induction false} BelowOfParts(value: Text)
    ensures Below(Parts(value)) == value
  {
    JoinOfSplit(value);
  }

  lemma {:induction false} PartsOfBelow(parts: seq<Text>)
    requires AllOrdinary(parts)
    ensures Parts(Below(parts)) == parts
  {
    if parts != [] {
      OrdinaryIsNotDot(parts);
      SplitOfJoin(parts);
    }
  }

  lemma {:induction false} PartsAreOrdinary(value: Text)
    requires ValidPath(value)
    ensures AllOrdinary(Parts(value))
  {
    ValidIffMember(value);
  }

  /** At most so many components, all of them from these words. */
  predicate Spelt(parts: seq<Text>, words: set<Text>, most: nat) {
    |parts| <= most && forall i | 0 <= i < |parts| :: parts[i] in words
  }

  /** A walk takes no component from elsewhere, and every step changes the depth by one at most. */
  lemma {:induction false} WalkKeeps(stack: seq<Text>, parts: seq<Text>, words: set<Text>)
    requires forall i | 0 <= i < |stack| :: stack[i] in words
    requires DOTS in words && forall i | 0 <= i < |parts| :: parts[i] in words
    ensures |stack| <= |Walk(stack, parts, false)| + |parts|
    ensures Spelt(Walk(stack, parts, false), words, |stack| + |parts|)
    decreases |parts|
  {
    if parts != [] {
      var rest := parts[1..];
      if Blank(parts[0]) {
        WalkKeeps(stack, rest, words);
      } else if parts[0] == DOTS {
        if stack != [] && stack[|stack| - 1] != DOTS {
          WalkKeeps(stack[..|stack| - 1], rest, words);
        } else {
          WalkKeeps(stack + [DOTS], rest, words);
        }
      } else {
        WalkKeeps(stack + [parts[0]], rest, words);
      }
    }
  }

  lemma {:induction false} WalkFromRoot(base: Text, raw: Text)
    requires ValidPath(base)
    ensures Walk([], Split(base) + Split(raw), false) == Walk(Parts(base), Split(raw), false)
  {
    PartsAreOrdinary(base);
    WalkJoins([], Split(base), Split(raw));
    if base == DOT {
      SplitOfText(DOT);
      assert Walk([], [DOT], false) == Walk([], [], false);
    } else {
      OrdinaryWalk([], Parts(base));
      assert [] + Parts(base) == Parts(base);
    }
  }

  lemma {:induction false} JoinedIsBelow(base: Text, raw: Text)
    requires ValidPath(base) && raw != []
    ensures Joined(base, raw) == Below(Walk(Parts(base), Split(raw), false))
  {
    SplitOfJoined(base, raw);
    WalkFromRoot(base, raw);
    assert (base + [SLASH] + raw)[0] == base[0];
  }

  /** A settled list of components reads back from its path. */
  lemma {:induction false} SettledReturns(parts: seq<Text>)
    requires Settled(parts)
    ensures Clean(Below(parts)) == Below(parts)
  {
    if parts == [] {
      DotIsClean();
    } else {
      WalkIsClean(parts);
    }
  }

  /** Resolving a reference walks from its base. */
  lemma {:induction false} ResolvedParts(raw: Text, base: Text, path: Text)
    requires ValidPath(base) && ResolvePath(raw, base) == Some(path)
    ensures ValidPath(path) && Parts(path) == Walk(Parts(base), Split(raw), false)
  {
    var walked := Walk(Parts(base), Split(raw), false);
    JoinedIsBelow(base, raw);
    PartsAreOrdinary(base);
    OrdinarySettles(Parts(base));
    WalkSettles(Parts(base), Split(raw));
    SettledReturns(walked);
    assert path == Below(walked);
    BelowIsInjective(walked, path);
  }

  lemma {:induction false} BelowIsInjective(walked: seq<Text>, path: Text)
    requires Settled(walked) && ValidPath(path) && path == Below(walked)
    ensures Parts(path) == walked
  {
    if walked != [] {
      SplitOfJoin(walked);
      SettledIsNotDot(walked);
    }
  }

  lemma {:induction false} SettledIsNotDot(parts: seq<Text>)
    requires Settled(parts) && parts != []
    ensures Join(parts) != DOT
  {
    SplitOfJoin(parts);
    SplitOfText(DOT);
    assert parts[0] == DOTS || Ordinary(parts[0]);
  }

  lemma {:induction false} ResolvedIsSpelt(raw: Text, base: Text, path: Text, words: set<Text>, most: nat)
    requires ValidPath(base) && ResolvePath(raw, base) == Some(path) && DOTS in words
    requires Spelt(Parts(base), words, |Parts(base)|) && Spelt(Split(raw), words, most)
    ensures ValidPath(path) && Spelt(Parts(path), words, |Parts(base)| + most)
    ensures |Parts(base)| <= |Parts(path)| + most
  {
    ResolvedParts(raw, base, path);
    WalkKeeps(Parts(base), Split(raw), words);
  }

  lemma {:induction false} DirIsSpelt(path: Text, words: set<Text>, most: nat)
    requires ValidPath(path) && Spelt(Parts(path), words, most)
    ensures ValidPath(Dir(path)) && Spelt(Parts(Dir(path)), words, most)
  {
    DirIsValid(path);
    PartsAreOrdinary(path);
    if path == DOT {
      DirOfDot();
    } else {
      var parts := Parts(path);
      BelowOfParts(path);
      DirOfMember(parts);
      var front := parts[..|parts| - 1];
      PartsOfBelow(front);
      assert Dir(path) == Below(front);
    }
  }

  lemma {:induction false} DirOfDot()
    ensures Dir(DOT) == DOT
  {
    assert DirectoryPart(DOT) == [];
    SplitOfText([]);
  }

  // ---------- finitely many texts ----------

  /** All lists of at most so many of the words. */
  function Lists(words: set<Text>, most: nat): set<seq<Text>> {
    if most == 0 then {[]}
    else
      var shorter := Lists(words, most - 1);
      shorter + set list, word | list in shorter && word in words :: list + [word]
  }

  lemma {:induction false} IsListed(parts: seq<Text>, words: set<Text>, most: nat)
    requires Spelt(parts, words, most)
    ensures parts in Lists(words, most)
  {
    if most > 0 {
      if |parts| < most {
        IsListed(parts, words, most - 1);
      } else {
        var front, last := parts[..|parts| - 1], parts[|parts| - 1];
        IsListed(front, words, most - 1);
        assert parts == front + [last] && last in words;
      }
    }
  }

  /** The directories that can be spelt. */
  function Bases(words: set<Text>, most: nat): set<Text> {
    set list | list in Lists(words, most) && ValidPath(Below(list)) && Spelt(Parts(Below(list)), words, most) ::
      Below(list)
  }

  lemma {:induction false} IsBase(base: Text, words: set<Text>, most: nat)
    requires ValidPath(base) && Spelt(Parts(base), words, most)
    ensures base in Bases(words, most)
  {
    IsListed(Parts(base), words, most);
    BelowOfParts(base);
  }

  lemma {:induction false} LongestOf(texts: set<Text>) returns (most: nat)
    ensures forall t | t in texts :: |Split(t)| <= most
  {
    if texts == {} {
      return 0;
    }
    var t :| t in texts;
    most := LongestOf(texts - {t});
    most := if |Split(t)| > most then |Split(t)| else most;
    forall u | u in texts
      ensures |Split(u)| <= most
    {
      if u != t {
        assert u in texts - {t};
      }
    }
  }

  /** The components of the texts, and the two dots. */
  function Words(texts: set<Text>): set<Text> {
    (set t, part | t in texts && part in Split(t) :: part) + {DOTS}
  }

  lemma {:induction false} TextIsSpelt(t: Text, texts: set<Text>, most: nat)
    requires t in texts && |Split(t)| <= most
    ensures Spelt(Split(t), Words(texts), most) && Spelt(Parts(t), Words(texts), most)
  {
    forall i | 0 <= i < |Split(t)|
      ensures Split(t)[i] in Words(texts)
    {
      assert Split(t)[i] in Split(t);
    }
  }

  // ---------- what a document chooses its directories from ----------

  /** The paths and project directories of the inclusions. */
  function InclusionRaws(includes: seq<Include>): set<Text> {
    (set i, raw | 0 <= i < |includes| && raw in includes[i].paths :: raw) +
    (set i | 0 <= i < |includes| && includes[i].projectDirectory.Some? :: includes[i].projectDirectory.value)
  }

  /** Those of the document at a path. */
  function RawsAt(w: World, path: Text): set<Text> {
    if !w.read(path).Found? || w.parse(w.read(path).file.content).None? then {}
    else InclusionRaws(w.parse(w.read(path).file.content).value.includes)
  }

  /** Where a linked Compose document resolves its references: beside itself, or as an inclusion says whose
      first path is linked too. */
  predicate Chooses(links: seq<Document>, raws: set<Text>, base: Text, d: Document) {
    d.base == Dir(d.path) ||
    exists raw | raw in raws :: ChoosesBy(links, raws, base, d, raw)
  }

  predicate ChoosesBy(links: seq<Document>, raws: set<Text>, base: Text, d: Document, raw: Text) {
    ResolvePath(raw, base).Some? && Document(ResolvePath(raw, base).value, d.base, true, false) in links &&
    (d.base == Dir(ResolvePath(raw, base).value) ||
     exists chosen | chosen in raws :: ResolvePath(chosen, base) == Some(d.base))
  }

  lemma {:induction false} FileChooses(references: seq<FileReference>, base: Text, d: Document)
    requires CollectedFiles(references, base).Some? && d in CollectedFiles(references, base).value
    ensures d.base == Dir(d.path)
  {
    var i :| 0 <= i < |references| && CollectedFiles(references, base).value[i] == d;
    AllAt(references, Collector(base), i);
  }

  lemma {:induction false} InclusionChooses(inclusion: Include, base: Text, raws: set<Text>, d: Document)
    requires CollectedInclude(inclusion, base).Some? && d in CollectedInclude(inclusion, base).value && d.compose
    requires forall raw | raw in inclusion.paths :: raw in raws
    requires inclusion.projectDirectory.Some? ==> inclusion.projectDirectory.value in raws
    ensures Chooses(CollectedInclude(inclusion, base).value, raws, base, d)
  {
    var links := CollectedInclude(inclusion, base).value;
    var paths := ResolvedPaths(inclusion.paths, base).value;
    var projectBase := ProjectBase(inclusion, paths, base).value;
    if inclusion.envFiles.Some? && d in CollectedFiles(inclusion.envFiles.value, base).value {
      FileChooses(inclusion.envFiles.value, base, d);
    } else {
      assert d in IncludedDocuments(paths, projectBase);
      AllAt(inclusion.paths, (raw: Text) => ResolvePath(raw, base), 0);
      FirstIsLinked(inclusion, base);
      assert inclusion.paths[0] in inclusion.paths;
      assert ChoosesBy(links, raws, base, d, inclusion.paths[0]);
    }
  }

  lemma {:induction false} FirstIsLinked(inclusion: Include, base: Text)
    requires CollectedInclude(inclusion, base).Some?
    ensures
      var paths := ResolvedPaths(inclusion.paths, base).value;
      var projectBase := ProjectBase(inclusion, paths, base).value;
      paths != [] && Document(paths[0], projectBase, true, false) in CollectedInclude(inclusion, base).value
  {
    var paths := ResolvedPaths(inclusion.paths, base).value;
    var documents := IncludedDocuments(paths, ProjectBase(inclusion, paths, base).value);
    assert documents[0] in documents;
  }

  lemma {:induction false} ChoosesAmongMore(
      links: seq<Document>, more: seq<Document>, raws: set<Text>, base: Text, d: Document)
    requires Chooses(links, raws, base, d) && forall e | e in links :: e in more
    ensures Chooses(more, raws, base, d)
  {
    if d.base != Dir(d.path) {
      var raw :| raw in raws && ChoosesBy(links, raws, base, d, raw);
      assert ChoosesBy(more, raws, base, d, raw);
    }
  }

  lemma {:induction false} InclusionsChoose(includes: seq<Include>, base: Text, raws: set<Text>, d: Document)
    requires CollectedIncludes(includes, base).Some? && d in CollectedIncludes(includes, base).value && d.compose
    requires InclusionRaws(includes) <= raws
    ensures Chooses(CollectedIncludes(includes, base).value, raws, base, d)
  {
    var n := |includes| - 1;
    var all := CollectedIncludes(includes, base).value;
    var front, last := CollectedIncludes(includes[..n], base).value, CollectedInclude(includes[n], base).value;
    if d in front {
      RawsOfFront(includes, n);
      InclusionsChoose(includes[..n], base, raws, d);
      ChoosesAmongMore(front, all, raws, base, d);
    } else {
      RawsOfOne(includes, n);
      InclusionChooses(includes[n], base, raws, d);
      ChoosesAmongMore(last, all, raws, base, d);
    }
  }

  lemma {:induction false} RawsOfFront(includes: seq<Include>, n: nat)
    requires n <= |includes|
    ensures InclusionRaws(includes[..n]) <= InclusionRaws(includes)
  {
  }

  lemma {:induction false} RawsOfOne(includes: seq<Include>, n: nat)
    requires n < |includes|
    ensures forall raw | raw in includes[n].paths :: raw in InclusionRaws(includes)
    ensures includes[n].projectDirectory.Some? ==> includes[n].projectDirectory.value in InclusionRaws(includes)
  {
  }

  lemma {:induction false} LinkChooses(w: World, e: Document, d: Document)
    requires d in Links(w, e) && d.compose
    ensures Chooses(Links(w, e), RawsAt(w, e.path), e.base, d)
  {
    var parsed := w.parse(w.read(e.path).file.content).value;
    var files, includes := CollectedFiles(parsed.files, e.base).value, CollectedIncludes(parsed.includes, e.base).value;
    if d in files {
      FileChooses(parsed.files, e.base, d);
    } else {
      InclusionsChoose(parsed.includes, e.base, RawsAt(w, e.path), d);
      ChoosesAmongMore(includes, Links(w, e), RawsAt(w, e.path), e.base, d);
    }
  }

  // ---------- the universe ----------

  /** The directory of the document can be spelt, and so can whatever it chooses from. */
  predicate Speaks(w: World, d: Document, words: set<Text>, most: nat) {
    DOTS in words && ValidDocument(d) && (d.compose ==> Spelt(Parts(d.base), words, |Parts(d.base)|)) &&
    forall raw | raw in RawsAt(w, d.path) :: Spelt(Split(raw), words, most)
  }

  predicate AllSpelt(paths: set<Text>, words: set<Text>, most: nat) {
    forall path | path in paths :: ValidPath(path) && Spelt(Parts(path), words, most)
  }

  /** The directory of a document linked within the paths is no further away than three texts. */
  lemma {:induction false} NextIsSpelt(
      w: World, paths: set<Text>, e: Document, d: Document, words: set<Text>, most: nat)
    requires d in Links(w, e) && d.compose && d.path in paths && LinksWithin(w, paths, e)
    requires Speaks(w, e, words, most) && AllSpelt(paths, words, most)
    ensures ValidPath(d.base) && Spelt(Parts(d.base), words, 3 * most)
  {
    LinkChooses(w, e, d);
    if d.base == Dir(d.path) {
      DirIsSpelt(d.path, words, most);
    } else {
      var raw :| raw in RawsAt(w, e.path) && ChoosesBy(Links(w, e), RawsAt(w, e.path), e.base, d, raw);
      var path := ResolvePath(raw, e.base).value;
      var i :| 0 <= i < |Links(w, e)| && Links(w, e)[i] == Document(path, d.base, true, false);
      assert Within(w, paths, Links(w, e)[i]);
      if d.base == Dir(path) {
        DirIsSpelt(path, words, most);
      } else {
        var chosen :| chosen in RawsAt(w, e.path) && ResolvePath(chosen, e.base) == Some(d.base);
        ResolvedIsSpelt(raw, e.base, path, words, most);
        ResolvedIsSpelt(chosen, e.base, d.base, words, most);
      }
    }
  }

  /** Every Compose document at one of the paths, with every directory that can be spelt. */
  function Candidates(paths: set<Text>, words: set<Text>, most: nat): set<Document> {
    set path, base, optional | path in paths && base in Bases(words, most) && optional in {false, true} ::
      Document(path, base, true, optional)
  }

  /** With them, whatever they lead to while no new file is met. */
  function Everything(w: World, paths: set<Text>, known: set<Document>): set<Document> {
    known + set e, d | e in known && LinksWithin(w, paths, e) && d in Links(w, e) :: d
  }

  lemma {:induction false} EverythingIsClosed(
      w: World, paths: set<Text>, known: set<Document>, words: set<Text>, most: nat)
    requires AllSpelt(paths, words, most) && Candidates(paths, words, 3 * most) <= known
    requires forall e | e in known :: Speaks(w, e, words, most)
    ensures ClosedWithin(w, paths, Everything(w, paths, known))
  {
    var all := Everything(w, paths, known);
    forall d | d in all && LinksWithin(w, paths, d)
      ensures Pending(Links(w, d)) <= all
    {
      if d !in known && Links(w, d) != [] {
        var e :| e in known && LinksWithin(w, paths, e) && d in Links(w, e);
        IsCandidate(w, paths, e, d, words, most);
      }
    }
  }

  lemma {:induction false} IsCandidate(
      w: World, paths: set<Text>, e: Document, d: Document, words: set<Text>, most: nat)
    requires d in Links(w, e) && LinksWithin(w, paths, e) && Links(w, d) != []
    requires Speaks(w, e, words, most) && AllSpelt(paths, words, most)
    ensures d in Candidates(paths, words, 3 * most)
  {
    var i :| 0 <= i < |Links(w, e)| && Links(w, e)[i] == d;
    assert Within(w, paths, d);
    NextIsSpelt(w, paths, e, d, words, most);
    IsBase(d.base, words, 3 * most);
    assert d == Document(d.path, d.base, true, d.optional);
  }

  /** The texts that the directories are spelt from. */
  function TextsOf(w: World, paths: set<Text>, first: set<Document>): set<Text> {
    paths + (set d | d in first :: d.base) +
    (set path, raw | path in paths && raw in RawsAt(w, path) :: raw) +
    (set d, raw | d in first && raw in RawsAt(w, d.path) :: raw)
  }

  lemma {:induction false} FirstSpeaks(
      w: World, paths: set<Text>, first: set<Document>, d: Document, most: nat)
    requires d in first && ValidDocument(d) && forall t | t in TextsOf(w, paths, first) :: |Split(t)| <= most
    ensures Speaks(w, d, Words(TextsOf(w, paths, first)), most)
  {
    var texts := TextsOf(w, paths, first);
    TextIsSpelt(d.base, texts, most);
    forall raw | raw in RawsAt(w, d.path)
      ensures Spelt(Split(raw), Words(texts), most)
    {
      assert raw in texts;
      TextIsSpelt(raw, texts, most);
    }
  }

  lemma {:induction false} CandidateSpeaks(
      w: World, paths: set<Text>, first: set<Document>, d: Document, most: nat)
    requires AllSpelt(paths, Words(TextsOf(w, paths, first)), most)
    requires d in Candidates(paths, Words(TextsOf(w, paths, first)), 3 * most)
    requires forall t | t in TextsOf(w, paths, first) :: |Split(t)| <= most
    ensures Speaks(w, d, Words(TextsOf(w, paths, first)), most)
  {
    var texts := TextsOf(w, paths, first);
    forall raw | raw in RawsAt(w, d.path)
      ensures Spelt(Split(raw), Words(texts), most)
    {
      assert raw in texts;
      TextIsSpelt(raw, texts, most);
    }
  }

  /** While no new file is met, the documents that can be come to are among finitely many. */
  lemma {:induction false} FinitelyManyWithin(w: World, paths: set<Text>, first: set<Document>)
    returns (all: set<Document>)
    requires (forall path | path in paths :: ValidPath(path)) && forall d | d in first :: ValidDocument(d)
    ensures first <= all && ClosedWithin(w, paths, all)
  {
    var texts := TextsOf(w, paths, first);
    var words := Words(texts);
    var most := LongestOf(texts);
    forall path | path in paths
      ensures Spelt(Parts(path), words, most)
    {
      TextIsSpelt(path, texts, most);
    }
    var known := first + Candidates(paths, words, 3 * most);
    forall e | e in known
      ensures Speaks(w, e, words, most)
    {
      if e in first {
        FirstSpeaks(w, paths, first, e, most);
      } else {
        CandidateSpeaks(w, paths, first, e, most);
      }
    }
    EverythingIsClosed(w, paths, known, words, most);
    all := Everything(w, paths, known);
  }
}
