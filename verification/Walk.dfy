/** The walk over the documents of a Compose source. */
module Walk {
  import opened Budget
  import opened References
  import opened Tracked
  import opened Universe
  import opened Values
  import Encoding

  // ---------- the walk ----------

  /** Everything that the content refers to is among the documents and the runtime paths. */
  predicate Expands(w: World, content: Encoding.Bytes, base: Text, reach: set<Document>, runtime: set<Text>) {
    w.parse(content).Some? && ReferencesOf(w.parse(content).value, base).Some? &&
    var references := ReferencesOf(w.parse(content).value, base).value;
    (forall i | 0 <= i < |references.documents| :: references.documents[i] in reach) &&
    forall i | 0 <= i < |references.runtimePaths| :: references.runtimePaths[i] in runtime
  }

  /** The document is held as it is tracked, and so is what it refers to; only an optional one may be absent. */
  predicate Secured(
    w: World, files: map<Text, RepositoryFile>, reach: set<Document>, runtime: set<Text>, d: Document)
  {
    ValidDocument(d) &&
    if w.read(d.path).Missing? then d.optional
    else
      d.path in files && w.read(d.path) == Found(files[d.path]) &&
      (d.compose ==> Expands(w, files[d.path].content, d.base, reach, runtime))
  }

  /** Everything held is tracked, was asked for, and fits. */
  predicate Held(w: World, files: map<Text, RepositoryFile>, parsed: set<Document>) {
    WithinBudget(files) &&
    forall name | name in files ::
      ValidPath(name) && w.read(name) == Found(files[name]) && exists d | d in parsed :: d.path == name
  }

  /** The walk so far: what was taken from the queue is settled up to what is still in it. */
  predicate Walking(
    w: World, files: map<Text, RepositoryFile>, parsed: set<Document>, queue: seq<Document>, runtime: set<Text>)
  {
    Held(w, files, parsed) && ValidDocuments(queue) && (forall path | path in runtime :: ValidPath(path)) &&
    forall d | d in parsed :: Secured(w, files, parsed + Pending(queue), runtime, d)
  }

  lemma {:induction false} SecuredGrows(
      w: World, files: map<Text, RepositoryFile>, reach: set<Document>, runtime: set<Text>,
      files': map<Text, RepositoryFile>, reach': set<Document>, runtime': set<Text>, d: Document)
    requires Secured(w, files, reach, runtime, d) && reach <= reach' && runtime <= runtime'
    requires forall name | name in files :: name in files' && files'[name] == files[name]
    ensures Secured(w, files', reach', runtime', d)
  {
  }

  /** Reads the document unless it is held; None when it may not be taken in. */
  method ReadDocument(w: World, files: map<Text, RepositoryFile>, totalBytes: int, d: Document, entry: Text)
    returns (held: Option<map<Text, RepositoryFile>>, total: int)
    requires totalBytes == Total(files) && WithinBudget(files) && !w.read(d.path).Missing?
    requires d.path in files ==> w.read(d.path) == Found(files[d.path])
    ensures held.Some? <==>
      w.read(d.path).Found? && (d.path in files || MayAdd(files, w.read(d.path).file, d.path == entry))
    ensures held.Some? ==>
      held.value == files[d.path := w.read(d.path).file] && WithinBudget(held.value) && total == Total(held.value)
  {
    if d.path in files {
      assert files[d.path := files[d.path]] == files;
      return Some(files), totalBytes;
    }
    var result := w.read(d.path);
    if !result.Found? {
      return None, totalBytes;
    }
    var file := result.file;
    total := totalBytes + |file.content|;
    if |file.content| > MAXIMUM_SOURCE || total > MAXIMUM_BYTES || (d.path == entry && file.content == []) {
      return None, total;
    }
    if |files| >= MAXIMUM_FILES {
      return None, total;
    }
    BudgetGrows(files, d.path, file);
    return Some(files[d.path := file]), total;
  }

  /** A new file that is not too large, nor empty when it is the entry, and for which there is room. */
  predicate MayAdd(files: map<Text, RepositoryFile>, file: RepositoryFile, isEntry: bool) {
    |file.content| <= MAXIMUM_SOURCE && |files| < MAXIMUM_FILES &&
    Total(files) + |file.content| <= MAXIMUM_BYTES && (isEntry ==> file.content != [])
  }

  // ---------- one document after another ----------

  lemma {:induction false} ReachShrinks(parsed: set<Document>, queue: seq<Document>)
    requires queue != []
    ensures parsed + Pending(queue) == parsed + {queue[0]} + Pending(queue[1..])
  {
    assert queue == [queue[0]] + queue[1..];
  }

  /** A document that was already taken is passed over. */
  lemma {:induction false} Skips(
      w: World, files: map<Text, RepositoryFile>, parsed: set<Document>, queue: seq<Document>, runtime: set<Text>)
    requires Walking(w, files, parsed, queue, runtime) && queue != [] && queue[0] in parsed
    ensures Walking(w, files, parsed, queue[1..], runtime)
    ensures parsed + Pending(queue) == parsed + Pending(queue[1..])
  {
    ReachShrinks(parsed, queue);
    assert parsed + {queue[0]} == parsed;
  }

  lemma {:induction false} HeldGrows(
      w: World, files: map<Text, RepositoryFile>, parsed: set<Document>, files': map<Text, RepositoryFile>, d: Document)
    requires Held(w, files, parsed) && WithinBudget(files') && ValidPath(d.path)
    requires files' == files || (d.path in files' && files' == files[d.path := files'[d.path]] &&
                                 w.read(d.path) == Found(files'[d.path]))
    ensures Held(w, files', parsed + {d})
  {
    forall name | name in files'
      ensures ValidPath(name) && w.read(name) == Found(files'[name]) && exists e | e in parsed + {d} :: e.path == name
    {
      if name in files && files'[name] == files[name] {
        var e :| e in parsed && e.path == name;
        assert e in parsed + {d};
      } else {
        assert d in parsed + {d};
      }
    }
  }

  /** Taking a document from the queue settles it, with its references behind it in the queue. */
  lemma {:induction false} Takes(
      w: World, files: map<Text, RepositoryFile>, parsed: set<Document>, queue: seq<Document>, runtime: set<Text>,
      files': map<Text, RepositoryFile>, more: seq<Document>, runtime': set<Text>)
    requires Walking(w, files, parsed, queue, runtime) && queue != [] && ValidDocuments(more)
    requires Held(w, files', parsed + {queue[0]}) && runtime <= runtime'
    requires forall name | name in files :: name in files' && files'[name] == files[name]
    requires forall path | path in runtime' :: ValidPath(path)
    requires Secured(w, files', Pending(more), runtime', queue[0])
    ensures Walking(w, files', parsed + {queue[0]}, queue[1..] + more, runtime')
    ensures parsed + Pending(queue) <= parsed + {queue[0]} + Pending(queue[1..] + more)
  {
    var reach := parsed + {queue[0]} + Pending(queue[1..] + more);
    NothingIsLost(parsed, queue, more);
    AllStaySecured(w, files, parsed, parsed + Pending(queue), runtime, files', reach, runtime');
    SecuredGrows(w, files', Pending(more), runtime', files', reach, runtime', queue[0]);
    LinkedAreValid(queue, more);
  }

  lemma {:induction false} NothingIsLost(parsed: set<Document>, queue: seq<Document>, more: seq<Document>)
    requires queue != []
    ensures parsed + Pending(queue) <= parsed + {queue[0]} + Pending(queue[1..] + more)
    ensures Pending(more) <= Pending(queue[1..] + more)
  {
    ReachShrinks(parsed, queue);
    assert forall d | d in queue[1..] :: d in queue[1..] + more;
    assert forall d | d in more :: d in queue[1..] + more;
  }

  lemma {:induction false} LinkedAreValid(queue: seq<Document>, more: seq<Document>)
    requires queue != [] && ValidDocuments(queue) && ValidDocuments(more)
    ensures ValidDocuments(queue[1..] + more)
  {
  }

  lemma {:induction false} AllStaySecured(
      w: World, files: map<Text, RepositoryFile>, parsed: set<Document>, reach: set<Document>, runtime: set<Text>,
      files': map<Text, RepositoryFile>, reach': set<Document>, runtime': set<Text>)
    requires (forall d | d in parsed :: Secured(w, files, reach, runtime, d)) && reach <= reach' && runtime <= runtime'
    requires forall name | name in files :: name in files' && files'[name] == files[name]
    ensures forall d | d in parsed :: Secured(w, files', reach', runtime', d)
  {
    forall d | d in parsed
      ensures Secured(w, files', reach', runtime', d)
    {
      SecuredGrows(w, files, reach, runtime, files', reach', runtime', d);
    }
  }

  datatype Walked = Walked(
    files: map<Text, RepositoryFile>, totalBytes: int, parsed: set<Document>, queue: seq<Document>, runtime: set<Text>)

  predicate Goes(w: World, walk: Walked) {
    Walking(w, walk.files, walk.parsed, walk.queue, walk.runtime) && walk.totalBytes == Total(walk.files)
  }

  /** The document is fit to be taken by itself: an optional one that is absent, or a file that is not too
      large, nor empty when it is the entry, and whose references can be followed if it is Compose. */
  predicate DocumentFits(w: World, d: Document, entry: Text) {
    if w.read(d.path).Missing? then d.optional
    else
      w.read(d.path).Found? && |w.read(d.path).file.content| <= MAXIMUM_SOURCE &&
      (d.path == entry ==> w.read(d.path).file.content != []) && (d.compose ==> Followable(w, d))
  }

  predicate Followable(w: World, d: Document) {
    w.read(d.path).Found? && w.parse(w.read(d.path).file.content).Some? &&
    ReferencesOf(w.parse(w.read(d.path).file.content).value, d.base).Some?
  }

  /** There is room for one more file. */
  predicate HasRoom(files: map<Text, RepositoryFile>, file: RepositoryFile) {
    |files| < MAXIMUM_FILES && Total(files) + |file.content| <= MAXIMUM_BYTES
  }

  /** The document fits, and there is room for it unless it is held already. */
  predicate MayTake(w: World, files: map<Text, RepositoryFile>, d: Document, entry: Text) {
    DocumentFits(w, d, entry) &&
    (w.read(d.path).Found? && d.path !in files ==> HasRoom(files, w.read(d.path).file))
  }

  /** What is held once the document was taken. */
  function WithDocument(w: World, files: map<Text, RepositoryFile>, d: Document): map<Text, RepositoryFile> {
    if w.read(d.path).Found? then files[d.path := w.read(d.path).file] else files
  }

  /** The entry is not empty, if it is held. */
  predicate EntryFilled(files: map<Text, RepositoryFile>, entry: Text) {
    entry in files ==> files[entry].content != []
  }

  /** Takes one document that was not taken before. */
  method TakeDocument(w: World, walk: Walked, entry: Text) returns (next: Option<Walked>)
    requires Goes(w, walk) && walk.queue != [] && walk.queue[0] !in walk.parsed && EntryFilled(walk.files, entry)
    ensures next.Some? <==> MayTake(w, walk.files, walk.queue[0], entry)
    ensures next.Some? ==>
      Goes(w, next.value) && EntryFilled(next.value.files, entry) &&
      next.value.files == WithDocument(w, walk.files, walk.queue[0]) &&
      next.value.parsed == walk.parsed + {walk.queue[0]} &&
      next.value.queue == walk.queue[1..] + Links(w, walk.queue[0]) &&
      next.value.runtime == walk.runtime + ToSet(RuntimeLinks(w, walk.queue[0]))
  {
    var item := walk.queue[0];
    var rest := walk.queue[1..];
    assert ValidDocument(item);
    if w.read(item.path).Missing? {
      if !item.optional {
        return None;
      }
      HeldGrows(w, walk.files, walk.parsed, walk.files, item);
      Takes(w, walk.files, walk.parsed, walk.queue, walk.runtime, walk.files, [], walk.runtime);
      assert rest + [] == rest;
      return Some(walk.(parsed := walk.parsed + {item}, queue := rest));
    }
    next := TakeFile(w, walk, entry);
  }

  /** The same for a document that is there, or cannot be read. */
  method TakeFile(w: World, walk: Walked, entry: Text) returns (next: Option<Walked>)
    requires Goes(w, walk) && walk.queue != [] && !w.read(walk.queue[0].path).Missing?
    requires ValidDocument(walk.queue[0]) && EntryFilled(walk.files, entry)
    ensures next.Some? <==> MayTake(w, walk.files, walk.queue[0], entry)
    ensures next.Some? ==>
      Goes(w, next.value) && EntryFilled(next.value.files, entry) &&
      next.value.files == WithDocument(w, walk.files, walk.queue[0]) &&
      next.value.parsed == walk.parsed + {walk.queue[0]} &&
      next.value.queue == walk.queue[1..] + Links(w, walk.queue[0]) &&
      next.value.runtime == walk.runtime + ToSet(RuntimeLinks(w, walk.queue[0]))
  {
    var item := walk.queue[0];
    TakenExactly(w, walk.files, walk.parsed, item, entry);
    var held, total := ReadDocument(w, walk.files, walk.totalBytes, item, entry);
    if held.None? {
      return None;
    }
    var references := FollowDocument(w, item, held.value[item.path]);
    if references.None? {
      return None;
    }
    EntryStaysFilled(w, walk.files, item, entry);
    var runtime := walk.runtime + ToSet(references.value.runtimePaths);
    TakesFile(w, walk, held.value, references.value, runtime);
    return Some(Walked(held.value, total, walk.parsed + {item}, walk.queue[1..] + references.value.documents, runtime));
  }

  /** The checks on a document that is there, in the order in which they are made. */
  lemma {:induction false} TakenExactly(
      w: World, files: map<Text, RepositoryFile>, parsed: set<Document>, d: Document, entry: Text)
    requires Held(w, files, parsed) && EntryFilled(files, entry) && !w.read(d.path).Missing?
    ensures d.path in files ==> w.read(d.path) == Found(files[d.path])
    ensures MayTake(w, files, d, entry) <==>
            w.read(d.path).Found? && (d.path in files || MayAdd(files, w.read(d.path).file, d.path == entry)) &&
            (d.compose ==> Followable(w, d))
  {
    HeldIsRead(w, files, parsed, d.path);
  }

  lemma {:induction false} EntryStaysFilled(w: World, files: map<Text, RepositoryFile>, d: Document, entry: Text)
    requires EntryFilled(files, entry) && w.read(d.path).Found?
    requires d.path == entry ==> w.read(d.path).file.content != []
    ensures EntryFilled(WithDocument(w, files, d), entry)
  {
  }

  /** The references of a document that was read; none if it is not Compose. */
  method FollowDocument(w: World, d: Document, file: RepositoryFile) returns (references: Option<References>)
    requires w.read(d.path) == Found(file)
    ensures references.Some? <==> (d.compose ==> Followable(w, d))
    ensures references.Some? ==>
      references.value == References(Links(w, d), RuntimeLinks(w, d)) && Followed(w, d, file, references.value)
  {
    if !d.compose {
      return Some(References([], []));
    }
    references := ExpandDocument(w, file.content, d.base);
  }

  /** The references are valid, and all that the document has. */
  predicate Followed(w: World, d: Document, file: RepositoryFile, references: References) {
    ValidDocuments(references.documents) && (forall path | path in references.runtimePaths :: ValidPath(path)) &&
    (d.compose ==> Expands(w, file.content, d.base, Pending(references.documents), ToSet(references.runtimePaths)))
  }

  lemma {:induction false} TakesFile(
      w: World, walk: Walked, held: map<Text, RepositoryFile>, references: References, runtime: set<Text>)
    requires Walking(w, walk.files, walk.parsed, walk.queue, walk.runtime) && walk.queue != [] && WithinBudget(held)
    requires w.read(walk.queue[0].path).Found? && held == WithDocument(w, walk.files, walk.queue[0])
    requires Followed(w, walk.queue[0], held[walk.queue[0].path], references)
    requires runtime == walk.runtime + ToSet(references.runtimePaths)
    ensures Walking(w, held, walk.parsed + {walk.queue[0]}, walk.queue[1..] + references.documents, runtime)
  {
    var item := walk.queue[0];
    assert ValidDocument(item);
    HeldIsRead(w, walk.files, walk.parsed, item.path);
    HeldGrows(w, walk.files, walk.parsed, held, item);
    SecuredFile(w, held, item, references, runtime);
    Takes(w, walk.files, walk.parsed, walk.queue, walk.runtime, held, references.documents, runtime);
  }

  lemma {:induction false} SecuredFile(
      w: World, held: map<Text, RepositoryFile>, d: Document, references: References, runtime: set<Text>)
    requires ValidDocument(d) && d.path in held && w.read(d.path) == Found(held[d.path])
    requires Followed(w, d, held[d.path], references) && ToSet(references.runtimePaths) <= runtime
    ensures Secured(w, held, Pending(references.documents), runtime, d)
  {
  }

  lemma {:induction false} HeldIsRead(w: World, files: map<Text, RepositoryFile>, parsed: set<Document>, name: Text)
    requires Held(w, files, parsed)
    ensures name in files ==> w.read(name) == Found(files[name]) && |files[name].content| <= MAXIMUM_SOURCE
  {
  }

  method ExpandDocument(w: World, content: Encoding.Bytes, base: Text) returns (references: Option<References>)
    ensures references.Some? ==>
      Expands(w, content, base, Pending(references.value.documents), ToSet(references.value.runtimePaths)) &&
      ValidDocuments(references.value.documents) &&
      forall path | path in references.value.runtimePaths :: ValidPath(path)
    ensures references == if w.parse(content).None? then None else ReferencesOf(w.parse(content).value, base)
  {
    var parsed := w.parse(content);
    if parsed.None? {
      return None;
    }
    references := DocumentReferences(parsed.value, base);
    if references.Some? {
      ReferencesAreValid(parsed.value, base);
    }
  }

  // ---------- the whole walk ----------

  /** Everything reached is settled, and nothing else was reached for. */
  predicate Closed(w: World, files: map<Text, RepositoryFile>, parsed: set<Document>, runtime: set<Text>) {
    forall d | d in parsed :: Secured(w, files, parsed, runtime, d)
  }

  predicate Distinct<T(==)>(values: seq<T>) {
    forall i, j | 0 <= i < j < |values| :: values[i] != values[j]
  }

  lemma {:induction false} DistinctGrows(visits: seq<Document>, d: Document)
    requires Distinct(visits) && d !in visits
    ensures Distinct(visits + [d]) && ToSet(visits + [d]) == ToSet(visits) + {d}
  {
  }

  // ---------- what can be reached ----------

  predicate ClosedUnder(w: World, scope: set<Document>) {
    forall d | d in scope :: Pending(Links(w, d)) <= scope
  }

  /** Exactly the documents that the walk can come to: the least set with the first that is closed. */
  ghost predicate IsReach(w: World, first: seq<Document>, scope: set<Document>) {
    Pending(first) <= scope && ClosedUnder(w, scope) &&
    forall other: set<Document> | Pending(first) <= other && ClosedUnder(w, other) :: scope <= other
  }

  /** Inside any finite set with the first that is closed lies the least one. */
  lemma {:induction false} ReachExists(w: World, first: seq<Document>, closed: set<Document>)
    returns (scope: set<Document>)
    requires Pending(first) <= closed && ClosedUnder(w, closed)
    ensures IsReach(w, first, scope) && scope <= closed
    decreases |closed|
  {
    if IsReach(w, first, closed) {
      return closed;
    }
    var other: set<Document> :| Pending(first) <= other && ClosedUnder(w, other) && !(closed <= other);
    var smaller := closed * other;
    ClosedMeet(w, closed, other);
    assert smaller < closed;
    ProperIsSmaller(smaller, closed);
    scope := ReachExists(w, first, smaller);
  }

  lemma {:induction false} ClosedMeet(w: World, left: set<Document>, right: set<Document>)
    requires ClosedUnder(w, left) && ClosedUnder(w, right)
    ensures ClosedUnder(w, left * right)
  {
    forall d | d in left * right
      ensures Pending(Links(w, d)) <= left * right
    {
      assert Pending(Links(w, d)) <= left && Pending(Links(w, d)) <= right;
    }
  }

  lemma {:induction false} ProperIsSmaller(part: set<Document>, whole: set<Document>)
    requires part < whole
    ensures |part| < |whole|
  {
    assert whole == part + (whole - part);
    assert |whole - part| > 0 by {
      assert exists d :: d in whole - part;
    }
  }

  /** The files of the documents. */
  function FilesOf(w: World, scope: set<Document>): map<Text, RepositoryFile> {
    var names := set d | d in scope && w.read(d.path).Found? :: d.path;
    map name | name in names && w.read(name).Found? :: w.read(name).file
  }

  /** The runtime paths of the documents. */
  function RuntimeOf(w: World, scope: set<Document>): set<Text> {
    set d, path | d in scope && path in RuntimeLinks(w, d) :: path
  }

  lemma {:induction false} RuntimeGrows(w: World, parsed: set<Document>, d: Document)
    ensures RuntimeOf(w, parsed + {d}) == RuntimeOf(w, parsed) + ToSet(RuntimeLinks(w, d))
  {
  }

  /** Every document fits, and together their files fit the budget. */
  predicate Capturable(w: World, scope: set<Document>, entry: Text) {
    (forall d | d in scope :: DocumentFits(w, d, entry)) &&
    |FilesOf(w, scope)| <= MAXIMUM_FILES && Total(FilesOf(w, scope)) <= MAXIMUM_BYTES
  }

  /** The documents lie in every set with the first that is closed. */
  ghost predicate Needed(w: World, first: seq<Document>, documents: set<Document>) {
    forall other: set<Document> | Pending(first) <= other && ClosedUnder(w, other) :: documents <= other
  }

  lemma {:induction false} NeededGrows(w: World, first: seq<Document>, parsed: set<Document>, queue: seq<Document>)
    requires queue != [] && Needed(w, first, parsed + Pending(queue))
    ensures Needed(w, first, parsed + {queue[0]} + Pending(queue[1..] + Links(w, queue[0])))
  {
    var next := parsed + {queue[0]} + Pending(queue[1..] + Links(w, queue[0]));
    forall other: set<Document> | Pending(first) <= other && ClosedUnder(w, other)
      ensures next <= other
    {
      assert parsed + Pending(queue) <= other && queue[0] in Pending(queue);
      assert Pending(Links(w, queue[0])) <= other;
      forall d | d in queue[1..] + Links(w, queue[0])
        ensures d in other
      {
        assert d in queue[1..] || d in Pending(Links(w, queue[0]));
        assert d in queue[1..] ==> d in Pending(queue);
      }
    }
  }

  lemma {:induction false} FilesGrow(w: World, parsed: set<Document>, d: Document)
    ensures FilesOf(w, parsed + {d}) == WithDocument(w, FilesOf(w, parsed), d)
  {
  }

  lemma {:induction false} PartOfFiles(w: World, parsed: set<Document>, scope: set<Document>)
    requires parsed <= scope
    ensures Includes(FilesOf(w, parsed), FilesOf(w, scope))
  {
  }

  /** While everything that can be reached fits, the next document may be taken. */
  lemma {:induction false} CapturableMayTake(
      w: World, files: map<Text, RepositoryFile>, parsed: set<Document>, d: Document, scope: set<Document>, entry: Text)
    requires files == FilesOf(w, parsed) && parsed <= scope && d in scope && Capturable(w, scope, entry)
    ensures MayTake(w, files, d, entry)
  {
    if w.read(d.path).Found? && d.path !in files {
      PartOfFiles(w, parsed, scope);
      assert d.path in FilesOf(w, scope);
      NextFits(files, FilesOf(w, scope), d.path);
    }
  }

  /** Whatever can be reached, it does not fit. */
  ghost predicate Hopeless(w: World, first: seq<Document>, entry: Text) {
    forall scope: set<Document> | IsReach(w, first, scope) :: !Capturable(w, scope, entry)
  }

  /** There is a least closed set of documents, and all of it fits. */
  ghost predicate CanCapture(w: World, first: seq<Document>, entry: Text) {
    exists scope: set<Document> :: IsReach(w, first, scope) && Capturable(w, scope, entry)
  }

  lemma {:induction false} RefusedIsHopeless(w: World, first: seq<Document>, walk: Walked, entry: Text)
    requires Needed(w, first, walk.parsed + Pending(walk.queue)) && walk.files == FilesOf(w, walk.parsed)
    requires walk.queue != [] && !MayTake(w, walk.files, walk.queue[0], entry)
    ensures Hopeless(w, first, entry)
  {
    forall scope: set<Document> | IsReach(w, first, scope)
      ensures !Capturable(w, scope, entry)
    {
      assert walk.parsed + Pending(walk.queue) <= scope && walk.queue[0] in Pending(walk.queue);
      if Capturable(w, scope, entry) {
        CapturableMayTake(w, walk.files, walk.parsed, walk.queue[0], scope, entry);
      }
    }
  }

  lemma {:induction false} SecuredFits(w: World, walk: Walked, d: Document, entry: Text)
    requires WithinBudget(walk.files) && EntryFilled(walk.files, entry)
    requires Secured(w, walk.files, walk.parsed, walk.runtime, d)
    ensures DocumentFits(w, d, entry) && Pending(Links(w, d)) <= walk.parsed
  {
    if w.read(d.path).Found? && d.compose {
      forall e | e in Links(w, d)
        ensures e in walk.parsed
      {
        var i :| 0 <= i < |Links(w, d)| && Links(w, d)[i] == e;
      }
    }
  }

  lemma {:induction false} WalkEnds(w: World, walk: Walked)
    requires Goes(w, walk) && walk.queue == []
    ensures walk.parsed + Pending(walk.queue) == walk.parsed
    ensures Closed(w, walk.files, walk.parsed, walk.runtime)
  {
    assert Pending(walk.queue) == {};
    assert walk.parsed + Pending(walk.queue) == walk.parsed;
  }

  /** A walk that has come to its end has taken exactly what can be reached, and all of it fits. */
  lemma {:induction false} ReachIsTaken(w: World, first: seq<Document>, walk: Walked, entry: Text)
    requires Goes(w, walk) && walk.queue == [] && EntryFilled(walk.files, entry)
    requires walk.files == FilesOf(w, walk.parsed) && Pending(first) <= walk.parsed
    requires Needed(w, first, walk.parsed)
    ensures IsReach(w, first, walk.parsed) && Capturable(w, walk.parsed, entry)
  {
    WalkEnds(w, walk);
    forall d | d in walk.parsed
      ensures DocumentFits(w, d, entry) && Pending(Links(w, d)) <= walk.parsed
    {
      SecuredFits(w, walk, d, entry);
    }
  }

  /** There is at most one least closed set. */
  lemma {:induction false} ReachIsOne(w: World, first: seq<Document>, left: set<Document>, right: set<Document>)
    requires IsReach(w, first, left) && IsReach(w, first, right)
    ensures left == right
  {
  }

  // ---------- why the loop ends ----------

  /** The place of the first document in the queue that adds a file or ends the walk; its length if none does. */
  function Ahead(w: World, paths: set<Text>, queue: seq<Document>): (n: nat)
    ensures n <= |queue| && forall i | 0 <= i < n :: Within(w, paths, queue[i])
    ensures n < |queue| ==> !Within(w, paths, queue[n])
  {
    if queue == [] || !Within(w, paths, queue[0]) then 0 else 1 + Ahead(w, paths, queue[1..])
  }

  /** No document in the queue adds a file. */
  predicate Turning(w: World, walk: Walked) {
    Ahead(w, walk.files.Keys, walk.queue) == |walk.queue|
  }

  function Stage(w: World, walk: Walked): nat {
    if Turning(w, walk) then 1 else 0
  }

  /** How far it is to the next file; while there is none to come, how many documents can still be taken. */
  ghost function Distance(w: World, walk: Walked, all: set<Document>): nat {
    if Turning(w, walk) then |all - walk.parsed| else Ahead(w, walk.files.Keys, walk.queue)
  }

  /** These are all the documents that can be taken while no file is added. */
  predicate Bounded(w: World, walk: Walked, all: set<Document>) {
    ClosedWithin(w, walk.files.Keys, all) && (Turning(w, walk) ==> Pending(walk.queue) <= all)
  }

  /** What one turn does to the queue, the documents taken and the files. */
  predicate Turned(w: World, walk: Walked, next: Walked) {
    walk.queue != [] &&
    if walk.queue[0] in walk.parsed then next == walk.(queue := walk.queue[1..])
    else
      next.parsed == walk.parsed + {walk.queue[0]} && next.queue == walk.queue[1..] + Links(w, walk.queue[0]) &&
      next.files == WithDocument(w, walk.files, walk.queue[0])
  }

  lemma {:induction false} HeldChangesNothing(w: World, files: map<Text, RepositoryFile>, d: Document)
    requires forall name | name in files :: w.read(name) == Found(files[name])
    ensures d.path in files || !w.read(d.path).Found? ==> WithDocument(w, files, d) == files
  {
  }

  lemma {:induction false} TurnAddsOne(w: World, walk: Walked, next: Walked)
    requires Turned(w, walk, next) && next.files != walk.files
    requires forall name | name in walk.files :: w.read(name) == Found(walk.files[name])
    ensures |next.files| == |walk.files| + 1
  {
    var path := walk.queue[0].path;
    HeldChangesNothing(w, walk.files, walk.queue[0]);
    assert next.files.Keys == walk.files.Keys + {path};
    assert |next.files| == |next.files.Keys| && |walk.files| == |walk.files.Keys|;
  }

  lemma {:induction false} OneAhead(w: World, paths: set<Text>, queue: seq<Document>, more: seq<Document>)
    requires queue != [] && Within(w, paths, queue[0])
    ensures Ahead(w, paths, queue) < |queue| ==> Ahead(w, paths, queue[1..] + more) == Ahead(w, paths, queue) - 1
    ensures Ahead(w, paths, queue) < |queue| ==> Ahead(w, paths, queue[1..] + more) < |queue[1..] + more|
  {
    if Ahead(w, paths, queue) < |queue| {
      AheadIsFirst(w, paths, queue[1..], more);
    }
  }

  lemma {:induction false} AheadIsFirst(w: World, paths: set<Text>, queue: seq<Document>, more: seq<Document>)
    requires Ahead(w, paths, queue) < |queue|
    ensures Ahead(w, paths, queue + more) == Ahead(w, paths, queue)
  {
    if Within(w, paths, queue[0]) {
      AheadIsFirst(w, paths, queue[1..], more);
      assert (queue + more)[1..] == queue[1..] + more;
    }
  }

  /** A turn that adds no file takes a document that adds none. */
  lemma {:induction false} TakenIsWithin(w: World, walk: Walked, next: Walked)
    requires Turned(w, walk, next) && next.files == walk.files
    requires walk.queue[0] in next.parsed
    requires Secured(w, next.files, next.parsed + Pending(next.queue), next.runtime, walk.queue[0])
    ensures Within(w, walk.files.Keys, walk.queue[0])
  {
  }

  /** The measure: fewer turns to the next file, or fewer documents to take, or a shorter queue. */
  ghost predicate Nearer(w: World, walk: Walked, next: Walked, all: set<Document>) {
    Stage(w, next) < Stage(w, walk) ||
    (Stage(w, next) == Stage(w, walk) &&
     (Distance(w, next, all) < Distance(w, walk, all) ||
      (Distance(w, next, all) == Distance(w, walk, all) && |next.queue| < |walk.queue|)))
  }

  /** While some document ahead adds a file, each turn brings it nearer. */
  lemma {:induction false} NearerToFile(w: World, walk: Walked, next: Walked, all: set<Document>)
    requires Turned(w, walk, next) && next.files == walk.files && !Turning(w, walk)
    requires Within(w, walk.files.Keys, walk.queue[0])
    ensures !Turning(w, next) && Nearer(w, walk, next, all)
  {
    OneAhead(w, walk.files.Keys, walk.queue, if walk.queue[0] in walk.parsed then [] else Links(w, walk.queue[0]));
    assert walk.queue[1..] + [] == walk.queue[1..];
  }

  lemma {:induction false} AllAreWithin(w: World, paths: set<Text>, queue: seq<Document>, more: seq<Document>)
    requires Ahead(w, paths, queue + more) == |queue + more|
    ensures forall i | 0 <= i < |more| :: Within(w, paths, more[i])
  {
    forall i | 0 <= i < |more|
      ensures Within(w, paths, more[i])
    {
      assert (queue + more)[|queue| + i] == more[i];
    }
  }

  lemma {:induction false} FewerLeft(all: set<Document>, parsed: set<Document>, d: Document)
    requires d in all && d !in parsed
    ensures |all - (parsed + {d})| < |all - parsed|
  {
    assert all - (parsed + {d}) == (all - parsed) - {d};
  }

  /** While none does, each turn takes one of finitely many documents, or shortens the queue. */
  lemma {:induction false} NearerToEnd(w: World, walk: Walked, next: Walked, all: set<Document>)
    requires Turned(w, walk, next) && next.files == walk.files && Turning(w, walk) && Bounded(w, walk, all)
    ensures Nearer(w, walk, next, all) && Bounded(w, next, all)
  {
    var item := walk.queue[0];
    assert item in Pending(walk.queue);
    if item in walk.parsed {
      ShorterIsTurning(w, walk.files.Keys, walk.queue);
      assert Pending(next.queue) <= Pending(walk.queue);
    } else {
      FewerLeft(all, walk.parsed, item);
      if Turning(w, next) {
        AllAreWithin(w, walk.files.Keys, walk.queue[1..], Links(w, item));
        assert LinksWithin(w, walk.files.Keys, item);
        LinkedAreBounded(walk.queue, Links(w, item), all);
      }
    }
  }

  lemma {:induction false} ShorterIsTurning(w: World, paths: set<Text>, queue: seq<Document>)
    requires queue != [] && Ahead(w, paths, queue) == |queue|
    ensures Ahead(w, paths, queue[1..]) == |queue[1..]|
  {
  }

  lemma {:induction false} LinkedAreBounded(queue: seq<Document>, links: seq<Document>, all: set<Document>)
    requires queue != [] && Pending(queue) <= all && Pending(links) <= all
    ensures Pending(queue[1..] + links) <= all
  {
    forall d | d in queue[1..] + links
      ensures d in all
    {
      assert d in queue[1..] || d in Pending(links);
      assert d in queue[1..] ==> d in Pending(queue);
    }
  }

  /** Every turn that adds no file brings the walk nearer to its next file or its end. */
  lemma {:induction false} ComesNearer(w: World, walk: Walked, next: Walked, all: set<Document>)
    requires Turned(w, walk, next) && next.files == walk.files && Bounded(w, walk, all)
    requires Within(w, walk.files.Keys, walk.queue[0])
    ensures Nearer(w, walk, next, all) && Bounded(w, next, all)
  {
    if Turning(w, walk) {
      NearerToEnd(w, walk, next, all);
    } else {
      NearerToFile(w, walk, next, all);
    }
  }

  // ---------- the loop ----------

  /** The walk goes on well, from these first documents. */
  ghost predicate Proceeds(w: World, first: seq<Document>, walk: Walked, entry: Text) {
    Goes(w, walk) && EntryFilled(walk.files, entry) && Pending(first) <= walk.parsed + Pending(walk.queue) &&
    Needed(w, first, walk.parsed + Pending(walk.queue)) &&
    walk.files == FilesOf(w, walk.parsed) && walk.runtime == RuntimeOf(w, walk.parsed)
  }

  /** The documents that bound the turns until the next file, when they change. */
  lemma {:induction false} BoundNext(w: World, walk: Walked) returns (all: set<Document>)
    requires Goes(w, walk)
    ensures Bounded(w, walk, all)
  {
    forall i | 0 <= i < |walk.queue|
      ensures ValidDocument(walk.queue[i])
    {
    }
    all := FinitelyManyWithin(w, walk.files.Keys, Pending(walk.queue));
  }

  /** A turn either adds a file or brings the walk nearer; in both cases it is still bounded. */
  lemma {:induction false} StaysBounded(
      w: World, first: seq<Document>, walk: Walked, next: Walked, entry: Text, all: set<Document>)
    returns (bound: set<Document>)
    requires Proceeds(w, first, walk, entry) && Proceeds(w, first, next, entry)
    requires Turned(w, walk, next) && walk.queue[0] in next.parsed && Bounded(w, walk, all)
    ensures Bounded(w, next, bound)
    ensures |next.files| <= MAXIMUM_FILES &&
      (|next.files| > |walk.files| || (|next.files| == |walk.files| && bound == all && Nearer(w, walk, next, all)))
  {
    if next.files == walk.files {
      TakenIsWithin(w, walk, next);
      ComesNearer(w, walk, next, all);
      bound := all;
    } else {
      TurnAddsOne(w, walk, next);
      bound := BoundNext(w, next);
    }
  }

  /** The loop of the walk: turn after turn until the queue is empty. It comes to an end in every world,
      because the files that it may take are limited, and so are the turns between two of them. */
  method WalkOn(w: World, first: seq<Document>, entry: Text)
    returns (end: Option<Walked>, ghost visits: seq<Document>)
    requires Proceeds(w, first, Walked(map[], 0, {}, first, {}), entry)
    ensures end.Some? ==>
      Proceeds(w, first, end.value, entry) && end.value.queue == [] &&
      Distinct(visits) && ToSet(visits) == end.value.parsed
    ensures end.None? ==> Hopeless(w, first, entry)
  {
    visits := [];
    var state := Walked(map[], 0, {}, first, {});
    ghost var all := BoundNext(w, state);
    while state.queue != []
      invariant Proceeds(w, first, state, entry) && Distinct(visits) && ToSet(visits) == state.parsed
      invariant Bounded(w, state, all)
      decreases MAXIMUM_FILES - |state.files|, Stage(w, state), Distance(w, state, all), |state.queue|
    {
      visits := Visited(visits, state.queue[0]);
      var next := Turn(w, first, state, entry);
      if next.None? {
        return None, visits;
      }
      all := StaysBounded(w, first, state, next.value, entry, all);
      state := next.value;
    }
    return Some(state), visits;
  }

  /** Each document is entered once. */
  ghost function Visited(visits: seq<Document>, d: Document): (longer: seq<Document>)
    requires Distinct(visits)
    ensures Distinct(longer) && ToSet(longer) == ToSet(visits) + {d}
  {
    if d in visits then
      assert ToSet(visits) + {d} == ToSet(visits);
      visits
    else
      DistinctGrows(visits, d);
      visits + [d]
  }

  lemma {:induction false} WalkBegins(w: World, first: seq<Document>, entry: Text)
    requires ValidDocuments(first)
    ensures Proceeds(w, first, Walked(map[], 0, {}, first, {}), entry)
  {
    assert {} + Pending(first) == Pending(first);
    assert FilesOf(w, {}) == map[] && RuntimeOf(w, {}) == {};
  }

  /** The breadth-first walk from the entry and its environment file. The visits are the documents that
      were looked into, in order. The walk succeeds exactly when there is a least set of documents that is
      closed under references and all of it fits; then it has taken exactly that. */
  method WalkDocuments(w: World, first: seq<Document>, entry: Text)
    returns (walk: Option<Walked>, ghost visits: seq<Document>)
    requires ValidDocuments(first)
    ensures walk.Some? <==> CanCapture(w, first, entry)
    ensures walk.Some? ==>
      Held(w, walk.value.files, walk.value.parsed) && walk.value.totalBytes == Total(walk.value.files) &&
      Closed(w, walk.value.files, walk.value.parsed, walk.value.runtime) &&
      (forall path | path in walk.value.runtime :: ValidPath(path))
    ensures walk.Some? ==> Pending(first) <= walk.value.parsed && EntryFilled(walk.value.files, entry)
    ensures walk.Some? ==> Distinct(visits) && ToSet(visits) == walk.value.parsed
    ensures walk.Some? ==>
      IsReach(w, first, walk.value.parsed) && Capturable(w, walk.value.parsed, entry) &&
      walk.value.files == FilesOf(w, walk.value.parsed) && walk.value.runtime == RuntimeOf(w, walk.value.parsed)
  {
    WalkBegins(w, first, entry);
    walk, visits := WalkOn(w, first, entry);
    if walk.Some? {
      WalkEnds(w, walk.value);
      ReachIsTaken(w, first, walk.value, entry);
    }
  }

  /** One turn of the loop: passes over a document that was taken before, or takes it. */
  method Turn(w: World, ghost first: seq<Document>, walk: Walked, entry: Text)
    returns (next: Option<Walked>)
    requires Proceeds(w, first, walk, entry) && walk.queue != []
    ensures next.None? ==> Hopeless(w, first, entry)
    ensures next.Some? ==>
      Proceeds(w, first, next.value, entry) && Turned(w, walk, next.value) &&
      next.value.parsed == walk.parsed + {walk.queue[0]}
  {
    var item := walk.queue[0];
    NothingIsLost(walk.parsed, walk.queue, Links(w, item));
    if item in walk.parsed {
      Skips(w, walk.files, walk.parsed, walk.queue, walk.runtime);
      assert walk.parsed + {item} == walk.parsed;
      return Some(walk.(queue := walk.queue[1..]));
    }
    next := TakeDocument(w, walk, entry);
    if next.Some? {
      NeededGrows(w, first, walk.parsed, walk.queue);
      FilesGrow(w, walk.parsed, item);
      RuntimeGrows(w, walk.parsed, item);
    } else {
      RefusedIsHopeless(w, first, walk, entry);
    }
  }
}
