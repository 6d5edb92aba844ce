/** The tracked files of a repository, and what the documents among them lead to. */
module Tracked {
  import opened Budget
  import opened References
  import opened Values
  import Encoding

  /** A tracked file, its absence, or a snapshot that cannot be read. */
  datatype ReadResult = Found(file: RepositoryFile) | Missing | Unreadable

  datatype PathSnapshot = PathSnapshot(directory: bool, files: map<Text, RepositoryFile>)

  datatype RepositoryPath = RepositoryPath(path: Text, directory: bool)

  /** The tracked files, the YAML reader and the environment reader. */
  datatype World = World(
    read: Text -> ReadResult,
    readPath: Text -> Option<PathSnapshot>,
    parse: Encoding.Bytes -> Option<Parsed>,
    parseEnvironment: Encoding.Bytes -> Option<map<Text, Text>>)

  function Pending(queue: seq<Document>): set<Document> {
    set d | d in queue
  }

  function ToSet<T(==)>(values: seq<T>): set<T> {
    set v | v in values
  }

  /** What following a document leads to. */
  function Links(w: World, d: Document): seq<Document> {
    if !d.compose || !w.read(d.path).Found? || w.parse(w.read(d.path).file.content).None? then []
    else
      var references := ReferencesOf(w.parse(w.read(d.path).file.content).value, d.base);
      if references.None? then [] else references.value.documents
  }

  /** The runtime paths that a document names. */
  function RuntimeLinks(w: World, d: Document): seq<Text> {
    if !d.compose || !w.read(d.path).Found? || w.parse(w.read(d.path).file.content).None? then []
    else
      var references := ReferencesOf(w.parse(w.read(d.path).file.content).value, d.base);
      if references.None? then [] else references.value.runtimePaths
  }
}
