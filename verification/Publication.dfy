/** Publishing a backup: stage everything in a hidden directory, then give it its final name in one
    rename. Other publishers act between any two operations, and any operation may fail, also after
    it has taken effect. */
module Publication {
  import opened Encoding
  import opened Manifest
  import opened Values
  import Hex
  import Ordering
  import Sorting

  /** The backup root: names of directories, and the files of each directory. */
  datatype Tree = Tree(root: map<Text, nat>, dirs: map<nat, map<Text, Bytes>>)

  ghost predicate WellFormed(t: Tree) {
    (forall n | n in t.root :: t.root[n] in t.dirs) &&
    forall n, m | n in t.root && m in t.root && t.root[n] == t.root[m] :: n == m
  }

  /** Staging directories are hidden; publications are not. */
  predicate Hidden(name: Text) {
    name != [] && name[0] == 46
  }

  function FinalName(transaction: Hex.Identifier): Text {
    Hex.IdentifierString(transaction)
  }

  /** A dot, the identity, ".partial." and the nonce. */
  function PartialName(transaction: Hex.Identifier, nonce: Text): Text {
    [46] + Hex.IdentifierString(transaction) + [46, 112, 97, 114, 116, 105, 97, 108, 46] + nonce
  }

  lemma {:induction false} NamesAreApart(transaction: Hex.Identifier, nonce: Text)
    ensures Hidden(PartialName(transaction, nonce)) && !Hidden(FinalName(transaction))
  {
  }

  /** The bytes of "manifest.json". */
  const MANIFEST_NAME: Text := [109, 97, 110, 105, 102, 101, 115, 116, 46, 106, 115, 111, 110]
  const MAXIMUM_MANIFEST: nat := 65536

  /** How archives are hashed and scanned and manifests written down; none of it is looked into. */
  datatype Codec = Codec(hash: Bytes -> Digest, scan: Bytes -> Option<Inventory>, json: ManifestWire -> Bytes)

  function Canonical(c: Codec, m: Manifest): Bytes {
    c.json(ManifestToWire(m))
  }

  /** The file is the archive that the manifest describes. */
  predicate IsArtifact(c: Codec, bytes: Bytes, artifact: Artifact) {
    |bytes| == artifact.inventory.archiveBytes && c.hash(bytes) == artifact.inventory.archiveDigest
  }

  function ArtifactNames(n: nat): set<Text> {
    set i | 0 <= i < n :: ArtifactName(i)
  }

  /** The first n artifacts are there as the manifest describes them. */
  predicate HoldsFirst(c: Codec, dir: map<Text, Bytes>, m: Manifest, n: nat)
    requires n <= |m.artifacts|
  {
    n == 0 || (HoldsFirst(c, dir, m, n - 1) && HoldsArtifact(c, dir, ArtifactName(n - 1), m.artifacts[n - 1]))
  }

  predicate HoldsArtifact(c: Codec, dir: map<Text, Bytes>, file: Text, artifact: Artifact) {
    file in dir && IsArtifact(c, dir[file], artifact)
  }

  /** The directory holds exactly the first n artifacts. */
  predicate HasArtifacts(c: Codec, dir: map<Text, Bytes>, m: Manifest, n: nat)
    requires n <= |m.artifacts|
  {
    dir.Keys == ArtifactNames(n) && HoldsFirst(c, dir, m, n)
  }

  /** The directory holds the manifest and exactly its artifacts. */
  predicate Complete(c: Codec, dir: map<Text, Bytes>, m: Manifest) {
    dir.Keys == {MANIFEST_NAME} + ArtifactNames(|m.artifacts|) &&
    dir[MANIFEST_NAME] == Canonical(c, m) &&
    forall i | 0 <= i < |m.artifacts| :: IsArtifact(c, dir[ArtifactName(i)], m.artifacts[i])
  }

  // ---------- what every step keeps ----------

  /** Published directories stay as they are. */
  ghost predicate Keeps(before: Tree, after: Tree) {
    forall n | n in before.root && !Hidden(n) ::
      n in after.root && after.root[n] == before.root[n] && before.root[n] in before.dirs &&
      before.root[n] in after.dirs && after.dirs[before.root[n]] == before.dirs[before.root[n]]
  }

  /** A publication appears whole. */
  ghost predicate AppearsComplete(c: Codec, before: Tree, after: Tree) {
    forall n | n in after.root && !Hidden(n) && n !in before.root ::
      after.root[n] in after.dirs &&
      exists m: Manifest :: n == FinalName(m.transactionID) && Complete(c, after.dirs[after.root[n]], m)
  }

  ghost predicate Safe(c: Codec, before: Tree, after: Tree) {
    WellFormed(after) && Keeps(before, after) && AppearsComplete(c, before, after)
  }

  lemma {:induction false} SafeItself(c: Codec, t: Tree)
    requires WellFormed(t)
    ensures Safe(c, t, t)
  {
  }

  lemma {:induction false} SafeTransitive(c: Codec, before: Tree, middle: Tree, after: Tree)
    requires Safe(c, before, middle) && Safe(c, middle, after)
    ensures Safe(c, before, after)
  {
    forall n | n in after.root && !Hidden(n) && n !in before.root
      ensures after.root[n] in after.dirs &&
              exists m: Manifest :: n == FinalName(m.transactionID) && Complete(c, after.dirs[after.root[n]], m)
    {
      if n in middle.root {
        var m: Manifest :| n == FinalName(m.transactionID) && Complete(c, middle.dirs[middle.root[n]], m);
        assert Complete(c, after.dirs[after.root[n]], m);
      }
    }
  }

  /** Others leave a staging directory alone: its name, its files, and who else might share it. */
  ghost predicate LeavesAlone(before: Tree, after: Tree, name: Text, id: nat) {
    (name in before.root <==> name in after.root) && (name in before.root ==> after.root[name] == before.root[name]) &&
    (id in before.dirs ==> id in after.dirs && after.dirs[id] == before.dirs[id]) &&
    forall n | n in after.root && after.root[n] == id :: n in before.root && before.root[n] == id
  }

  /** What a publisher may rely on while others act. */
  ghost predicate Others(c: Codec, before: Tree, after: Tree, name: Text, id: nat) {
    Safe(c, before, after) && LeavesAlone(before, after, name, id)
  }

  lemma {:induction false} OthersTransitive(c: Codec, before: Tree, middle: Tree, after: Tree, name: Text, id: nat)
    requires Others(c, before, middle, name, id) && Others(c, middle, after, name, id)
    ensures Others(c, before, after, name, id)
  {
    SafeTransitive(c, before, middle, after);
  }

  // ---------- the operations of one publisher ----------

  /** An exclusive mkdir of the staging directory. */
  predicate Made(before: Tree, after: Tree, name: Text, id: nat) {
    name !in before.root && id !in before.dirs && Hidden(name) &&
    after == Tree(before.root[name := id], before.dirs[id := map[]])
  }

  /** A change of the files below the descriptor, while its directory still has its hidden name. */
  predicate Edited(before: Tree, after: Tree, name: Text, id: nat) {
    name in before.root && before.root[name] == id && id in before.dirs && id in after.dirs && Hidden(name) &&
    after == before.(dirs := before.dirs[id := after.dirs[id]])
  }

  /** The removal of the empty staging directory. */
  predicate Removed(before: Tree, after: Tree, name: Text, id: nat) {
    name in before.root && before.root[name] == id && id in before.dirs && before.dirs[id] == map[] &&
    Hidden(name) && after == Tree(before.root - {name}, before.dirs - {id})
  }

  predicate MayRename(c: Codec, before: Tree, name: Text, id: nat, m: Manifest) {
    name in before.root && before.root[name] == id && id in before.dirs && Hidden(name) &&
    FinalName(m.transactionID) !in before.root && Complete(c, before.dirs[id], m)
  }

  function AfterRename(before: Tree, name: Text, id: nat, m: Manifest): Tree {
    before.(root := (before.root - {name})[FinalName(m.transactionID) := id])
  }

  /** The rename that does not replace, of a staging directory that is complete. */
  ghost predicate Renamed(c: Codec, before: Tree, after: Tree, name: Text, id: nat) {
    exists m: Manifest :: MayRename(c, before, name, id, m) && after == AfterRename(before, name, id, m)
  }

  ghost predicate OwnStep(c: Codec, before: Tree, after: Tree, name: Text, id: nat) {
    || after == before
    || Made(before, after, name, id)
    || Edited(before, after, name, id)
    || Removed(before, after, name, id)
    || Renamed(c, before, after, name, id)
  }

  lemma {:induction false} FinalIsVisible(transaction: Hex.Identifier)
    ensures !Hidden(FinalName(transaction))
  {
    NamesAreApart(transaction, []);
  }

  lemma {:induction false} MadeIsSafe(c: Codec, before: Tree, after: Tree, name: Text, id: nat)
    requires WellFormed(before) && Made(before, after, name, id)
    ensures Safe(c, before, after)
  {
  }

  lemma {:induction false} EditedIsSafe(c: Codec, before: Tree, after: Tree, name: Text, id: nat)
    requires WellFormed(before) && Edited(before, after, name, id)
    ensures Safe(c, before, after)
  {
  }

  lemma {:induction false} RemovedIsSafe(c: Codec, before: Tree, after: Tree, name: Text, id: nat)
    requires WellFormed(before) && Removed(before, after, name, id)
    ensures Safe(c, before, after)
  {
  }

  lemma {:induction false} RenameIsSafe(c: Codec, before: Tree, name: Text, id: nat, m: Manifest)
    requires WellFormed(before) && MayRename(c, before, name, id, m) && !Hidden(FinalName(m.transactionID))
    ensures Safe(c, before, AfterRename(before, name, id, m))
  {
    var after := AfterRename(before, name, id, m);
    forall n | n in after.root && !Hidden(n) && n !in before.root
      ensures n == FinalName(m.transactionID) && Complete(c, after.dirs[after.root[n]], m)
    {
    }
  }

  lemma {:induction false} RenamedIsSafe(c: Codec, before: Tree, after: Tree, name: Text, id: nat)
    requires WellFormed(before) && Renamed(c, before, after, name, id)
    ensures Safe(c, before, after)
  {
    var m: Manifest :| MayRename(c, before, name, id, m) && after == AfterRename(before, name, id, m);
    FinalIsVisible(m.transactionID);
    RenameIsSafe(c, before, name, id, m);
  }

  lemma {:induction false} OwnStepIsSafe(c: Codec, before: Tree, after: Tree, name: Text, id: nat)
    requires WellFormed(before) && OwnStep(c, before, after, name, id)
    ensures Safe(c, before, after)
  {
    if after == before {
      SafeItself(c, before);
    } else if Made(before, after, name, id) {
      MadeIsSafe(c, before, after, name, id);
    } else if Edited(before, after, name, id) {
      EditedIsSafe(c, before, after, name, id);
    } else if Removed(before, after, name, id) {
      RemovedIsSafe(c, before, after, name, id);
    } else {
      RenamedIsSafe(c, before, after, name, id);
    }
  }

  lemma {:induction false} OwnStepLeavesAlone(
      c: Codec, before: Tree, after: Tree, name: Text, id: nat, other: Text, otherID: nat)
    requires OwnStep(c, before, after, name, id) && name != other && id != otherID && Hidden(other)
    ensures LeavesAlone(before, after, other, otherID)
  {
    if Renamed(c, before, after, name, id) {
      var m: Manifest :| MayRename(c, before, name, id, m) && after == AfterRename(before, name, id, m);
      FinalIsVisible(m.transactionID);
    }
  }

  /** What one publisher does is within what every other publisher relies on. */
  lemma {:induction false} OwnStepsLeaveOthersAlone(
      c: Codec, before: Tree, after: Tree, name: Text, id: nat, other: Text, otherID: nat)
    requires WellFormed(before) && OwnStep(c, before, after, name, id)
    requires name != other && id != otherID && Hidden(other)
    ensures Others(c, before, after, other, otherID)
  {
    OwnStepIsSafe(c, before, after, name, id);
    OwnStepLeavesAlone(c, before, after, name, id, other, otherID);
  }

  method Anything<T(0)>() returns (value: T) {
    value := *;
  }

  class Filesystem {
    const codec: Codec
    /** Nothing fails and nobody else acts: a condition on the surroundings that no code can read. */
    const dependable: bool
    var tree: Tree

    constructor (codec: Codec, tree: Tree, dependable: bool)
      ensures this.codec == codec && this.tree == tree && this.dependable == dependable
    {
      this.codec, this.tree, this.dependable := codec, tree, dependable;
    }

    /** Any number of steps of other publishers, each with a staging directory of its own. */
    method Interleave(name: Text, id: nat)
      requires WellFormed(tree) && Hidden(name)
      modifies this
      ensures Others(codec, old(tree), tree, name, id) && (dependable ==> tree == old(tree))
    {
      var steps: nat := Anything();
      SafeItself(codec, tree);
      if dependable {
        return;
      }
      for i := 0 to steps
        invariant Others(codec, old(tree), tree, name, id)
      {
        ghost var before := tree;
        OtherStep(name, id);
        OthersTransitive(codec, old(tree), before, tree, name, id);
      }
    }

    /** One operation of one other publisher. */
    method OtherStep(name: Text, id: nat)
      requires WellFormed(tree) && Hidden(name)
      modifies this
      ensures Others(codec, old(tree), tree, name, id)
    {
      var other: Text := Anything();
      var otherID: nat := Anything();
      var next: Tree := Anything();
      var published: Manifest := Anything();
      SafeItself(codec, tree);
      if other == name || otherID == id {
        return;
      }
      var renames := MayRename(codec, tree, other, otherID, published);
      if renames {
        next := AfterRename(tree, other, otherID, published);
        assert Renamed(codec, tree, next, other, otherID);
      }
      if renames || Made(tree, next, other, otherID) || Edited(tree, next, other, otherID) ||
         Removed(tree, next, other, otherID) {
        OwnStepsLeaveOthersAlone(codec, tree, next, other, otherID, name, id);
        tree := next;
      }
    }
  }

  // ---------- one publication ----------

  datatype Renaming = RenameDone | RenameExists | RenameFailed

  /** The archive of one mount, and how much of it may be read. */
  datatype ArchiveInput = ArchiveInput(target: Text, stream: Bytes, maximumBytes: int)

  /** The same restorable content, whatever the archive's bytes. */
  predicate SameContent(left: Inventory, right: Inventory) {
    ValidInventory(left) && ValidInventory(right) && left.entryCount == right.entryCount &&
    left.payloadBytes == right.payloadBytes && left.semanticDigest == right.semanticDigest
  }

  function Smaller(a: int, b: int): int {
    if a < b then a else b
  }

  /** What analyzing a whole stream finds: its own length and digest, and what the scan says. */
  function Analyzed(c: Codec, stream: Bytes, maximumBytes: int): Option<Inventory> {
    var found := c.scan(stream);
    if found.None? || |stream| > maximumBytes then None
    else Some(found.value.(archiveBytes := |stream|, archiveDigest := c.hash(stream)))
  }

  /** The manifest with the inventory that was found for artifact i. */
  function WithInventory(m: Manifest, i: nat, inventory: Inventory): Manifest
    requires i < |m.artifacts|
  {
    m.(artifacts := m.artifacts[i := m.artifacts[i].(inventory := inventory)])
  }

  /** What the archive was found to hold, if it is no longer than it may be and holds what it should. */
  function FoundIn(c: Codec, expected: Inventory, input: ArchiveInput): Option<Inventory> {
    var found := Analyzed(c, input.stream, Smaller(input.maximumBytes, expected.archiveBytes));
    if found.None? || !SameContent(expected, found.value) then None else found
  }

  /** The manifest once archive i was found to hold what it should. */
  function Described(c: Codec, m: Manifest, i: nat, input: ArchiveInput): Option<Manifest>
    requires i < |m.artifacts|
  {
    var found := FoundIn(c, m.artifacts[i].inventory, input);
    if found.None? then None else Some(WithInventory(m, i, found.value))
  }

  lemma {:induction false} ManifestIsFree(n: nat)
    ensures MANIFEST_NAME !in ArtifactNames(n)
  {
  }

  lemma {:induction false} CompletedByManifest(c: Codec, dir: map<Text, Bytes>, m: Manifest)
    requires HasArtifacts(c, dir, m, |m.artifacts|)
    ensures Complete(c, dir[MANIFEST_NAME := Canonical(c, m)], m)
  {
    ManifestIsFree(|m.artifacts|);
    HoldsEach(c, dir, m, |m.artifacts|);
    forall i | 0 <= i < |m.artifacts|
      ensures ArtifactName(i) in dir && ArtifactName(i) != MANIFEST_NAME
    {
      assert ArtifactName(i) in ArtifactNames(|m.artifacts|);
    }
  }

  lemma {:induction false} ArtifactNamesGrow(n: nat)
    ensures ArtifactNames(n + 1) == ArtifactNames(n) + {ArtifactName(n)}
  {
    forall name | name in ArtifactNames(n) + {ArtifactName(n)}
      ensures name in ArtifactNames(n + 1)
    {
      if name in ArtifactNames(n) {
        var i :| 0 <= i < n && ArtifactName(i) == name;
      }
    }
  }

  lemma {:induction false} IsArtifactNow(
      c: Codec, stream: Bytes, maximumBytes: int, artifact: Artifact, inventory: Inventory)
    requires Analyzed(c, stream, maximumBytes) == Some(inventory)
    ensures IsArtifact(c, stream, artifact.(inventory := inventory))
  {
  }

  /** What else is written or found leaves the first n artifacts as they are. */
  lemma {:induction false} HoldsFirstStill(
      c: Codec, dir: map<Text, Bytes>, m: Manifest, n: nat, i: nat, bytes: Bytes, inventory: Inventory)
    requires n <= i < |m.artifacts| && HoldsFirst(c, dir, m, n) && ArtifactName(i) !in dir
    ensures HoldsFirst(c, dir[ArtifactName(i) := bytes], WithInventory(m, i, inventory), n)
  {
    if n > 0 {
      HoldsFirstStill(c, dir, m, n - 1, i, bytes, inventory);
    }
  }

  lemma {:induction false} HasNextArtifact(
      c: Codec, dir: map<Text, Bytes>, m: Manifest, i: nat, input: ArchiveInput, inventory: Inventory)
    requires i < |m.artifacts| && HasArtifacts(c, dir, m, i) && ArtifactName(i) !in dir
    requires Analyzed(c, input.stream, Smaller(input.maximumBytes, m.artifacts[i].inventory.archiveBytes))
             == Some(inventory)
    ensures HasArtifacts(c, dir[ArtifactName(i) := input.stream], WithInventory(m, i, inventory), i + 1)
  {
    IsArtifactNow(c, input.stream, Smaller(input.maximumBytes, m.artifacts[i].inventory.archiveBytes),
                  m.artifacts[i], inventory);
    ArtifactNamesGrow(i);
    HoldsFirstStill(c, dir, m, i, i, input.stream, inventory);
  }

  function AllDescribed(c: Codec, m: Manifest, inputs: seq<ArchiveInput>, n: nat): (described: Option<Manifest>)
    requires n <= |inputs| == |m.artifacts|
    ensures described.Some? ==> |described.value.artifacts| == |inputs|
  {
    if n == 0 then Some(m)
    else
      var before := AllDescribed(c, m, inputs, n - 1);
      if before.None? then None else Described(c, before.value, n - 1, inputs[n - 1])
  }

  lemma {:induction false} NoneDescribed(c: Codec, m: Manifest, inputs: seq<ArchiveInput>, n: nat)
    requires n <= |inputs| == |m.artifacts| && AllDescribed(c, m, inputs, n).None?
    ensures AllDescribed(c, m, inputs, |inputs|).None?
    decreases |inputs| - n
  {
    if n < |inputs| {
      NoneDescribed(c, m, inputs, n + 1);
    }
  }

  /** Describing one archive after another is describing each by itself. */
  lemma {:induction false} EachDescribed(c: Codec, m: Manifest, inputs: seq<ArchiveInput>, n: nat)
    requires n <= |inputs| == |m.artifacts|
    ensures AllDescribed(c, m, inputs, n).Some? <==>
            forall i | 0 <= i < n :: FoundIn(c, m.artifacts[i].inventory, inputs[i]).Some?
    ensures AllDescribed(c, m, inputs, n).Some? ==>
      var found := AllDescribed(c, m, inputs, n).value;
      found == m.(artifacts := found.artifacts) &&
      (forall i | 0 <= i < n ::
         found.artifacts[i] ==
         m.artifacts[i].(inventory := FoundIn(c, m.artifacts[i].inventory, inputs[i]).value)) &&
      forall i | n <= i < |inputs| :: found.artifacts[i] == m.artifacts[i]
  {
    if n > 0 {
      EachDescribed(c, m, inputs, n - 1);
    }
  }

  lemma {:induction false} StopsAt(c: Codec, m: Manifest, inputs: seq<ArchiveInput>, manifest: Manifest, i: nat)
    requires i < |inputs| == |m.artifacts| && AllDescribed(c, m, inputs, i) == Some(manifest)
    requires |manifest.artifacts| == |inputs| && Described(c, manifest, i, inputs[i]).None?
    ensures AllDescribed(c, m, inputs, |inputs|).None?
  {
    NoneDescribed(c, m, inputs, i + 1);
  }

  lemma {:induction false} DescribedIsSame(c: Codec, m: Manifest, i: nat, input: ArchiveInput)
    requires i < |m.artifacts| && Described(c, m, i, input).Some?
    ensures SameBackup(m, Described(c, m, i, input).value)
  {
  }

  /** Every archive holds what the manifest says, and the manifest can be written down. */
  predicate Stageable(c: Codec, m: Manifest, inputs: seq<ArchiveInput>)
    requires |inputs| == |m.artifacts|
  {
    var described := AllDescribed(c, m, inputs, |inputs|);
    described.Some? && ValidManifest(described.value) && |Canonical(c, described.value)| <= MAXIMUM_MANIFEST
  }

  lemma {:induction false} HoldsEach(c: Codec, dir: map<Text, Bytes>, m: Manifest, n: nat)
    requires n <= |m.artifacts|
    ensures HoldsFirst(c, dir, m, n) <==>
            forall i | 0 <= i < n :: HoldsArtifact(c, dir, ArtifactName(i), m.artifacts[i])
  {
    if n > 0 {
      HoldsEach(c, dir, m, n - 1);
      assert HoldsFirst(c, dir, m, n) <==>
        HoldsFirst(c, dir, m, n - 1) && HoldsArtifact(c, dir, ArtifactName(n - 1), m.artifacts[n - 1]);
    }
  }

  lemma {:induction false} HoldsFewer(c: Codec, dir: map<Text, Bytes>, m: Manifest, n: nat, k: nat)
    requires n <= k <= |m.artifacts| && HoldsFirst(c, dir, m, k)
    ensures HoldsFirst(c, dir, m, n)
  {
    if n < k {
      HoldsFewer(c, dir, m, n, k - 1);
    }
  }

  /** What reading a publication file by file amounts to. */
  lemma {:induction false} CompleteIsRead(c: Codec, dir: map<Text, Bytes>, m: Manifest)
    ensures Complete(c, dir, m) <==>
            dir.Keys == {MANIFEST_NAME} + ArtifactNames(|m.artifacts|) &&
            dir[MANIFEST_NAME] == Canonical(c, m) && HoldsFirst(c, dir, m, |m.artifacts|)
  {
    HoldsEach(c, dir, m, |m.artifacts|);
  }

  /** The name leads to these files. */
  predicate Holds(t: Tree, name: Text, dir: map<Text, Bytes>) {
    name in t.root && t.root[name] in t.dirs && t.dirs[t.root[name]] == dir
  }

  /** The publication of this manifest is in place, whole. */
  ghost predicate InPlace(c: Codec, t: Tree, m: Manifest) {
    var final := FinalName(m.transactionID);
    final in t.root && t.root[final] in t.dirs && Complete(c, t.dirs[t.root[final]], m)
  }

  /** The trees differ in the files of one directory. */
  predicate OnlyDiffers(before: Tree, after: Tree, id: nat) {
    id in after.dirs && after == before.(dirs := before.dirs[id := after.dirs[id]])
  }

  lemma {:induction false} OnlyDiffersTransitive(before: Tree, middle: Tree, after: Tree, id: nat)
    requires OnlyDiffers(before, middle, id) && OnlyDiffers(middle, after, id)
    ensures OnlyDiffers(before, after, id)
  {
  }

  predicate Lists(entries: seq<Text>, dir: map<Text, Bytes>) {
    (forall i, j | 0 <= i < j < |entries| :: entries[i] != entries[j]) && dir.Keys == set file | file in entries
  }

  lemma {:induction false} ListsMore(entries: seq<Text>, dir: map<Text, Bytes>, file: Text, bytes: Bytes)
    requires Lists(entries, dir) && file !in dir
    ensures Lists(entries + [file], dir[file := bytes])
  {
    assert forall i | 0 <= i < |entries| :: entries[i] in dir;
  }

  lemma {:induction false} ListsLess(entries: seq<Text>, k: nat, dir: map<Text, Bytes>)
    requires k < |entries| && Lists(entries[..k + 1], dir)
    ensures entries[k] in dir && Lists(entries[..k], dir - {entries[k]})
  {
    var longer := entries[..k + 1];
    assert longer == entries[..k] + [entries[k]] && longer[k] == entries[k];
    assert forall i | 0 <= i < k :: entries[..k][i] == longer[i];
  }

  /** The tree without the staging directory. */
  function Without(t: Tree, name: Text, id: nat): Tree {
    Tree(t.root - {name}, t.dirs - {id})
  }

  class PartialPublication {
    const files: Filesystem
    const name: Text
    const id: nat
    var open: bool
    var entries: seq<Text>

    constructor (files: Filesystem, name: Text, id: nat)
      ensures this.files == files && this.name == name && this.id == id && open && entries == []
    {
      this.files, this.name, this.id := files, name, id;
      open, entries := true, [];
    }

    /** The staging directory is where it was made. */
    ghost predicate Mine()
      reads this, files
    {
      WellFormed(files.tree) && Hidden(name) && name in files.tree.root && files.tree.root[name] == id &&
      id in files.tree.dirs
    }

    ghost function Contents(): map<Text, Bytes>
      reads this, files
      requires Mine()
    {
      files.tree.dirs[id]
    }

    lemma {:induction false} StaysMine(before: Tree, after: Tree)
      requires Others(files.codec, before, after, name, id)
      requires name in before.root && before.root[name] == id && id in before.dirs
      ensures name in after.root && after.root[name] == id && id in after.dirs && after.dirs[id] == before.dirs[id]
    {
    }

    /** Others act; this directory stays as it is. */
    method Wait()
      requires Mine()
      modifies files
      ensures Mine() && Contents() == old(Contents()) && Safe(files.codec, old(files.tree), files.tree)
      ensures files.dependable ==> files.tree == old(files.tree)
    {
      ghost var before := files.tree;
      files.Interleave(name, id);
      StaysMine(before, files.tree);
    }

    /** With nobody else around, nothing outside this directory changes. */
    ghost predicate Alone(before: Tree)
      reads this, files
    {
      files.dependable ==> OnlyDiffers(before, files.tree, id)
    }

    /** Two stretches of work on this directory, one after the other. */
    lemma {:induction false} WorksOn(before: Tree, middle: Tree)
      requires Safe(files.codec, before, middle) && Safe(files.codec, middle, files.tree)
      requires files.dependable ==> OnlyDiffers(before, middle, id)
      requires Alone(middle)
      ensures Safe(files.codec, before, files.tree) && Alone(before)
    {
      SafeTransitive(files.codec, before, middle, files.tree);
      if files.dependable {
        OnlyDiffersTransitive(before, middle, files.tree, id);
      }
    }

    /** The directory is where it was made; while nothing fails, the entries are its files, each once. */
    ghost predicate Tidy()
      reads this, files
    {
      Mine() && (files.dependable ==> Lists(entries, Contents()))
    }

    /** Replaces the files of the staging directory, after others have acted. */
    method Edit(next: map<Text, Bytes>)
      requires Mine()
      modifies files
      ensures Mine() && Contents() == next && Safe(files.codec, old(files.tree), files.tree)
      ensures Alone(old(files.tree))
    {
      ghost var before := files.tree;
      Wait();
      ghost var middle := files.tree;
      files.tree := files.tree.(dirs := files.tree.dirs[id := next]);
      assert Edited(middle, files.tree, name, id);
      OwnStepIsSafe(files.codec, middle, files.tree, name, id);
      SafeTransitive(files.codec, before, middle, files.tree);
    }

    /** An exclusive creation. */
    method CreateFile(file: Text) returns (ok: bool)
      requires Mine()
      modifies files
      ensures Mine() && Safe(files.codec, old(files.tree), files.tree)
      ensures ok ==> file !in old(Contents()) && Contents() == old(Contents())[file := []]
      ensures !ok ==> Contents() == old(Contents()) || Contents() == old(Contents())[file := []]
      ensures file in old(Contents()) ==> Contents() == old(Contents())
      ensures Alone(old(files.tree)) && (files.dependable && open && file !in old(Contents()) ==> ok)
      ensures files.dependable && !ok ==> files.tree == old(files.tree)
    {
      SafeItself(files.codec, files.tree);
      var takesHold: bool, reports: bool := *, *;
      if !open || !(takesHold || files.dependable) || file in files.tree.dirs[id] {
        return false;
      }
      Edit(files.tree.dirs[id][file := []]);
      return reports || files.dependable;
    }

    /** A write from the start of an empty file; it may stop short. */
    method WriteFile(file: Text, bytes: Bytes) returns (ok: bool)
      requires Mine() && file in Contents()
      modifies files
      ensures Mine() && Safe(files.codec, old(files.tree), files.tree)
      ensures Contents().Keys == old(Contents()).Keys
      ensures Contents() == old(Contents())[file := Contents()[file]] && (ok ==> Contents()[file] == bytes)
      ensures Alone(old(files.tree)) && (files.dependable ==> ok)
    {
      var written: nat := Anything();
      var failed: bool := *;
      failed := failed && !files.dependable;
      var count := if written <= |bytes| && !files.dependable then written else |bytes|;
      Edit(files.tree.dirs[id][file := bytes[..count]]);
      assert bytes[..|bytes|] == bytes;
      return !failed && count == |bytes|;
    }

    method RemoveFile(file: Text) returns (ok: bool)
      requires Mine()
      modifies files
      ensures Mine() && Safe(files.codec, old(files.tree), files.tree)
      ensures ok ==> Contents() == old(Contents()) - {file}
      ensures Alone(old(files.tree)) && (files.dependable && file in old(Contents()) ==> ok)
    {
      var takesHold: bool, reports: bool := *, *;
      if !(takesHold || files.dependable) || file !in files.tree.dirs[id] {
        Wait();
        return false;
      }
      Edit(files.tree.dirs[id] - {file});
      return reports || files.dependable;
    }

    /** The directory can go only when it is empty. */
    method RemoveDirectory() returns (ok: bool)
      requires Mine()
      modifies files
      ensures Safe(files.codec, old(files.tree), files.tree)
      ensures files.dependable && old(Contents()) == map[] ==>
        ok && files.tree == Without(old(files.tree), name, id)
    {
      ghost var before := files.tree;
      Wait();
      ghost var middle := files.tree;
      var takesHold: bool, reports: bool := *, *;
      if !(takesHold || files.dependable) || files.tree.dirs[id] != map[] {
        return false;
      }
      files.tree := Without(files.tree, name, id);
      assert Removed(middle, files.tree, name, id);
      OwnStepIsSafe(files.codec, middle, files.tree, name, id);
      SafeTransitive(files.codec, before, middle, files.tree);
      return reports || files.dependable;
    }

    /** The rename that does not replace. It may take hold and still be reported as failed. */
    method Rename(m: Manifest) returns (outcome: Renaming)
      requires Mine() && Complete(files.codec, Contents(), m)
      modifies files
      ensures Safe(files.codec, old(files.tree), files.tree)
      ensures outcome.RenameDone? ==> InPlace(files.codec, files.tree, m)
      ensures outcome.RenameExists? ==> Mine() && FinalName(m.transactionID) in files.tree.root
      ensures files.dependable ==>
        if FinalName(m.transactionID) in old(files.tree.root)
        then outcome.RenameExists? && files.tree == old(files.tree)
        else outcome.RenameDone? && files.tree == AfterRename(old(files.tree), name, id, m)
    {
      ghost var before := files.tree;
      Wait();
      ghost var middle := files.tree;
      FinalIsVisible(m.transactionID);
      if FinalName(m.transactionID) in files.tree.root {
        return RenameExists;
      }
      var takesHold: bool, reports: bool := *, *;
      if !takesHold && !files.dependable {
        return RenameFailed;
      }
      files.tree := AfterRename(files.tree, name, id, m);
      assert MayRename(files.codec, middle, name, id, m);
      OwnStepIsSafe(files.codec, middle, files.tree, name, id);
      SafeTransitive(files.codec, before, middle, files.tree);
      return if reports || files.dependable then RenameDone else RenameFailed;
    }

    // ---------- staging ----------

    /** Analyzes the stream; reading it may fail. */
    method AnalyzeStream(stream: Bytes, maximumBytes: int) returns (inventory: Option<Inventory>)
      ensures inventory.Some? ==> inventory == Analyzed(files.codec, stream, maximumBytes)
      ensures files.dependable ==> inventory == Analyzed(files.codec, stream, maximumBytes)
    {
      var readable: bool := *;
      return if readable || files.dependable then Analyzed(files.codec, stream, maximumBytes) else None;
    }

    /** Creates a file and remembers it. */
    method CreateEntry(file: Text) returns (ok: bool)
      requires Tidy()
      modifies files, this`entries
      ensures Tidy() && Safe(files.codec, old(files.tree), files.tree) && Alone(old(files.tree))
      ensures ok ==> file !in old(Contents()) && Contents() == old(Contents())[file := []]
      ensures files.dependable && open && file !in old(Contents()) ==> ok
    {
      ok := CreateFile(file);
      if ok {
        if files.dependable {
          ListsMore(entries, old(Contents()), file, []);
        }
        entries := entries + [file];
      }
    }

    /** Creates a file, and writes it. */
    method WriteEntry(file: Text, bytes: Bytes) returns (created: bool, written: bool)
      requires Tidy()
      modifies files, this`entries
      ensures Tidy() && Safe(files.codec, old(files.tree), files.tree) && Alone(old(files.tree))
      ensures written ==> created && file !in old(Contents()) && Contents() == old(Contents())[file := bytes]
      ensures files.dependable && open && file !in old(Contents()) ==> written
    {
      ghost var before := files.tree;
      created := CreateEntry(file);
      if !created {
        return false, false;
      }
      ghost var middle := files.tree;
      written := WriteFile(file, bytes);
      WorksOn(before, middle);
    }

    /** Copies the archive into a new file while analyzing it. */
    method WriteArchive(file: Text, input: ArchiveInput, maximumWrite: int) returns (inventory: Option<Inventory>)
      requires Tidy()
      modifies files, this`entries
      ensures Tidy() && Safe(files.codec, old(files.tree), files.tree) && Alone(old(files.tree))
      ensures inventory.Some? ==>
        file !in old(Contents()) && Contents() == old(Contents())[file := input.stream] &&
        inventory == Analyzed(files.codec, input.stream, Smaller(input.maximumBytes, maximumWrite))
      ensures files.dependable && open && file !in old(Contents()) ==>
        inventory == Analyzed(files.codec, input.stream, Smaller(input.maximumBytes, maximumWrite))
    {
      var created, written := WriteEntry(file, input.stream);
      if !created {
        return None;
      }
      inventory := AnalyzeStream(input.stream, Smaller(input.maximumBytes, maximumWrite));
      if !written {
        return None;
      }
    }

    /** The first n archives are staged as the manifest now describes them. */
    ghost predicate Staged(m: Manifest, n: nat)
      reads this, files
    {
      Tidy() && n <= |m.artifacts| && HasArtifacts(files.codec, Contents(), m, n)
    }

    lemma {:induction false} NextNameIsFree(m: Manifest, i: nat)
      requires Staged(m, i)
      ensures ArtifactName(i) !in Contents()
    {
      if ArtifactName(i) in Contents() {
        var j :| 0 <= j < i && ArtifactName(j) == ArtifactName(i);
        ArtifactNamesDiffer(i, j);
      }
    }

    method StageArchive(m: Manifest, i: nat, input: ArchiveInput) returns (staged: Option<Manifest>)
      requires Staged(m, i) && i < |m.artifacts|
      modifies files, this`entries
      ensures Tidy() && Safe(files.codec, old(files.tree), files.tree) && Alone(old(files.tree))
      ensures staged.Some? ==> Staged(staged.value, i + 1) && staged == Described(files.codec, m, i, input)
      ensures files.dependable && open ==> staged == Described(files.codec, m, i, input)
    {
      ghost var before := Contents();
      NextNameIsFree(m, i);
      var expected := m.artifacts[i].inventory;
      var inventory := WriteArchive(ArtifactName(i), input, expected.archiveBytes);
      if inventory.None? || !SameContent(expected, inventory.value) {
        return None;
      }
      HasNextArtifact(files.codec, before, m, i, input, inventory.value);
      return Some(WithInventory(m, i, inventory.value));
    }

    /** The first i archives have been staged since, and the manifest says what they were found to be;
        with a witness, so that it stays one fact. */
    ghost predicate StagedSince(first: Tree, m: Manifest, inputs: seq<ArchiveInput>, manifest: Manifest, i: nat)
      reads this, files
    {
      exists n: nat :: n == i && StagedUpTo(first, m, inputs, manifest, n)
    }

    ghost predicate StagedUpTo(first: Tree, m: Manifest, inputs: seq<ArchiveInput>, manifest: Manifest, i: nat)
      reads this, files
    {
      Staged(manifest, i) && i <= |inputs| == |manifest.artifacts| == |m.artifacts| && SameBackup(m, manifest) &&
      Safe(files.codec, first, files.tree) && Alone(first) &&
      AllDescribed(files.codec, m, inputs, i) == Some(manifest)
    }

    /** Stages one more archive, in the order of the artifacts. */
    method StageNext(ghost first: Tree, ghost m: Manifest, manifest: Manifest, inputs: seq<ArchiveInput>, i: nat)
      returns (next: Option<Manifest>)
      requires StagedSince(first, m, inputs, manifest, i) && i < |inputs|
      modifies files, this`entries
      ensures Tidy() && Safe(files.codec, first, files.tree) && Alone(first)
      ensures next.Some? ==> StagedSince(first, m, inputs, next.value, i + 1)
      ensures files.dependable && open && next.None? ==> AllDescribed(files.codec, m, inputs, |inputs|).None?
    {
      ghost var before := files.tree;
      next := StageArchive(manifest, i, inputs[i]);
      WorksOn(first, before);
      if next.Some? {
        StagedNext(first, m, inputs, manifest, next.value, i);
      } else if files.dependable && open {
        StopsAt(files.codec, m, inputs, manifest, i);
      }
    }

    lemma {:induction false} StagedNext(
        first: Tree, m: Manifest, inputs: seq<ArchiveInput>, manifest: Manifest, next: Manifest, i: nat)
      requires i < |inputs| == |manifest.artifacts| == |m.artifacts| && SameBackup(m, manifest)
      requires AllDescribed(files.codec, m, inputs, i) == Some(manifest)
      requires Described(files.codec, manifest, i, inputs[i]) == Some(next) && Staged(next, i + 1)
      requires Safe(files.codec, first, files.tree) && Alone(first)
      ensures StagedSince(first, m, inputs, next, i + 1)
    {
      DescribedIsSame(files.codec, manifest, i, inputs[i]);
      SameBackupTransitive(m, manifest, next);
      assert StagedUpTo(first, m, inputs, next, i + 1);
    }

    lemma {:induction false} StagedAtFirst(m: Manifest, inputs: seq<ArchiveInput>)
      requires Staged(m, 0) && |inputs| == |m.artifacts|
      ensures StagedSince(files.tree, m, inputs, m, 0)
    {
      SafeItself(files.codec, files.tree);
      assert StagedUpTo(files.tree, m, inputs, m, 0);
    }

    lemma {:induction false} StagedAtLast(
        first: Tree, m: Manifest, inputs: seq<ArchiveInput>, manifest: Manifest)
      requires StagedSince(first, m, inputs, manifest, |inputs|)
      ensures Staged(manifest, |inputs|) && |manifest.artifacts| == |inputs| && SameBackup(m, manifest)
      ensures Safe(files.codec, first, files.tree) && Alone(first)
      ensures AllDescribed(files.codec, m, inputs, |inputs|) == Some(manifest)
    {
    }

    method StageArchives(m: Manifest, inputs: seq<ArchiveInput>) returns (staged: Option<Manifest>)
      requires Staged(m, 0) && |inputs| == |m.artifacts|
      modifies files, this`entries
      ensures Tidy() && Safe(files.codec, old(files.tree), files.tree) && Alone(old(files.tree))
      ensures staged.Some? ==>
        Staged(staged.value, |inputs|) && |staged.value.artifacts| == |inputs| && SameBackup(m, staged.value)
      ensures files.dependable && open ==> staged == AllDescribed(files.codec, m, inputs, |inputs|)
    {
      var manifest := m;
      ghost var first := files.tree;
      StagedAtFirst(m, inputs);
      for i := 0 to |inputs|
        invariant StagedSince(first, m, inputs, manifest, i)
      {
        var next := StageNext(first, m, manifest, inputs, i);
        if next.None? {
          return None;
        }
        manifest := next.value;
      }
      StagedAtLast(first, m, inputs, manifest);
      return Some(manifest);
    }

    /** Writes the manifest last. */
    method WriteManifest(raw: Bytes) returns (ok: bool)
      requires Tidy()
      modifies files, this`entries
      ensures Tidy() && Safe(files.codec, old(files.tree), files.tree)
      ensures ok ==> MANIFEST_NAME !in old(Contents()) && Contents() == old(Contents())[MANIFEST_NAME := raw]
      ensures Alone(old(files.tree)) && (files.dependable && open && MANIFEST_NAME !in old(Contents()) ==> ok)
    {
      var created;
      created, ok := WriteEntry(MANIFEST_NAME, raw);
    }

    method Stage(m: Manifest, inputs: seq<ArchiveInput>) returns (staged: Option<Manifest>)
      requires Staged(m, 0) && |inputs| == |m.artifacts|
      modifies files, this`entries
      ensures Tidy() && Safe(files.codec, old(files.tree), files.tree) && Alone(old(files.tree))
      ensures staged.Some? ==> Complete(files.codec, Contents(), staged.value) && SameBackup(m, staged.value)
      ensures files.dependable && open ==>
        staged == if Stageable(files.codec, m, inputs) then AllDescribed(files.codec, m, inputs, |inputs|) else None
    {
      ghost var before := files.tree;
      staged := StageArchives(m, inputs);
      if staged.None? {
        return None;
      }
      ghost var middle := files.tree;
      var finished := FinishStage(staged.value);
      WorksOn(before, middle);
      if !finished {
        return None;
      }
    }

    /** Writes the manifest, if it is one that may be written. */
    method FinishStage(staged: Manifest) returns (ok: bool)
      requires Staged(staged, |staged.artifacts|)
      modifies files, this`entries
      ensures Tidy() && Safe(files.codec, old(files.tree), files.tree) && Alone(old(files.tree))
      ensures ok ==> Complete(files.codec, Contents(), staged)
      ensures files.dependable && open ==>
        (ok <==> ValidManifest(staged) && |Canonical(files.codec, staged)| <= MAXIMUM_MANIFEST)
    {
      SafeItself(files.codec, files.tree);
      var raw := Canonical(files.codec, staged);
      if !ValidManifest(staged) || |raw| > MAXIMUM_MANIFEST {
        return false;
      }
      ghost var dir := Contents();
      ManifestIsFree(|staged.artifacts|);
      ok := WriteManifest(raw);
      if ok {
        CompletedByManifest(files.codec, dir, staged);
      }
    }

    // ---------- committing ----------

    /** Whether what is already published is this very backup, read file by file. */
    method VerifyExisting(m: Manifest) returns (same: bool)
      requires Mine() && FinalName(m.transactionID) in files.tree.root
      modifies files
      ensures Mine() && Safe(files.codec, old(files.tree), files.tree)
      ensures same ==> InPlace(files.codec, files.tree, m)
      ensures files.dependable ==>
        files.tree == old(files.tree) && (same <==> InPlace(files.codec, files.tree, m))
    {
      var final := FinalName(m.transactionID);
      FinalIsVisible(m.transactionID);
      SafeItself(files.codec, files.tree);
      ghost var dir := files.tree.dirs[files.tree.root[final]];
      CompleteIsRead(files.codec, dir, m);
      var names := files.tree.dirs[files.tree.root[final]].Keys;
      if names != {MANIFEST_NAME} + ArtifactNames(|m.artifacts|) {
        return false;
      }
      if files.tree.dirs[files.tree.root[final]][MANIFEST_NAME] != Canonical(files.codec, m) {
        return false;
      }
      same := VerifyArtifacts(m, final, dir);
    }

    /** The final directory is as it was first seen, and its first n artifacts hold; with a witness, so
        that it stays one fact. */
    ghost predicate Verified(first: Tree, m: Manifest, final: Text, dir: map<Text, Bytes>, n: nat)
      reads this, files
    {
      exists k: nat :: k == n && VerifiedUpTo(first, m, final, dir, k)
    }

    ghost predicate VerifiedUpTo(first: Tree, m: Manifest, final: Text, dir: map<Text, Bytes>, n: nat)
      reads this, files
    {
      n <= |m.artifacts| && HoldsFirst(files.codec, dir, m, n) && Sees(first, final, dir)
    }

    /** The final directory holds these files, and others have at most done what they may. */
    ghost predicate Sees(first: Tree, final: Text, dir: map<Text, Bytes>)
      reads this, files
    {
      Mine() && Safe(files.codec, first, files.tree) && Holds(files.tree, final, dir) && !Hidden(final) &&
      (files.dependable ==> files.tree == first)
    }

    lemma {:induction false} VerifiedAtFirst(m: Manifest, final: Text, dir: map<Text, Bytes>)
      requires Mine() && Holds(files.tree, final, dir) && !Hidden(final)
      ensures Verified(files.tree, m, final, dir, 0)
    {
      SafeItself(files.codec, files.tree);
      assert VerifiedUpTo(files.tree, m, final, dir, 0);
    }

    method VerifyNext(ghost first: Tree, m: Manifest, final: Text, ghost dir: map<Text, Bytes>, i: nat)
      returns (holds: bool)
      requires Verified(first, m, final, dir, i) && i < |m.artifacts|
      modifies files
      ensures Sees(first, final, dir)
      ensures holds ==> Verified(first, m, final, dir, i + 1)
      ensures !holds ==> !HoldsFirst(files.codec, dir, m, |m.artifacts|)
    {
      holds := VerifyArtifact(first, m.artifacts[i], final, ArtifactName(i), dir);
      if holds {
        assert VerifiedUpTo(first, m, final, dir, i + 1);
      } else if HoldsFirst(files.codec, dir, m, |m.artifacts|) {
        HoldsFewer(files.codec, dir, m, i + 1, |m.artifacts|);
      }
    }

    method VerifyArtifacts(m: Manifest, final: Text, ghost dir: map<Text, Bytes>) returns (same: bool)
      requires Mine() && Holds(files.tree, final, dir) && !Hidden(final)
      modifies files
      ensures Sees(old(files.tree), final, dir)
      ensures same ==> HoldsFirst(files.codec, dir, m, |m.artifacts|)
      ensures files.dependable ==> (same <==> HoldsFirst(files.codec, dir, m, |m.artifacts|))
    {
      ghost var first := files.tree;
      VerifiedAtFirst(m, final, dir);
      for i := 0 to |m.artifacts|
        invariant Verified(first, m, final, dir, i)
      {
        var holds := VerifyNext(first, m, final, dir, i);
        if !holds {
          return false;
        }
      }
      same := *;
      same := same || files.dependable;
    }

    method VerifyArtifact(ghost first: Tree, artifact: Artifact, final: Text, file: Text, ghost dir: map<Text, Bytes>)
      returns (holds: bool)
      requires Sees(first, final, dir)
      modifies files
      ensures Sees(first, final, dir)
      ensures holds <==> HoldsArtifact(files.codec, dir, file, artifact)
    {
      ghost var before := files.tree;
      Look(before, final, dir);
      SafeTransitive(files.codec, first, before, files.tree);
      return HoldsArtifact(files.codec, files.tree.dirs[files.tree.root[final]], file, artifact);
    }

    /** Time passes before the next read of a publication, which stays as it is. */
    method Look(ghost before: Tree, final: Text, ghost dir: map<Text, Bytes>)
      requires Mine() && before == files.tree && !Hidden(final) && Holds(before, final, dir)
      modifies files
      ensures Mine() && Safe(files.codec, before, files.tree) && Holds(files.tree, final, dir)
      ensures files.dependable ==> files.tree == before
    {
      Wait();
    }

    /** Makes the staged directory public. The first result says that it is no longer a staging
        directory for sure; the second that the publication is in place. */
    method Commit(m: Manifest) returns (published: bool, ok: bool)
      requires Mine() && Complete(files.codec, Contents(), m)
      modifies files
      ensures Safe(files.codec, old(files.tree), files.tree)
      ensures ok ==> InPlace(files.codec, files.tree, m)
      ensures published ==> InPlace(files.codec, files.tree, m)
      ensures files.dependable ==>
        if FinalName(m.transactionID) in old(files.tree.root)
        then !published && files.tree == old(files.tree) && (ok <==> InPlace(files.codec, files.tree, m))
        else published && ok && files.tree == AfterRename(old(files.tree), name, id, m)
    {
      ghost var before := files.tree;
      var outcome := Rename(m);
      ghost var middle := files.tree;
      SafeItself(files.codec, middle);
      match outcome {
        case RenameExists =>
          var same := VerifyExisting(m);
          SafeTransitive(files.codec, before, middle, files.tree);
          return false, same;
        case RenameFailed =>
          return false, false;
        case RenameDone =>
          var durable: bool := *;
          return true, durable || files.dependable;
      }
    }

    // ---------- cleaning up ----------

    /** Whether the directory is still where it was made. */
    method IsValid() returns (valid: bool)
      requires WellFormed(files.tree) && Hidden(name)
      ensures valid ==> open && Mine()
      ensures files.dependable && open && Mine() ==> valid
    {
      var readable: bool := *;
      return (readable || files.dependable) && open && name in files.tree.root && files.tree.root[name] == id &&
             id in files.tree.dirs;
    }

    /** Removes what was staged, unless the directory is no longer where it was made: a rename that was
        reported as failed may have taken hold. */
    method Cleanup() returns (clean: bool)
      requires WellFormed(files.tree) && Hidden(name)
      modifies files, this
      ensures Safe(files.codec, old(files.tree), files.tree)
      ensures files.dependable && old(open && Tidy()) ==>
        clean && files.tree == Without(old(files.tree), name, id)
    {
      SafeItself(files.codec, files.tree);
      if !open {
        return true;
      }
      var valid := IsValid();
      if !valid {
        open := false;
        return false;
      }
      ghost var before := files.tree;
      var removed := RemoveEntries();
      open := false;
      if !removed {
        return false;
      }
      ghost var middle := files.tree;
      clean := RemoveDirectory();
      SafeTransitive(files.codec, before, middle, files.tree);
    }

    /** The entries go, the latest first. */
    method RemoveEntries() returns (ok: bool)
      requires Mine()
      modifies files
      ensures Mine() && Safe(files.codec, old(files.tree), files.tree) && Alone(old(files.tree))
      ensures files.dependable && old(Tidy()) ==> ok && Contents() == map[]
    {
      ghost var first := files.tree;
      ghost var tidy := Tidy();
      SafeItself(files.codec, first);
      var k := |entries|;
      assert entries[..k] == entries;
      while k > 0
        invariant 0 <= k <= |entries| && Mine() && Safe(files.codec, first, files.tree) && Alone(first)
        invariant files.dependable && tidy ==> Lists(entries[..k], Contents())
      {
        k := k - 1;
        var removed := RemoveEntry(first, k, tidy);
        if !removed {
          return false;
        }
      }
      ok := *;
      ok := ok || files.dependable;
    }

    method RemoveEntry(ghost first: Tree, k: nat, ghost tidy: bool) returns (removed: bool)
      requires Mine() && k < |entries| && Safe(files.codec, first, files.tree) && Alone(first)
      requires files.dependable && tidy ==> Lists(entries[..k + 1], Contents())
      modifies files
      ensures Mine() && Safe(files.codec, first, files.tree) && Alone(first)
      ensures files.dependable && tidy ==> removed && Lists(entries[..k], Contents())
    {
      ghost var before := files.tree;
      if files.dependable && tidy {
        ListsLess(entries, k, Contents());
      }
      removed := RemoveFile(entries[k]);
      WorksOn(first, before);
    }
  }

  /** The manifests are those of one backup; only what the archives were found to be may differ, and
      their content may not. */
  predicate SameBackup(m: Manifest, n: Manifest) {
    |m.artifacts| == |n.artifacts| && n == m.(artifacts := n.artifacts) &&
    forall i | 0 <= i < |m.artifacts| ::
      n.artifacts[i] == m.artifacts[i].(inventory := n.artifacts[i].inventory) &&
      (n.artifacts[i].inventory == m.artifacts[i].inventory ||
       SameContent(m.artifacts[i].inventory, n.artifacts[i].inventory))
  }

  lemma {:induction false} SameBackupTransitive(m: Manifest, n: Manifest, o: Manifest)
    requires SameBackup(m, n) && SameBackup(n, o)
    ensures SameBackup(m, o)
  {
    forall i | 0 <= i < |m.artifacts|
      ensures o.artifacts[i] == m.artifacts[i].(inventory := o.artifacts[i].inventory)
      ensures o.artifacts[i].inventory == m.artifacts[i].inventory ||
              SameContent(m.artifacts[i].inventory, o.artifacts[i].inventory)
    {
      assert n.artifacts[i] == m.artifacts[i].(inventory := n.artifacts[i].inventory);
    }
  }

  function TargetOfInput(input: ArchiveInput): Text {
    input.target
  }

  /** One input for each artifact, in their order. */
  predicate InputsFit(m: Manifest, inputs: seq<ArchiveInput>) {
    ValidManifest(m) && |inputs| == |m.artifacts| && Answers(m.artifacts, inputs)
  }

  predicate Answers(artifacts: seq<Artifact>, inputs: seq<ArchiveInput>)
    requires |inputs| == |artifacts|
  {
    forall i | 0 <= i < |inputs| :: inputs[i].maximumBytes > 0 && inputs[i].target == artifacts[i].mount.target
  }

  predicate TargetsAscend(artifacts: seq<Artifact>) {
    forall i | 0 < i < |artifacts| :: Ordering.Less(artifacts[i - 1].mount.target, artifacts[i].mount.target)
  }

  lemma {:induction false} TargetsDiffer(m: Manifest, i: nat, j: nat)
    requires ValidManifest(m) && i < j < |m.artifacts|
    ensures Ordering.Less(m.artifacts[i].mount.target, m.artifacts[j].mount.target)
  {
    assert Ordering.Less(m.artifacts[j - 1].mount.target, m.artifacts[j].mount.target);
    if i < j - 1 {
      TargetsDiffer(m, i, j - 1);
      Ordering.LessIsTransitive(m.artifacts[i].mount.target, m.artifacts[j - 1].mount.target,
                                m.artifacts[j].mount.target);
    }
  }

  /** Inputs that fit have different targets, so any sort of them gives the same order. */
  lemma {:induction false} FittingInputsAreSorted(m: Manifest, archives: seq<ArchiveInput>, inputs: seq<ArchiveInput>)
    requires Sorting.Sorts(inputs, archives, TargetOfInput)
    ensures InputsFit(m, inputs) || InputsFit(m, Sorting.Ordered(archives, TargetOfInput)) ==>
      inputs == Sorting.Ordered(archives, TargetOfInput)
  {
    var ordered := Sorting.Ordered(archives, TargetOfInput);
    Sorting.OrderedSorts(archives, TargetOfInput);
    if InputsFit(m, inputs) {
      FittingTargetsDiffer(m, inputs);
      Sorting.DistinctPermutes(inputs, archives, TargetOfInput);
      Sorting.SortedIsOrdered(inputs, archives, TargetOfInput);
    } else if InputsFit(m, ordered) {
      FittingTargetsDiffer(m, ordered);
      Sorting.DistinctPermutes(ordered, archives, TargetOfInput);
      Sorting.SortedIsOrdered(inputs, archives, TargetOfInput);
    }
  }

  lemma {:induction false} FittingTargetsDiffer(m: Manifest, inputs: seq<ArchiveInput>)
    requires InputsFit(m, inputs)
    ensures Sorting.DistinctKeys(inputs, TargetOfInput)
  {
    forall i, j | 0 <= i < j < |inputs|
      ensures TargetOfInput(inputs[i]) != TargetOfInput(inputs[j])
    {
      TargetsDiffer(m, i, j);
      Ordering.LessIsTotal(inputs[i].target, inputs[j].target);
    }
  }

  /** Each input in turn, against the artifact in its place. */
  method InputsMatch(artifacts: seq<Artifact>, inputs: seq<ArchiveInput>) returns (matching: bool)
    requires |inputs| == |artifacts| && TargetsAscend(artifacts)
    ensures matching <==> Answers(artifacts, inputs)
  {
    for i := 0 to |inputs|
      invariant forall j | 0 <= j < i :: inputs[j].maximumBytes > 0 && inputs[j].target == artifacts[j].mount.target
    {
      if i > 0 {
        Ordering.LessIsTotal(artifacts[i - 1].mount.target, artifacts[i].mount.target);
      }
      if inputs[i].maximumBytes <= 0 || inputs[i].target != artifacts[i].mount.target ||
         (i > 0 && inputs[i - 1].target == inputs[i].target) {
        return false;
      }
    }
    return true;
  }

  /** Accepts the inputs exactly when their order by target answers the artifacts one by one. */
  method ValidateArchiveInputs(m: Manifest, archives: seq<ArchiveInput>) returns (ordered: Option<seq<ArchiveInput>>)
    ensures
      var inputs := Sorting.Ordered(archives, TargetOfInput);
      ordered == if InputsFit(m, inputs) then Some(inputs) else None
  {
    OrderedLength(archives);
    if !ValidManifest(m) || |archives| != |m.artifacts| {
      return None;
    }
    var inputs := Sorting.SortByKey(archives, TargetOfInput);
    assert |inputs| == |multiset(inputs)| == |archives|;
    FittingInputsAreSorted(m, archives, inputs);
    ValidTargetsAscend(m);
    var matching := InputsMatch(m.artifacts, inputs);
    return if matching then Some(inputs) else None;
  }

  lemma {:induction false} ValidTargetsAscend(m: Manifest)
    requires ValidManifest(m)
    ensures TargetsAscend(m.artifacts)
  {
  }

  lemma {:induction false} OrderedLength(archives: seq<ArchiveInput>)
    ensures |Sorting.Ordered(archives, TargetOfInput)| == |archives|
  {
    Sorting.OrderedSorts(archives, TargetOfInput);
    assert |Sorting.Ordered(archives, TargetOfInput)| == |multiset(Sorting.Ordered(archives, TargetOfInput))|;
  }

  /** There is an identity, and neither the staging name nor the number of its directory is taken. */
  predicate Creatable(t: Tree, transaction: Hex.Identifier, nonce: Text, id: nat) {
    transaction != Hex.NO_IDENTIFIER && PartialName(transaction, nonce) !in t.root && id !in t.dirs
  }

  function WithPartial(t: Tree, name: Text, id: nat): Tree {
    Tree(t.root[name := id], t.dirs[id := map[]])
  }

  /** Creates and opens the hidden directory; None when that fails, whatever was left behind. The nonce
      is random, and the number of a new directory is the filesystem's choice. */
  method CreatePartial(files: Filesystem, transaction: Hex.Identifier, nonce: Text, id: nat)
    returns (partial: Option<PartialPublication>)
    requires WellFormed(files.tree)
    modifies files
    ensures Safe(files.codec, old(files.tree), files.tree)
    ensures partial.Some? ==>
      fresh(partial.value) && partial.value.files == files && partial.value.open && partial.value.Tidy() &&
      partial.value.Contents() == map[] && partial.value.name == PartialName(transaction, nonce) &&
      partial.value.id == id
    ensures files.dependable ==>
      if Creatable(old(files.tree), transaction, nonce, id)
      then partial.Some? && files.tree == WithPartial(old(files.tree), PartialName(transaction, nonce), id)
      else partial.None? && files.tree == old(files.tree)
  {
    SafeItself(files.codec, files.tree);
    var name := PartialName(transaction, nonce);
    NamesAreApart(transaction, nonce);
    var takesHold: bool, reports: bool := *, *;
    if transaction == Hex.NO_IDENTIFIER || !(takesHold || files.dependable) || name in files.tree.root ||
       id in files.tree.dirs {
      return None;
    }
    ghost var before := files.tree;
    files.tree := WithPartial(files.tree, name, id);
    assert Made(before, files.tree, name, id);
    OwnStepIsSafe(files.codec, before, files.tree, name, id);
    if !reports && !files.dependable {
      return None;
    }
    var created := new PartialPublication(files, name, id);
    var answers: bool := *;
    if !answers && !files.dependable {
      ghost var middle := files.tree;
      var removed := created.RemoveDirectory();
      SafeTransitive(files.codec, before, middle, files.tree);
      return None;
    }
    return Some(created);
  }

  /** What a publication comes to when nothing fails and nobody interferes: the manifest with what the
      archives were found to be. Inputs that do not fit or do not hold what they should are refused,
      and so is a final name under which anything but this very backup is in place. */
  ghost function Outcome(c: Codec, t: Tree, m: Manifest, inputs: seq<ArchiveInput>): Option<Manifest>
    requires |inputs| == |m.artifacts|
  {
    if !Stageable(c, m, inputs) then None
    else
      Committed(c, t, AllDescribed(c, m, inputs, |inputs|).value)
  }

  ghost function Committed(c: Codec, t: Tree, staged: Manifest): Option<Manifest> {
    if FinalName(staged.transactionID) in t.root && !InPlace(c, t, staged) then None else Some(staged)
  }

  /** The final name leads to a directory that was not there before, and nothing else has changed. */
  predicate Appeared(before: Tree, after: Tree, m: Manifest, id: nat) {
    id in after.dirs &&
    after == Tree(before.root[FinalName(m.transactionID) := id], before.dirs[id := after.dirs[id]])
  }

  /** Nothing is left behind: the tree is as it was, or has the new publication and is as it was else. */
  predicate Settled(before: Tree, after: Tree, m: Manifest, id: nat, published: bool) {
    if published && FinalName(m.transactionID) !in before.root then Appeared(before, after, m, id)
    else after == before
  }

  /** The tree as it was, with one staging directory that was not there. */
  predicate Prepared(before: Tree, now: Tree, name: Text, id: nat) {
    name !in before.root && id !in before.dirs && Hidden(name) && id in now.dirs &&
    now == Tree(before.root[name := id], before.dirs[id := now.dirs[id]])
  }

  /** Removing the staging directory gives the tree back as it was. */
  lemma {:induction false} WithoutIsBefore(before: Tree, now: Tree, name: Text, id: nat)
    requires Prepared(before, now, name, id)
    ensures Without(now, name, id) == before
  {
  }

  lemma {:induction false} RenamedAppeared(before: Tree, now: Tree, name: Text, id: nat, m: Manifest)
    requires Prepared(before, now, name, id)
    ensures Appeared(before, AfterRename(now, name, id, m), m, id)
  {
    FinalIsVisible(m.transactionID);
  }

  /** What is published is not told apart by a staging directory beside it. */
  lemma {:induction false} PreparedShows(c: Codec, before: Tree, now: Tree, name: Text, id: nat, m: Manifest)
    requires WellFormed(before) && Prepared(before, now, name, id)
    ensures FinalName(m.transactionID) in now.root <==> FinalName(m.transactionID) in before.root
    ensures InPlace(c, now, m) <==> InPlace(c, before, m)
  {
    FinalIsVisible(m.transactionID);
  }

  /** One publication, whatever fails and whatever others do meanwhile: nothing published ever changes,
      nothing appears half-made, and success means that the returned manifest's backup is in place. When
      nothing fails and nobody interferes, the outcome is exact, and nothing is left behind. */
  method Publish(files: Filesystem, m: Manifest, archives: seq<ArchiveInput>, nonce: Text, id: nat)
    returns (result: Option<Manifest>)
    requires WellFormed(files.tree)
    modifies files
    ensures Safe(files.codec, old(files.tree), files.tree)
    ensures result.Some? ==>
      ValidManifest(m) && SameBackup(m, result.value) && InPlace(files.codec, files.tree, result.value)
    ensures files.dependable ==>
      result == (if Creatable(old(files.tree), m.transactionID, nonce, id)
                 then Published(files.codec, old(files.tree), m, archives) else None) &&
      Settled(old(files.tree), files.tree, m, id, result.Some?)
  {
    SafeItself(files.codec, files.tree);
    var ordered := ValidateArchiveInputs(m, archives);
    var admitted: bool := *;
    if ordered.None? || !(admitted || files.dependable) {
      return None;
    }
    result := PublishInputs(files, m, ordered.value, nonce, id);
  }

  /** The same for inputs in the order of the artifacts. */
  method PublishInputs(files: Filesystem, m: Manifest, inputs: seq<ArchiveInput>, nonce: Text, id: nat)
    returns (result: Option<Manifest>)
    requires WellFormed(files.tree) && |inputs| == |m.artifacts|
    modifies files
    ensures Safe(files.codec, old(files.tree), files.tree)
    ensures result.Some? ==> SameBackup(m, result.value) && InPlace(files.codec, files.tree, result.value)
    ensures files.dependable ==>
      result == (if Creatable(old(files.tree), m.transactionID, nonce, id)
                 then Outcome(files.codec, old(files.tree), m, inputs) else None) &&
      Settled(old(files.tree), files.tree, m, id, result.Some?)
  {
    SafeItself(files.codec, files.tree);
    ghost var w0 := files.tree;
    var created := CreatePartial(files, m.transactionID, nonce, id);
    ghost var w1 := files.tree;
    if created.None? {
      return None;
    }
    result := PublishStaged(w0, created.value, m, inputs);
    SafeTransitive(files.codec, w0, w1, files.tree);
  }

  ghost function Published(c: Codec, t: Tree, m: Manifest, archives: seq<ArchiveInput>): Option<Manifest> {
    var inputs := Sorting.Ordered(archives, TargetOfInput);
    if !InputsFit(m, inputs) then None else Outcome(c, t, m, inputs)
  }

  /** Removes what was staged; with nobody else around, the tree is as it was before. */
  method Withdraw(ghost before: Tree, partial: PartialPublication) returns (clean: bool)
    requires WellFormed(partial.files.tree) && Hidden(partial.name)
    requires partial.files.dependable ==>
      partial.open && partial.Tidy() && Prepared(before, partial.files.tree, partial.name, partial.id)
    modifies partial, partial.files
    ensures Safe(partial.files.codec, old(partial.files.tree), partial.files.tree)
    ensures partial.files.dependable ==> clean && partial.files.tree == before
  {
    ghost var now := partial.files.tree;
    clean := partial.Cleanup();
    if partial.files.dependable {
      WithoutIsBefore(before, now, partial.name, partial.id);
    }
  }

  /** Commits what was staged, and cleans up unless it was published. */
  method CommitStaged(ghost before: Tree, partial: PartialPublication, staged: Manifest)
    returns (result: Option<Manifest>)
    requires partial.open && partial.Tidy() && Complete(partial.files.codec, partial.Contents(), staged)
    requires partial.files.dependable ==>
      WellFormed(before) && Prepared(before, partial.files.tree, partial.name, partial.id)
    modifies partial, partial.files
    ensures Safe(partial.files.codec, old(partial.files.tree), partial.files.tree)
    ensures result.Some? ==> result.value == staged && InPlace(partial.files.codec, partial.files.tree, staged)
    ensures partial.files.dependable ==>
      result == Committed(partial.files.codec, before, staged) &&
      Settled(before, partial.files.tree, staged, partial.id, result.Some?)
  {
    var files := partial.files;
    ghost var w1 := files.tree;
    if files.dependable {
      PreparedShows(files.codec, before, w1, partial.name, partial.id, staged);
      RenamedAppeared(before, w1, partial.name, partial.id, staged);
    }
    var published, ok := partial.Commit(staged);
    ghost var w2 := files.tree;
    var closed: bool := *;
    closed := closed || files.dependable;
    if !published {
      closed := Withdraw(before, partial);
      SafeTransitive(files.codec, w1, w2, files.tree);
    }
    FinalIsVisible(staged.transactionID);
    return if ok && closed then Some(staged) else None;
  }

  /** Stages, commits and cleans up. */
  method PublishStaged(ghost before: Tree, partial: PartialPublication, m: Manifest, inputs: seq<ArchiveInput>)
    returns (result: Option<Manifest>)
    requires partial.Tidy() && partial.open && partial.Contents() == map[] && |inputs| == |m.artifacts|
    requires partial.files.dependable ==>
      WellFormed(before) && Prepared(before, partial.files.tree, partial.name, partial.id)
    modifies partial, partial.files
    ensures Safe(partial.files.codec, old(partial.files.tree), partial.files.tree)
    ensures result.Some? ==>
      SameBackup(m, result.value) && InPlace(partial.files.codec, partial.files.tree, result.value)
    ensures partial.files.dependable ==>
      result == Outcome(partial.files.codec, before, m, inputs) &&
      Settled(before, partial.files.tree, m, partial.id, result.Some?)
  {
    var files := partial.files;
    ghost var w0 := files.tree;
    var staged := partial.Stage(m, inputs);
    ghost var w1 := files.tree;
    if files.dependable {
      StaysPrepared(before, w0, w1, partial.name, partial.id);
    }
    if staged.None? {
      var cleaned := Withdraw(before, partial);
      SafeTransitive(files.codec, w0, w1, files.tree);
      return None;
    }
    result := CommitStaged(before, partial, staged.value);
    SafeTransitive(files.codec, w0, w1, files.tree);
  }

  lemma {:induction false} StaysPrepared(before: Tree, w: Tree, now: Tree, name: Text, id: nat)
    requires Prepared(before, w, name, id) && OnlyDiffers(w, now, id)
    ensures Prepared(before, now, name, id)
  {
  }
}
