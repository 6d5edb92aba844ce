/** The analysis of an archive: the bounded reader below, the member scan above, and one inventory of both. */
module Analysis {
  import opened Encoding
  import opened Values
  import Archive
  import Reader

  /** What the tar reader makes of a stream: the members that it hands out, the bytes that it takes for
      them, and whether it comes to a regular end. */
  datatype TarScan = TarScan(members: seq<Archive.TarMember>, taken: nat, wellFormed: bool)

  /** Counts and sizes, the bytes of the archive, and what the content digest is computed over. */
  datatype Inventory = Inventory(
    entryCount: int,
    payloadBytes: int,
    archiveBytes: int,
    archive: Bytes,
    content: Bytes)

  /** The streams that an analysis accepts: they fit, end in two zero blocks, hold nothing but zeros
      after what the tar reader takes, and their members are acceptable one after another. */
  ghost predicate Accepted(
    stream: Bytes, tar: Bytes -> TarScan, maximumBytes: int, fold: Text -> Text, hash: Bytes -> Digest)
  {
    |stream| <= maximumBytes && Reader.TarComplete(stream) &&
    tar(stream).wellFormed && tar(stream).taken <= |stream| && Reader.Zeros(stream, tar(stream).taken) &&
    Archive.Scanned(tar(stream).members, fold, hash).Some?
  }

  /** The inventory of a stream whose members these are. */
  function InventoryOf(stream: Bytes, members: seq<Archive.Member>): Inventory {
    Inventory(|members|, Archive.Payload(members), |stream|, stream,
              Archive.SemanticPreimage(Archive.EntryList(members)))
  }

  /** Analyzes a stream. What is accepted and how it is identified depends on the stream alone, not on
      how it arrives; and from a dependable source exactly the acceptable streams are accepted. */
  method Analyze(
      source: Reader.Source, tar: Bytes -> TarScan, maximumBytes: int, fold: Text -> Text, hash: Bytes -> Digest,
      attempts: nat)
    returns (inventory: Option<Inventory>)
    requires source.Valid() && source.position == 0
    modifies source
    ensures inventory.Some? ==>
      Accepted(source.stream, tar, maximumBytes, fold, hash) &&
      inventory.value == InventoryOf(source.stream, Archive.Scanned(tar(source.stream).members, fold, hash).value)
    ensures source.dependable && attempts > |source.stream| ==>
      (inventory.Some? <==> Accepted(source.stream, tar, maximumBytes, fold, hash))
  {
    if maximumBytes <= 0 {
      return None;
    }
    var reader := new Reader.BoundedArchiveReader(source, maximumBytes);
    var members := ScanMembers(reader, tar, fold, hash, attempts);
    if members.None? {
      return None;
    }
    var ended := Reader.ConsumeZeroPadding(reader, attempts);
    if !ended {
      return None;
    }
    assert reader.hashed == source.stream;
    var complete := reader.CompleteTar();
    if !complete {
      return None;
    }
    var (entryCount, payloadBytes, content) := members.value;
    return Some(Inventory(entryCount, payloadBytes, reader.count, reader.hashed, content));
  }

  /** The scan: what the tar reader takes is read, and its members are entered. */
  method ScanMembers(
      reader: Reader.BoundedArchiveReader, tar: Bytes -> TarScan, fold: Text -> Text, hash: Bytes -> Digest,
      attempts: nat)
    returns (result: Option<(int, int, Bytes)>)
    requires reader.Valid() && reader.hashed == [] && !reader.exceeded
    modifies reader, reader.source, reader.tail
    ensures reader.Valid()
    ensures
      var scan := tar(reader.source.stream);
      var members := Archive.Scanned(scan.members, fold, hash);
      result.Some? ==>
        scan.wellFormed && |reader.hashed| == scan.taken && members.Some? &&
        result.value == (|members.value|, Archive.Payload(members.value),
                         Archive.SemanticPreimage(Archive.EntryList(members.value)))
    ensures
      var scan := tar(reader.source.stream);
      reader.source.dependable && scan.taken <= |reader.source.stream| <= reader.limit && attempts >= scan.taken &&
      scan.wellFormed && Archive.Scanned(scan.members, fold, hash).Some?
      ==> result.Some?
  {
    var input := tar(reader.source.stream);
    var taken := Reader.Take(reader, input.taken, attempts);
    if !taken || !input.wellFormed {
      return None;
    }
    result := EnterMembers(input.members, fold, hash);
  }

  method EnterMembers(input: seq<Archive.TarMember>, fold: Text -> Text, hash: Bytes -> Digest)
    returns (result: Option<(int, int, Bytes)>)
    ensures result ==
            var members := Archive.Scanned(input, fold, hash);
            if members.None? then None
            else Some((|members.value|, Archive.Payload(members.value),
                       Archive.SemanticPreimage(Archive.EntryList(members.value))))
  {
    var scan := new Archive.ArchiveScan(fold, hash);
    var error := Archive.ScanArchive(scan, input);
    if error.Some? {
      return None;
    }
    var inventory := scan.Inventory();
    return Some((inventory.entryCount, inventory.payloadBytes, inventory.preimage));
  }

  /** The inventory of an accepted stream is that of a tree: everything above a member is an earlier
      directory, no two names fold to the same, hard links lead to earlier files, symbolic links stay
      inside, and the members are what the stream describes. */
  lemma {:induction false} AcceptedIsTree(
      stream: Bytes, tar: Bytes -> TarScan, maximumBytes: int, fold: Text -> Text, hash: Bytes -> Digest)
    requires Accepted(stream, tar, maximumBytes, fold, hash)
    ensures
      var members := Archive.Scanned(tar(stream).members, fold, hash).value;
      Archive.Tree(members) && Archive.Describes(members, tar(stream).members, hash) &&
      Archive.WellShaped(members, fold)
  {
    Archive.ScannedExactly(
      tar(stream).members, fold, hash, Archive.Scanned(tar(stream).members, fold, hash).value);
  }

  predicate ValidInventory(value: Inventory, hash: Bytes -> Digest) {
    0 <= value.entryCount <= Archive.MAXIMUM_ENTRIES && 0 <= value.payloadBytes <= value.archiveBytes &&
    value.archiveBytes >= Reader.TERMINATOR && value.archiveBytes % Reader.BLOCK == 0 &&
    hash(value.archive) != ZERO_DIGEST && hash(value.content) != ZERO_DIGEST
  }

  predicate SameContent(left: Inventory, right: Inventory, hash: Bytes -> Digest) {
    ValidInventory(left, hash) && ValidInventory(right, hash) && left.entryCount == right.entryCount &&
    left.payloadBytes == right.payloadBytes && hash(left.content) == hash(right.content)
  }

  /** The inventory of an accepted stream is valid as soon as its files are no larger than the stream and
      neither hash is zero. */
  lemma {:induction false} AcceptedIsValid(
      stream: Bytes, tar: Bytes -> TarScan, maximumBytes: int, fold: Text -> Text, hash: Bytes -> Digest)
    requires Accepted(stream, tar, maximumBytes, fold, hash)
    ensures
      var members := Archive.Scanned(tar(stream).members, fold, hash).value;
      var inventory := InventoryOf(stream, members);
      ValidInventory(inventory, hash) <==>
      Archive.Payload(members) <= |stream| && hash(stream) != ZERO_DIGEST && hash(inventory.content) != ZERO_DIGEST
  {
    AcceptedIsTree(stream, tar, maximumBytes, fold, hash);
    Archive.PayloadIsNotNegative(Archive.Scanned(tar(stream).members, fold, hash).value);
  }

  /** Two valid inventories of accepted streams have the same content exactly when their entries are the
      same, whatever order they came in, and their files are as large together; unless the content
      hash collides. */
  lemma {:induction false} SameContentIsSameTree(
      left: seq<Archive.TarMember>, right: seq<Archive.TarMember>, x: Bytes, y: Bytes,
      fold: Text -> Text, hash: Bytes -> Digest)
    requires Archive.Scanned(left, fold, hash).Some? && Archive.Scanned(right, fold, hash).Some?
    requires ValidInventory(InventoryOf(x, Archive.Scanned(left, fold, hash).value), hash)
    requires ValidInventory(InventoryOf(y, Archive.Scanned(right, fold, hash).value), hash)
    ensures
      var members, others := Archive.Scanned(left, fold, hash).value, Archive.Scanned(right, fold, hash).value;
      var one, other := InventoryOf(x, members), InventoryOf(y, others);
      SameContent(one, other, hash) <==>
      Archive.Payload(members) == Archive.Payload(others) && |members| == |others| &&
      (multiset(Archive.EntryList(members)) == multiset(Archive.EntryList(others)) ||
       (one.content != other.content && hash(one.content) == hash(other.content)))
  {
    Archive.ScannedScans(left, fold, hash);
    Archive.ScannedScans(right, fold, hash);
    Archive.SameContentIsSameEntries(
      Archive.Scanned(left, fold, hash).value, Archive.Scanned(right, fold, hash).value, fold);
  }
}
