/** The scan of a workload archive, and the tree that every accepted archive is. */
module Archive {
  import opened Encoding
  import opened Paths
  import opened Values
  import Sorting
  import WorkloadDigest

  const MAXIMUM_ENTRIES: nat := 1_000_000
  const MAX_INT64: int := 0x7FFF_FFFF_FFFF_FFFF

  datatype EntryKind = Regular | Directory | Symlink | Hardlink

  /** A tar member's header. */
  datatype Header = Header(
    name: Text,
    typeflag: Byte,
    linkname: Text,
    size: int,
    mode: int,
    uid: int,
    gid: int,
    seconds: int,
    nanoseconds: int,
    uname: Text,
    gname: Text,
    pax: map<Text, Text>,
    devmajor: int,
    devminor: int)

  /** A header with the digest of its body; None when the body could not be read to its end. */
  datatype TarMember = TarMember(header: Header, payload: Option<Digest>)

  datatype SemanticEntry = SemanticEntry(name: Text, digest: Digest)

  datatype ScanError = InvalidArchive | ArchiveLimit

  // ---------- names ----------

  predicate ValidPathText(value: Text) {
    value != [] && |value| <= MAXIMUM_PATH && ValidUTF8(value) && 0 !in value && 92 !in value && !Rooted(value)
  }

  function TrimSlash(value: Text): Text {
    if value != [] && value[|value| - 1] == SLASH then value[..|value| - 1] else value
  }

  function NormalizedMemberPath(value: Text, directory: bool): Option<Text> {
    var trimmed := if directory then TrimSlash(value) else value;
    if ValidPathText(trimmed) && CanonicalMember(trimmed) then Some(trimmed) else None
  }

  function NormalizedSymlink(name: Text, value: Text): Option<Text> {
    if !ValidPathText(value) || Escapes(Resolved(name, value)) then None else Some(value)
  }

  /** A relative path of ordinary components. */
  predicate MemberName(name: Text) {
    name != [] && !Rooted(name) && AllOrdinary(Split(name))
  }

  lemma {:induction false} NormalizedIsMember(value: Text, directory: bool)
    requires NormalizedMemberPath(value, directory).Some?
    ensures MemberName(NormalizedMemberPath(value, directory).value)
  {
    CanonicalIffOrdinary(NormalizedMemberPath(value, directory).value);
  }

  /** The first k components of a name. */
  function Prefix(name: Text, k: nat): Text
    requires k <= |Split(name)|
  {
    Join(Split(name)[..k])
  }

  /** The path is a directory above the name, by components. */
  predicate IsAncestor(above: Text, name: Text) {
    exists k | 0 < k < |Split(name)| :: above == Prefix(name, k)
  }

  lemma {:induction false} PrefixesDiffer(name: Text, k: nat)
    requires MemberName(name) && 0 < k < |Split(name)|
    ensures Prefix(name, k) != name
  {
    var parts := Split(name);
    JoinOfSplit(name);
    if Prefix(name, k) == name {
      JoinIsInjective(parts[..k], parts);
    }
  }

  lemma {:induction false} NotItsOwnAncestor(name: Text)
    requires MemberName(name)
    ensures !IsAncestor(name, name)
  {
    forall k | 0 < k < |Split(name)|
      ensures Prefix(name, k) != name
    {
      PrefixesDiffer(name, k);
    }
  }

  /** Going up from a name visits its prefixes and ends at the dot. */
  lemma {:induction false} ParentOfPrefix(name: Text, k: nat)
    requires MemberName(name) && 0 < k <= |Split(name)|
    ensures Dir(Prefix(name, k)) == if k == 1 then DOT else Prefix(name, k - 1)
    ensures Prefix(name, k) != DOT && (k == |Split(name)| ==> Prefix(name, k) == name)
  {
    var parts := Split(name)[..k];
    DirOfMember(parts);
    OrdinaryIsNotDot(parts);
    assert parts[..k - 1] == Split(name)[..k - 1];
    if k == |Split(name)| {
      assert parts == Split(name);
      JoinOfSplit(name);
    }
  }

  /** The place k levels below the root on the way to the name; the dot stands for the root. */
  function ParentAt(name: Text, k: nat): Text
    requires k <= |Split(name)|
  {
    if k == 0 then DOT else Prefix(name, k)
  }

  lemma {:induction false} GoesUp(name: Text, k: nat)
    requires MemberName(name) && 0 < k <= |Split(name)|
    ensures ParentAt(name, k) != DOT && Dir(ParentAt(name, k)) == ParentAt(name, k - 1)
    ensures k == |Split(name)| ==> ParentAt(name, k) == name
  {
    ParentOfPrefix(name, k);
  }

  /** The directories above the name, from the nearest up. */
  function ParentChain(name: Text): seq<Text> {
    var n := |Split(name)|;
    seq(if n > 0 then n - 1 else 0, i requires 0 <= i < n - 1 => ParentAt(name, n - 1 - i))
  }

  /** Going up from the name leads through the chain and ends at the dot. */
  predicate IsChain(chain: seq<Text>, name: Text, up: Text -> Text) {
    up(name) == Link(chain, 0) && forall i | 0 <= i < |chain| :: LeadsUp(chain, i, up)
  }

  predicate LeadsUp(chain: seq<Text>, i: nat, up: Text -> Text)
    requires i < |chain|
  {
    chain[i] != DOT && up(chain[i]) == Link(chain, i + 1)
  }

  function Link(chain: seq<Text>, i: nat): Text {
    if i < |chain| then chain[i] else DOT
  }

  lemma {:induction false} ChainAt(name: Text, k: nat)
    requires k < |Split(name)|
    ensures |ParentChain(name)| == |Split(name)| - 1
    ensures Link(ParentChain(name), |Split(name)| - 1 - k) == ParentAt(name, k)
  {
  }

  lemma {:induction false} ChainLeadsUp(name: Text, i: nat, up: Text -> Text)
    requires i < |ParentChain(name)| && |ParentChain(name)| == |Split(name)| - 1
    requires
      var k := |Split(name)| - 1 - i;
      ParentAt(name, k) != DOT && up(ParentAt(name, k)) == ParentAt(name, k - 1)
    ensures LeadsUp(ParentChain(name), i, up)
  {
    ChainAt(name, |Split(name)| - 1 - i);
    ChainAt(name, |Split(name)| - 2 - i);
  }

  lemma {:induction false} ParentsAreChain(name: Text)
    requires MemberName(name)
    ensures IsChain(ParentChain(name), name, Dir)
  {
    var n := |Split(name)|;
    GoesUp(name, n);
    ChainAt(name, n - 1);
    forall i | 0 <= i < |ParentChain(name)|
      ensures LeadsUp(ParentChain(name), i, Dir)
    {
      GoesUp(name, n - 1 - i);
      ChainLeadsUp(name, i, Dir);
    }
  }

  lemma {:induction false} ChainHoldsAncestors(name: Text, parent: Text)
    ensures parent in ParentChain(name) <==> parent in AncestorsOf(name)
  {
    var n := |Split(name)|;
    if parent in AncestorsOf(name) {
      var k :| 0 < k < n && Prefix(name, k) == parent;
      ChainAt(name, k);
    }
    if parent in ParentChain(name) {
      var i :| 0 <= i < |ParentChain(name)| && ParentChain(name)[i] == parent;
      ChainAt(name, n - 1 - i);
    }
  }

  /** A symbolic link is kept exactly when following it never leaves the root. */
  lemma {:induction false} SymlinkStaysInside(name: Text, value: Text)
    requires MemberName(name)
    ensures NormalizedSymlink(name, value) ==
            if ValidPathText(value) && StaysInside(|Split(name)| - 1, Split(value)) then Some(value) else None
  {
    JoinOfSplit(name);
    if ValidPathText(value) {
      LinkStaysInside(Split(name), value);
    }
  }

  // ---------- metadata ----------

  predicate ValidOwnerName(value: Text) {
    |value| <= MAXIMUM_PATH && ValidUTF8(value)
  }

  function Lower(b: Byte): Byte {
    if 65 <= b <= 90 then b + 32 else b
  }

  predicate MentionsSparse(key: Text) {
    exists i | 0 <= i <= |key| - 6 ::
      Lower(key[i]) == 115 && Lower(key[i + 1]) == 112 && Lower(key[i + 2]) == 97 &&
      Lower(key[i + 3]) == 114 && Lower(key[i + 4]) == 115 && Lower(key[i + 5]) == 101
  }

  predicate ValidPAXRecord(key: Text, value: Text) {
    key != [] && value != [] && |key| <= MAXIMUM_PATH && |value| <= MAXIMUM_PATH &&
    ValidUTF8(key) && ValidUTF8(value) && !MentionsSparse(key)
  }

  predicate ValidHeaderMetadata(header: Header) {
    0 <= header.mode <= 4095 && header.uid >= 0 && header.gid >= 0 &&
    ValidOwnerName(header.uname) && ValidOwnerName(header.gname) &&
    (forall key | key in header.pax :: ValidPAXRecord(key, header.pax[key])) &&
    header.devmajor == 0 && header.devminor == 0
  }

  // ---------- the tree ----------

  /** An accepted member. */
  datatype Member = Member(name: Text, kind: EntryKind, link: Text, size: int, digest: Digest)

  predicate ParentsAreDirectories(members: seq<Member>) {
    forall i, j | 0 <= i < |members| && 0 <= j < |members| && IsAncestor(members[j].name, members[i].name) ::
      j < i && members[j].kind.Directory?
  }

  predicate LinksToRegular(members: seq<Member>, i: nat)
    requires i < |members|
  {
    members[i].kind.Hardlink? ==>
      exists j | 0 <= j < i :: members[j].name == members[i].link && members[j].kind.Regular?
  }

  predicate LinkInside(member: Member) {
    member.kind.Symlink? ==> StaysInside(|Split(member.name)| - 1, Split(member.link))
  }

  predicate NamesDiffer(members: seq<Member>) {
    forall i, j | 0 <= i < j < |members| :: members[i].name != members[j].name
  }

  /** Distinct names below the root; whatever is above another member is an earlier directory; hard
      links lead to earlier files; following a symbolic link never leaves the root. */
  predicate Tree(members: seq<Member>) {
    (forall i | 0 <= i < |members| :: MemberName(members[i].name)) &&
    NamesDiffer(members) &&
    ParentsAreDirectories(members) &&
    (forall i | 0 <= i < |members| :: LinksToRegular(members, i)) &&
    forall i | 0 <= i < |members| :: LinkInside(members[i])
  }

  function Payload(members: seq<Member>): int {
    if members == [] then 0
    else
      var last := members[|members| - 1];
      Payload(members[..|members| - 1]) + if last.kind.Regular? then last.size else 0
  }

  // ---------- digests ----------

  function KindByte(kind: EntryKind): Byte {
    match kind
    case Regular => 1
    case Directory => 2
    case Symlink => 3
    case Hardlink => 4
  }

  function EntryPreimage(kind: EntryKind, header: Header, link: Text, payload: Digest): Bytes {
    (Octet(KindByte(kind)) + (Varint(header.mode) + (Varint(header.uid) + Varint(header.gid)))) +
    ((Varint(header.seconds) + (Varint(header.nanoseconds) + (TextBytes(header.uname) + TextBytes(header.gname)))) +
     ((TextBytes(link) + DigestBytes(payload)) + Each(WorkloadDigest.Entries(header.pax), WorkloadDigest.EntryBytes)))
  }

  /** The fields of a header that restoring it depends on. */
  predicate SameMetadata(x: Header, y: Header) {
    x.mode == y.mode && x.uid == y.uid && x.gid == y.gid && x.seconds == y.seconds &&
    x.nanoseconds == y.nanoseconds && x.uname == y.uname && x.gname == y.gname && x.pax == y.pax
  }

  lemma {:induction false} WholeEachUnique<T(!new)>(x: seq<T>, y: seq<T>, code: T -> Bytes)
    requires Unique(code) && Each(x, code) == Each(y, code)
    requires forall v: T :: |code(v)| > 0
    ensures x == y
  {
    if x == [] || y == [] {
      assert x == [] == y;
    } else {
      assert code(x[0]) + Each(x[1..], code) == code(y[0]) + Each(y[1..], code);
      WholeEachUnique(x[1..], y[1..], code);
      assert x == [x[0]] + x[1..] && y == [y[0]] + y[1..];
    }
  }

  lemma {:induction false} EntrySplits(
      octet: Byte -> Bytes, number: int -> Bytes, text: Text -> Bytes, digest: Digest -> Bytes,
      kind: EntryKind, x: Header, link: Text, payload: Digest, pax: Bytes,
      kind': EntryKind, y: Header, link': Text, payload': Digest, pax': Bytes)
    requires Unique(octet) && Unique(number) && Unique(text) && Unique(digest)
    requires
      (octet(KindByte(kind)) + (number(x.mode) + (number(x.uid) + number(x.gid)))) +
      ((number(x.seconds) + (number(x.nanoseconds) + (text(x.uname) + text(x.gname)))) +
       ((text(link) + digest(payload)) + pax)) ==
      (octet(KindByte(kind')) + (number(y.mode) + (number(y.uid) + number(y.gid)))) +
      ((number(y.seconds) + (number(y.nanoseconds) + (text(y.uname) + text(y.gname)))) +
       ((text(link') + digest(payload')) + pax'))
    ensures kind == kind' && SameMetadata(x, y.(pax := x.pax)) && link == link' && payload == payload' && pax == pax'
  {
    var rest, rest' := (text(link) + digest(payload)) + pax, (text(link') + digest(payload')) + pax';
    var times := number(x.seconds) + (number(x.nanoseconds) + (text(x.uname) + text(x.gname)));
    var times' := number(y.seconds) + (number(y.nanoseconds) + (text(y.uname) + text(y.gname)));
    WorkloadDigest.QuadrupleSplits(octet, number, number, number, KindByte(kind), x.mode, x.uid, x.gid,
                    KindByte(kind'), y.mode, y.uid, y.gid, times + rest, times' + rest');
    WorkloadDigest.QuadrupleSplits(number, number, text, text, x.seconds, x.nanoseconds, x.uname, x.gname,
                    y.seconds, y.nanoseconds, y.uname, y.gname, rest, rest');
    WorkloadDigest.PairSplits(text, digest, link, payload, link', payload', pax, pax');
  }

  /** An entry's digest is computed over everything that restoring the entry depends on. */
  lemma {:induction false} EntryPreimageIdentifies(
      kind: EntryKind, x: Header, link: Text, payload: Digest,
      kind': EntryKind, y: Header, link': Text, payload': Digest)
    ensures EntryPreimage(kind, x, link, payload) == EntryPreimage(kind', y, link', payload') <==>
            kind == kind' && SameMetadata(x, y) && link == link' && payload == payload'
  {
    if EntryPreimage(kind, x, link, payload) == EntryPreimage(kind', y, link', payload') {
      OneByteCodesAreUnique();
      VarintIsUnique();
      TextIsUnique();
      DigestIsUnique();
      WorkloadDigest.EntryIsUnique();
      EntrySplits(Octet, Varint, TextBytes, DigestBytes, kind, x, link, payload,
                  Each(WorkloadDigest.Entries(x.pax), WorkloadDigest.EntryBytes),
                  kind', y, link', payload', Each(WorkloadDigest.Entries(y.pax), WorkloadDigest.EntryBytes));
      WholeEachUnique(WorkloadDigest.Entries(x.pax), WorkloadDigest.Entries(y.pax), WorkloadDigest.EntryBytes);
      WorkloadDigest.EntriesDetermine(x.pax, y.pax);
    }
  }

  function SemanticBytes(entry: SemanticEntry): Bytes {
    TextBytes(entry.name) + DigestBytes(entry.digest)
  }

  function NameOf(entry: SemanticEntry): Text {
    entry.name
  }

  /** The content identity is computed over the entries in the order of their names. */
  function SemanticPreimage(entries: seq<SemanticEntry>): Bytes {
    [1] + Each(Sorting.Ordered(entries, NameOf), SemanticBytes)
  }

  lemma {:induction false} SemanticIsUnique()
    ensures Unique(SemanticBytes)
  {
    TextIsUnique();
    DigestIsUnique();
    forall x: SemanticEntry, y: SemanticEntry, r: Bytes, s: Bytes | SemanticBytes(x) + r == SemanticBytes(y) + s
      ensures x == y && r == s
    {
      WorkloadDigest.PairSplits(TextBytes, DigestBytes, x.name, x.digest, y.name, y.digest, r, s);
    }
  }

  /** Two archives with distinct names have the same content identity exactly when they hold the same
      entries under the same names, in whatever order. */
  lemma {:induction false} ContentIdentifies(left: seq<SemanticEntry>, right: seq<SemanticEntry>)
    requires Sorting.DistinctKeys(left, NameOf) && Sorting.DistinctKeys(right, NameOf)
    ensures SemanticPreimage(left) == SemanticPreimage(right) <==> multiset(left) == multiset(right)
  {
    if SemanticPreimage(left) == SemanticPreimage(right) {
      var x, y := Sorting.Ordered(left, NameOf), Sorting.Ordered(right, NameOf);
      SplitsAt([1], [1], Each(x, SemanticBytes), Each(y, SemanticBytes));
      SemanticIsUnique();
      WholeEachUnique(x, y, SemanticBytes);
      Sorting.OrderedSorts(left, NameOf);
      Sorting.OrderedSorts(right, NameOf);
    }
    if multiset(left) == multiset(right) {
      Sorting.OrderedPermutes(left, right, NameOf);
    }
  }

  // ---------- what a scan knows ----------

  /** The kinds of the members by name. */
  function TypeMap(members: seq<Member>): map<Text, EntryKind> {
    if members == [] then map[]
    else
      var last := members[|members| - 1];
      TypeMap(members[..|members| - 1])[last.name := last.kind]
  }

  /** Their names by folded name. */
  function AliasMap(members: seq<Member>, fold: Text -> Text): map<Text, Text> {
    if members == [] then map[]
    else
      var last := members[|members| - 1];
      AliasMap(members[..|members| - 1], fold)[fold(last.name) := last.name]
  }

  function AncestorsOf(name: Text): set<Text> {
    set k | 0 < k < |Split(name)| :: Prefix(name, k)
  }

  /** Every directory above one of them. */
  function AncestorSet(members: seq<Member>): set<Text> {
    if members == [] then {}
    else AncestorSet(members[..|members| - 1]) + AncestorsOf(members[|members| - 1].name)
  }

  function EntryList(members: seq<Member>): seq<SemanticEntry> {
    seq(|members|, i requires 0 <= i < |members| => SemanticEntry(members[i].name, members[i].digest))
  }

  /** The name is free, nothing known lies below it, and what lies above it is a directory. */
  predicate PathFits(members: seq<Member>, name: Text, fold: Text -> Text) {
    fold(name) !in AliasMap(members, fold) && name !in AncestorSet(members) &&
    ParentsFit(TypeMap(members), name)
  }

  predicate ParentsFit(types: map<Text, EntryKind>, name: Text) {
    AreDirectories(types, AncestorsOf(name))
  }

  predicate AreDirectories(types: map<Text, EntryKind>, names: set<Text>) {
    forall name | name in names && name in types :: types[name].Directory?
  }

  predicate LinkFits(types: map<Text, EntryKind>, m: Member) {
    (m.kind.Hardlink? ==> m.link in types && types[m.link].Regular?) && LinkInside(m)
  }

  /** Every member was admissible when it came. */
  predicate Admitted(members: seq<Member>, fold: Text -> Text) {
    members == [] ||
    var before, last := members[..|members| - 1], members[|members| - 1];
    Admitted(before, fold) && MemberName(last.name) && PathFits(before, last.name, fold) &&
    LinkFits(TypeMap(before), last)
  }

  // ---------- what was admitted is a tree ----------

  lemma {:induction false} TypeMapHolds(members: seq<Member>, name: Text)
    ensures name in TypeMap(members) <==> exists i | 0 <= i < |members| :: members[i].name == name
  {
    if members != [] {
      var before := members[..|members| - 1];
      TypeMapHolds(before, name);
      if name in TypeMap(before) {
        var i :| 0 <= i < |before| && before[i].name == name;
        assert members[i].name == name;
      }
    }
  }

  lemma {:induction false} AliasMapHolds(members: seq<Member>, fold: Text -> Text, i: nat)
    requires i < |members|
    ensures fold(members[i].name) in AliasMap(members, fold)
  {
    var n := |members| - 1;
    if i < n {
      AliasMapHolds(members[..n], fold, i);
    }
  }

  lemma {:induction false} AncestorSetHolds(members: seq<Member>, i: nat, above: Text)
    requires i < |members| && IsAncestor(above, members[i].name)
    ensures above in AncestorSet(members)
  {
    var n := |members| - 1;
    if i < n {
      AncestorSetHolds(members[..n], i, above);
    }
  }

  lemma {:induction false} LastIsNew(members: seq<Member>, fold: Text -> Text)
    requires Admitted(members, fold) && members != []
    ensures
      var before, last := members[..|members| - 1], members[|members| - 1];
      Admitted(before, fold) && fold(last.name) !in AliasMap(before, fold)
  {
  }

  lemma {:induction false} TypeMapOfMore(members: seq<Member>, name: Text)
    requires members != []
    ensures
      var before, last := members[..|members| - 1], members[|members| - 1];
      last.name in TypeMap(members) && TypeMap(members)[last.name] == last.kind &&
      (name != last.name && name in TypeMap(before) ==>
         name in TypeMap(members) && TypeMap(members)[name] == TypeMap(before)[name])
  {
  }

  lemma {:induction false} NameIsNew(members: seq<Member>, fold: Text -> Text, i: nat)
    requires Admitted(members, fold) && i < |members| - 1
    ensures members[i].name != members[|members| - 1].name
  {
    LastIsNew(members, fold);
    AliasMapHolds(members[..|members| - 1], fold, i);
  }

  lemma {:induction false} AdmittedNamesDiffer(members: seq<Member>, fold: Text -> Text, i: nat, j: nat)
    requires Admitted(members, fold) && i < j < |members|
    ensures members[i].name != members[j].name
  {
    if j == |members| - 1 {
      NameIsNew(members, fold, i);
    } else {
      LastIsNew(members, fold);
      AdmittedNamesDiffer(members[..|members| - 1], fold, i, j);
    }
  }

  lemma {:induction false} TypeOfOne(members: seq<Member>, i: nat)
    requires NamesDiffer(members) && i < |members|
    ensures members[i].name in TypeMap(members) && TypeMap(members)[members[i].name] == members[i].kind
  {
    TypeMapOfMore(members, members[i].name);
    if i < |members| - 1 {
      TypeOfOne(members[..|members| - 1], i);
    }
  }

  /** The type table holds the kind of every admitted member. */
  lemma {:induction false} TypeMapIsExact(members: seq<Member>, fold: Text -> Text, i: nat)
    requires Admitted(members, fold) && i < |members|
    ensures members[i].name in TypeMap(members) && TypeMap(members)[members[i].name] == members[i].kind
  {
    forall j, k | 0 <= j < k < |members|
      ensures members[j].name != members[k].name
    {
      AdmittedNamesDiffer(members, fold, j, k);
    }
    TypeOfOne(members, i);
  }

  /** What admitting a member means for the members before it. */
  lemma {:induction false} LastFits(members: seq<Member>, fold: Text -> Text, i: nat)
    requires Admitted(members, fold) && i < |members| - 1
    ensures
      var last := members[|members| - 1];
      fold(members[i].name) != fold(last.name) && !IsAncestor(last.name, members[i].name) &&
      (IsAncestor(members[i].name, last.name) ==> members[i].kind.Directory?)
  {
    var before, last := members[..|members| - 1], members[|members| - 1];
    AliasMapHolds(before, fold, i);
    TypeMapIsExact(before, fold, i);
    if IsAncestor(last.name, members[i].name) {
      AncestorSetHolds(before, i, last.name);
    }
  }

  lemma {:induction false} PairFits(members: seq<Member>, fold: Text -> Text, i: nat, j: nat)
    requires Admitted(members, fold) && i < j < |members|
    ensures members[i].name != members[j].name && !IsAncestor(members[j].name, members[i].name)
    ensures IsAncestor(members[i].name, members[j].name) ==> members[i].kind.Directory?
  {
    if j == |members| - 1 {
      LastFits(members, fold, i);
    } else {
      PairFits(members[..|members| - 1], fold, i, j);
    }
  }

  lemma {:induction false} MemberFits(members: seq<Member>, fold: Text -> Text, i: nat)
    requires Admitted(members, fold) && i < |members|
    ensures MemberName(members[i].name) && LinkInside(members[i])
    ensures members[i].kind.Hardlink? ==>
      members[i].link in TypeMap(members[..i]) && TypeMap(members[..i])[members[i].link].Regular?
    ensures Admitted(members[..i], fold)
  {
    var n := |members| - 1;
    if i < n {
      MemberFits(members[..n], fold, i);
      assert members[..n][..i] == members[..i];
    }
  }

  lemma {:induction false} HardlinkLeadsBack(members: seq<Member>, fold: Text -> Text, i: nat)
    requires Admitted(members, fold) && i < |members|
    ensures LinksToRegular(members, i)
  {
    MemberFits(members, fold, i);
    if members[i].kind.Hardlink? {
      var before := members[..i];
      TypeMapHolds(before, members[i].link);
      var j :| 0 <= j < |before| && before[j].name == members[i].link;
      TypeMapIsExact(before, fold, j);
      assert members[j] == before[j];
    }
  }

  lemma {:induction false} AdmittedParents(members: seq<Member>, fold: Text -> Text)
    requires Admitted(members, fold)
    ensures ParentsAreDirectories(members)
  {
    forall i, j | 0 <= i < |members| && 0 <= j < |members| && IsAncestor(members[j].name, members[i].name)
      ensures j < i && members[j].kind.Directory?
    {
      if j < i {
        PairFits(members, fold, j, i);
      } else if i < j {
        PairFits(members, fold, i, j);
      } else {
        MemberFits(members, fold, i);
        NotItsOwnAncestor(members[i].name);
      }
    }
  }

  /** The members that a scan has admitted form a tree. */
  lemma {:induction false} AdmittedIsTree(members: seq<Member>, fold: Text -> Text)
    requires Admitted(members, fold)
    ensures Tree(members)
  {
    forall i | 0 <= i < |members|
      ensures MemberName(members[i].name) && LinkInside(members[i]) && LinksToRegular(members, i)
    {
      MemberFits(members, fold, i);
      HardlinkLeadsBack(members, fold, i);
    }
    forall i, j | 0 <= i < j < |members|
      ensures members[i].name != members[j].name
    {
      PairFits(members, fold, i, j);
    }
    AdmittedParents(members, fold);
  }

  /** A path fits exactly when the tree with it would still be one: its folded name is new, no member
      lies below it, and every member above it is a directory. */
  lemma {:induction false} FitsAsTree(members: seq<Member>, fold: Text -> Text, name: Text)
    requires Admitted(members, fold)
    ensures PathFits(members, name, fold) <==>
            forall i | 0 <= i < |members| ::
              fold(members[i].name) != fold(name) && !IsAncestor(name, members[i].name) &&
              (IsAncestor(members[i].name, name) ==> members[i].kind.Directory?)
  {
    forall i | 0 <= i < |members|
      ensures fold(members[i].name) in AliasMap(members, fold)
      ensures members[i].name in TypeMap(members) && TypeMap(members)[members[i].name] == members[i].kind
      ensures IsAncestor(name, members[i].name) ==> name in AncestorSet(members)
    {
      AliasMapHolds(members, fold, i);
      TypeMapIsExact(members, fold, i);
      if IsAncestor(name, members[i].name) {
        AncestorSetHolds(members, i, name);
      }
    }
    if fold(name) in AliasMap(members, fold) {
      AliasMapOnly(members, fold, fold(name));
    }
    if name in AncestorSet(members) {
      AncestorSetOnly(members, name);
    }
    forall above | above in AncestorsOf(name) && above in TypeMap(members)
      ensures exists i | 0 <= i < |members| :: members[i].name == above
    {
      TypeMapHolds(members, above);
    }
  }

  lemma {:induction false} AliasMapOnly(members: seq<Member>, fold: Text -> Text, alias: Text)
    requires alias in AliasMap(members, fold)
    ensures exists i | 0 <= i < |members| :: fold(members[i].name) == alias
  {
    var n := |members| - 1;
    if fold(members[n].name) != alias {
      AliasMapOnly(members[..n], fold, alias);
      var i :| 0 <= i < n && fold(members[..n][i].name) == alias;
      assert fold(members[i].name) == alias;
    }
  }

  lemma {:induction false} AncestorSetOnly(members: seq<Member>, above: Text)
    requires above in AncestorSet(members)
    ensures exists i | 0 <= i < |members| :: IsAncestor(above, members[i].name)
  {
    var n := |members| - 1;
    if above in AncestorsOf(members[n].name) {
      assert IsAncestor(above, members[n].name);
    } else {
      AncestorSetOnly(members[..n], above);
      var i :| 0 <= i < n && IsAncestor(above, members[..n][i].name);
      assert IsAncestor(above, members[i].name);
    }
  }

  // ---------- the scan ----------

  /** What a scan keeps about the members that it has admitted. */
  predicate Tables(
    members: seq<Member>, fold: Text -> Text, entries: seq<SemanticEntry>, types: map<Text, EntryKind>,
    aliases: map<Text, Text>, ancestors: set<Text>, payloadBytes: int)
  {
    Admitted(members, fold) && entries == EntryList(members) && types == TypeMap(members) &&
    aliases == AliasMap(members, fold) && ancestors == AncestorSet(members) &&
    payloadBytes == Payload(members) && 0 <= payloadBytes <= MAX_INT64 && |members| <= MAXIMUM_ENTRIES
  }

  /** The same once the path of the next member has been entered. */
  predicate Entering(
    members: seq<Member>, fold: Text -> Text, entries: seq<SemanticEntry>, types: map<Text, EntryKind>,
    aliases: map<Text, Text>, ancestors: set<Text>, payloadBytes: int, name: Text)
  {
    Admitted(members, fold) && entries == EntryList(members) && types == TypeMap(members) &&
    aliases == AliasMap(members, fold)[fold(name) := name] &&
    ancestors == AncestorSet(members) + AncestorsOf(name) &&
    payloadBytes == Payload(members) && 0 <= payloadBytes <= MAX_INT64 && |members| < MAXIMUM_ENTRIES &&
    MemberName(name) && PathFits(members, name, fold)
  }

  lemma {:induction false} Enters(
      members: seq<Member>, fold: Text -> Text, entries: seq<SemanticEntry>, types: map<Text, EntryKind>,
      aliases: map<Text, Text>, ancestors: set<Text>, payloadBytes: int, m: Member)
    requires Entering(members, fold, entries, types, aliases, ancestors, payloadBytes, m.name)
    requires LinkFits(types, m) && SizeFits(payloadBytes, m)
    ensures Tables(members + [m], fold, entries + [SemanticEntry(m.name, m.digest)], types[m.name := m.kind], aliases,
                   ancestors, payloadBytes + if m.kind.Regular? then m.size else 0)
  {
    AdmitNext(members, m, fold);
    TablesGrow(members, m, fold);
  }

  /** `fold` is normalization and case folding, `hash` the content hash; neither is looked into. */
  class ArchiveScan {
    const fold: Text -> Text
    const hash: Bytes -> Digest
    var entries: seq<SemanticEntry>
    var types: map<Text, EntryKind>
    var aliases: map<Text, Text>
    var ancestors: set<Text>
    var payloadBytes: int
    ghost var members: seq<Member>

    constructor (fold: Text -> Text, hash: Bytes -> Digest)
      ensures this.fold == fold && this.hash == hash && Valid() && members == []
    {
      this.fold, this.hash := fold, hash;
      entries, types, aliases, ancestors, payloadBytes := [], map[], map[], {}, 0;
      members := [];
    }

    /** The tables are those of the admitted members. */
    ghost predicate Valid()
      reads this
    {
      Tables(members, fold, entries, types, aliases, ancestors, payloadBytes)
    }

    /** Enters every directory above the name, unless one of them is known not to be a directory. */
    method RecordAncestors(name: Text) returns (ok: bool)
      requires MemberName(name)
      modifies this`ancestors
      ensures ok <==> ParentsFit(types, name)
      ensures ok ==> ancestors == old(ancestors) + AncestorsOf(name)
    {
      ParentsAreChain(name);
      forall parent: Text
        ensures parent in ParentChain(name) <==> parent in AncestorsOf(name)
      {
        ChainHoldsAncestors(name, parent);
      }
      ok := RecordAbove(ParentChain(name), name, Dir);
    }

    /** The loop over the directories above; `up` leads from one to the next. */
    method RecordAbove(ghost chain: seq<Text>, name: Text, up: Text -> Text) returns (ok: bool)
      requires IsChain(chain, name, up)
      modifies this`ancestors
      ensures ok <==> forall parent | parent in chain && parent in types :: types[parent].Directory?
      ensures ok ==> forall above: Text :: above in ancestors <==> above in old(ancestors) || above in chain
    {
      var parent := up(name);
      ghost var i := 0;
      assert chain != [] ==> LeadsUp(chain, 0, up);
      while parent != DOT
        invariant i <= |chain| && parent == Link(chain, i) && (parent == DOT <==> i == |chain|)
        invariant forall above: Text :: above in ancestors <==> above in old(ancestors) || above in chain[..i]
        invariant forall k | 0 <= k < i && chain[k] in types :: types[chain[k]].Directory?
        decreases |chain| - i
      {
        assert LeadsUp(chain, i, up);
        if parent in types && !types[parent].Directory? {
          return false;
        }
        ancestors := ancestors + {parent};
        assert chain[..i + 1] == chain[..i] + [parent];
        parent := up(parent);
        i := i + 1;
        assert i < |chain| ==> LeadsUp(chain, i, up);
      }
      assert chain[..i] == chain;
      return true;
    }

    method RecordPath(name: Text) returns (ok: bool)
      requires MemberName(name)
      modifies this`ancestors, this`aliases
      ensures ok <==> fold(name) !in old(aliases) && name !in old(ancestors) && ParentsFit(types, name)
      ensures ok ==> aliases == old(aliases)[fold(name) := name] && ancestors == old(ancestors) + AncestorsOf(name)
    {
      var alias := fold(name);
      if alias in aliases {
        return false;
      }
      if name in ancestors {
        return false;
      }
      ok := RecordAncestors(name);
      if ok {
        aliases := aliases[alias := name];
      }
    }

    /** What becomes of a member whose path has been entered: its kind, link, size and body. */
    method Describe(name: Text, header: Header, payload: Option<Digest>)
      returns (member: Option<Member>, error: Option<ScanError>)
      ensures member ==
              if DescribedAs(types, name, header, payload, hash).Some? &&
                 SizeFits(payloadBytes, DescribedAs(types, name, header, payload, hash).value)
              then DescribedAs(types, name, header, payload, hash) else None
      ensures error.None? <==> member.Some?
    {
      var identity := EntryIdentity(types, name, header);
      if identity.None? {
        return None, Some(InvalidArchive);
      }
      var (kind, link) := identity.value;
      if !kind.Regular? && header.size != 0 {
        return None, Some(InvalidArchive);
      }
      if kind.Regular? && (header.size < 0 || payloadBytes > MAX_INT64 - header.size) {
        return None, Some(ArchiveLimit);
      }
      if kind.Regular? && payload.None? {
        return None, Some(InvalidArchive);
      }
      var digest := if kind.Regular? then payload.value else ZERO_DIGEST;
      return Some(Member(name, kind, link, header.size, hash(EntryPreimage(kind, header, link, digest)))), None;
    }

    /** Enters a member whose path has been entered. */
    method Enter(member: Member)
      requires Entering(members, fold, entries, types, aliases, ancestors, payloadBytes, member.name)
      requires LinkFits(types, member) && SizeFits(payloadBytes, member)
      modifies this`payloadBytes, this`types, this`entries, this`members
      ensures Valid() && members == old(members) + [member]
    {
      Enters(members, fold, entries, types, aliases, ancestors, payloadBytes, member);
      payloadBytes := payloadBytes + if member.kind.Regular? then member.size else 0;
      types := types[member.name := member.kind];
      entries := entries + [SemanticEntry(member.name, member.digest)];
      members := members + [member];
    }

    /** Takes a member whose path has just been entered. */
    method RecordEntered(name: Text, header: Header, payload: Option<Digest>) returns (error: Option<ScanError>)
      requires Entering(members, fold, entries, types, aliases, ancestors, payloadBytes, name)
      modifies this`payloadBytes, this`types, this`entries, this`members
      ensures
        var described := DescribedAs(TypeMap(old(members)), name, header, payload, hash);
        (error.None? <==> described.Some? && SizeFits(Payload(old(members)), described.value)) &&
        (error.None? ==> Valid() && members == old(members) + [described.value])
    {
      var member;
      member, error := Describe(name, header, payload);
      if member.Some? {
        DescriptionFits(types, name, header, payload, hash);
        Enter(member.value);
      }
    }

    /** Takes one more member exactly when a header describes one that fits and its body is whole. */
    method Record(header: Header, payload: Option<Digest>) returns (error: Option<ScanError>)
      requires Valid()
      modifies this
      ensures error.None? <==> Accepts(old(members), header, payload, fold, hash)
      ensures error.None? ==> Valid()
      ensures error.None? ==>
        members == old(members) + [Described(TypeMap(old(members)), header, payload, hash).value]
    {
      AcceptsNamed(members, header, payload, fold, hash);
      if |entries| >= MAXIMUM_ENTRIES {
        return Some(ArchiveLimit);
      }
      var name := AcceptableName(header);
      if name.None? {
        return Some(InvalidArchive);
      }
      var recorded := RecordPath(name.value);
      if !recorded {
        return Some(InvalidArchive);
      }
      error := RecordEntered(name.value, header, payload);
    }

    /** Puts the entries in order and frames them for the content digest. */
    method Inventory() returns (inventory: ScanInventory)
      requires Valid()
      modifies this`entries
      ensures Sorting.Sorts(entries, EntryList(members), NameOf)
      ensures inventory == ScanInventory(|members|, Payload(members), SemanticPreimage(EntryList(members)))
    {
      EntriesAreDistinct(members, fold);
      entries := Sorting.SortByKey(entries, NameOf);
      Sorting.SortedIsOrdered(entries, EntryList(members), NameOf);
      var semantic := FrameEntries(entries);
      Sorting.OrderedSorts(EntryList(members), NameOf);
      assert |entries| == |multiset(entries)| == |EntryList(members)|;
      return ScanInventory(|entries|, payloadBytes, semantic);
    }
  }

  method FrameEntries(entries: seq<SemanticEntry>) returns (semantic: Bytes)
    ensures semantic == [1] + Each(entries, SemanticBytes)
  {
    semantic := [1];
    for i := 0 to |entries|
      invariant semantic == [1] + Each(entries[..i], SemanticBytes)
    {
      semantic := AppendEntry(semantic, entries[i]);
      JoinEach([1], entries, SemanticBytes, i);
    }
    EachAll(entries, SemanticBytes);
  }

  method AppendEntry(encoded: Bytes, entry: SemanticEntry) returns (longer: Bytes)
    ensures longer == encoded + SemanticBytes(entry)
  {
    longer := AppendString(encoded, entry.name);
    longer := longer + DigestBytes(entry.digest);
  }

  /** The count, the payload and what the content digest is computed over. */
  datatype ScanInventory = ScanInventory(entryCount: int, payloadBytes: int, preimage: Bytes)

  /** Takes the members one after another, exactly as long as every one of them is acceptable after the
      ones before it; the first that is not ends the scan. */
  method ScanArchive(scan: ArchiveScan, input: seq<TarMember>) returns (error: Option<ScanError>)
    requires scan.Valid()
    modifies scan
    ensures error.None? <==> Folded(ScanStep(scan.fold, scan.hash), old(scan.members), input).Some?
    ensures error.None? ==>
      scan.Valid() && Folded(ScanStep(scan.fold, scan.hash), old(scan.members), input) == Some(scan.members)
  {
    ghost var step, first := ScanStep(scan.fold, scan.hash), scan.members;
    for i := 0 to |input|
      invariant scan.Valid() && Folded(step, first, input[..i]) == Some(scan.members)
    {
      FoldedGrows(step, first, input, i);
      error := scan.Record(input[i].header, input[i].payload);
      if error.Some? {
        FoldedStops(step, first, input, i + 1);
        return;
      }
    }
    assert input[..|input|] == input;
    return None;
  }

  ghost function ScanStep(fold: Text -> Text, hash: Bytes -> Digest): (seq<Member>, TarMember) -> Option<seq<Member>> {
    (members: seq<Member>, input: TarMember) =>
      if Accepts(members, input.header, input.payload, fold, hash)
      then Some(members + [Described(TypeMap(members), input.header, input.payload, hash).value])
      else None
  }

  /** The members that a scan makes of its input, if it accepts all of it. */
  ghost function Scanned(input: seq<TarMember>, fold: Text -> Text, hash: Bytes -> Digest): Option<seq<Member>> {
    Folded(ScanStep(fold, hash), [], input)
  }

  // ---------- what a scan accepts ----------

  /** The members are what the input describes, each in the light of the ones before it. */
  predicate Describes(members: seq<Member>, input: seq<TarMember>, hash: Bytes -> Digest) {
    |members| == |input| && forall i | 0 <= i < |members| :: DescribesAt(members, input, hash, i)
  }

  predicate DescribesAt(members: seq<Member>, input: seq<TarMember>, hash: Bytes -> Digest, i: nat)
    requires i < |members| == |input|
  {
    IsNext(members, input, Describer(hash), i)
  }

  predicate IsNext(
    members: seq<Member>, input: seq<TarMember>, next: (seq<Member>, TarMember) -> Option<Member>, i: nat)
    requires i < |members| == |input|
  {
    next(members[..i], input[i]) == Some(members[i])
  }

  /** What a header and its body describe after some members. */
  function Describer(hash: Bytes -> Digest): (seq<Member>, TarMember) -> Option<Member> {
    (before: seq<Member>, next: TarMember) => Described(TypeMap(before), next.header, next.payload, hash)
  }

  predicate FoldedApart(members: seq<Member>, fold: Text -> Text) {
    forall i, j | 0 <= i < j < |members| :: fold(members[i].name) != fold(members[j].name)
  }

  /** Neither too many, nor too large together. */
  predicate Sized(members: seq<Member>) {
    |members| <= MAXIMUM_ENTRIES && Payload(members) <= MAX_INT64 &&
    forall i | 0 <= i < |members| && members[i].kind.Regular? :: members[i].size >= 0
  }

  /** The shape of an acceptable archive, without the tables that the scan keeps. */
  predicate WellShaped(members: seq<Member>, fold: Text -> Text) {
    ParentsAreDirectories(members) && FoldedApart(members, fold) && Sized(members)
  }

  lemma {:induction false} PayloadIsNotNegative(members: seq<Member>)
    requires forall i | 0 <= i < |members| && members[i].kind.Regular? :: members[i].size >= 0
    ensures 0 <= Payload(members)
  {
    if members != [] {
      PayloadIsNotNegative(members[..|members| - 1]);
    }
  }

  lemma {:induction false} NextParents(members: seq<Member>, last: Member, fold: Text -> Text)
    requires Admitted(members, fold) && MemberName(last.name) && PathFits(members, last.name, fold)
    requires ParentsAreDirectories(members) && FoldedApart(members, fold)
    ensures ParentsAreDirectories(members + [last]) && FoldedApart(members + [last], fold)
  {
    FitsAsTree(members, fold, last.name);
    NotItsOwnAncestor(last.name);
    var longer := members + [last];
    forall i, j | 0 <= i < |longer| && 0 <= j < |longer| && IsAncestor(longer[j].name, longer[i].name)
      ensures j < i && longer[j].kind.Directory?
    {
      if i < |members| && j < |members| {
        assert longer[i] == members[i] && longer[j] == members[j];
      }
    }
  }

  lemma {:induction false} NextSize(members: seq<Member>, last: Member)
    requires Sized(members) && |members| < MAXIMUM_ENTRIES && SizeFits(Payload(members), last)
    ensures Sized(members + [last])
  {
    assert (members + [last])[..|members|] == members;
  }

  lemma {:induction false} SizeBefore(members: seq<Member>)
    requires Sized(members) && members != []
    ensures Sized(members[..|members| - 1])
    ensures SizeFits(Payload(members[..|members| - 1]), members[|members| - 1])
  {
  }

  lemma {:induction false} ShapeBefore(members: seq<Member>, fold: Text -> Text)
    requires WellShaped(members, fold) && members != [] && Admitted(members[..|members| - 1], fold)
    ensures WellShaped(members[..|members| - 1], fold)
    ensures PathFits(members[..|members| - 1], members[|members| - 1].name, fold)
  {
    var n := |members| - 1;
    SizeBefore(members);
    FitsAsTree(members[..n], fold, members[n].name);
    forall i | 0 <= i < n
      ensures !IsAncestor(members[n].name, members[..n][i].name)
    {
      assert members[..n][i] == members[i];
    }
  }

  lemma {:induction false} DescribesNext(
      members: seq<Member>, last: Member, input: seq<TarMember>, next: TarMember, hash: Bytes -> Digest)
    requires Describes(members, input, hash)
    requires Described(TypeMap(members), next.header, next.payload, hash) == Some(last)
    ensures Describes(members + [last], input + [next], hash)
  {
    var longer := members + [last];
    forall i | 0 <= i < |longer|
      ensures DescribesAt(longer, input + [next], hash, i)
    {
      if i < |members| {
        assert DescribesAt(members, input, hash, i);
        assert longer[..i] == members[..i] && longer[i] == members[i] && (input + [next])[i] == input[i];
      } else {
        assert longer[..i] == members && (input + [next])[i] == next;
      }
    }
  }

  lemma {:induction false} IsNextBefore(
      members: seq<Member>, input: seq<TarMember>, next: (seq<Member>, TarMember) -> Option<Member>, n: nat, i: nat)
    requires i < n < |members| == |input| && IsNext(members, input, next, i)
    ensures IsNext(members[..n], input[..n], next, i)
  {
    assert members[..n][..i] == members[..i] && members[..n][i] == members[i] && input[..n][i] == input[i];
  }

  lemma {:induction false} DescribesBefore(members: seq<Member>, input: seq<TarMember>, hash: Bytes -> Digest)
    requires Describes(members, input, hash) && members != []
    ensures
      var n := |members| - 1;
      Describes(members[..n], input[..n], hash) &&
      Described(TypeMap(members[..n]), input[n].header, input[n].payload, hash) == Some(members[n])
  {
    var n := |members| - 1;
    assert DescribesAt(members, input, hash, n);
    forall i | 0 <= i < n
      ensures DescribesAt(members[..n], input[..n], hash, i)
    {
      assert DescribesAt(members, input, hash, i);
      IsNextBefore(members, input, Describer(hash), n, i);
    }
  }

  /** What the scan has made of the members so far. */
  predicate Scans(members: seq<Member>, input: seq<TarMember>, fold: Text -> Text, hash: Bytes -> Digest) {
    Admitted(members, fold) && Describes(members, input, hash) && WellShaped(members, fold)
  }

  lemma {:induction false} ScansNext(
      members: seq<Member>, input: seq<TarMember>, next: TarMember, fold: Text -> Text, hash: Bytes -> Digest)
    requires Scans(members, input, fold, hash) && Accepts(members, next.header, next.payload, fold, hash)
    ensures
      var last := Described(TypeMap(members), next.header, next.payload, hash).value;
      Scans(members + [last], input + [next], fold, hash)
  {
    var last := Described(TypeMap(members), next.header, next.payload, hash).value;
    DescribedFits(TypeMap(members), next.header, next.payload, hash);
    AdmitNext(members, last, fold);
    DescribesNext(members, last, input, next, hash);
    NextParents(members, last, fold);
    NextSize(members, last);
  }

  lemma {:induction false} DescribedFits(
      types: map<Text, EntryKind>, header: Header, payload: Option<Digest>, hash: Bytes -> Digest)
    requires Described(types, header, payload, hash).Some?
    ensures
      var m := Described(types, header, payload, hash).value;
      MemberName(m.name) && LinkFits(types, m)
  {
    DescriptionFits(types, AcceptableName(header).value, header, payload, hash);
  }

  lemma {:induction false} ScannedScans(input: seq<TarMember>, fold: Text -> Text, hash: Bytes -> Digest)
    ensures Scanned(input, fold, hash).Some? ==> Scans(Scanned(input, fold, hash).value, input, fold, hash)
  {
    var step := ScanStep(fold, hash);
    var keeps := (members, done) => Scans(members, done, fold, hash);
    forall members, done, next | keeps(members, done) && step(members, next).Some?
      ensures keeps(step(members, next).value, done + [next])
    {
      ScansNext(members, done, next, fold, hash);
    }
    FoldedKeeps(step, [], input, keeps);
  }

  lemma {:induction false} ShapedIsAdmitted(
      members: seq<Member>, input: seq<TarMember>, fold: Text -> Text, hash: Bytes -> Digest)
    requires Describes(members, input, hash) && WellShaped(members, fold)
    ensures Admitted(members, fold)
    decreases |members|
  {
    if members != [] {
      var n := |members| - 1;
      DescribesBefore(members, input, hash);
      ShapedBefore(members, fold);
      ShapedIsAdmitted(members[..n], input[..n], fold, hash);
      ShapeBefore(members, fold);
      DescribedFits(TypeMap(members[..n]), input[n].header, input[n].payload, hash);
    }
  }

  lemma {:induction false} FrontIsAdmitted(
      members: seq<Member>, input: seq<TarMember>, fold: Text -> Text, hash: Bytes -> Digest)
    requires Describes(members, input, hash) && WellShaped(members, fold) && members != []
    ensures Fitting(fold)(members[..|members| - 1], Some(members[|members| - 1]))
    ensures
      var n := |members| - 1;
      Described(TypeMap(members[..n]), input[n].header, input[n].payload, hash) == Some(members[n])
  {
    var n := |members| - 1;
    DescribesBefore(members, input, hash);
    ShapedBefore(members, fold);
    ShapedIsAdmitted(members[..n], input[..n], fold, hash);
    ShapedFits(members[..n], members[n], members, fold);
  }

  lemma {:induction false} LastScanned(
      before: seq<Member>, last: Member, input: seq<TarMember>, fold: Text -> Text, hash: Bytes -> Digest)
    requires input != [] && Scanned(input[..|input| - 1], fold, hash) == Some(before)
    requires
      var next := input[|input| - 1];
      Described(TypeMap(before), next.header, next.payload, hash) == Some(last)
    requires Fitting(fold)(before, Some(last))
    ensures Scanned(input, fold, hash) == Some(before + [last])
  {
    StepTakes(before, last, input[|input| - 1], fold, hash);
    NextScanned(input, fold, hash, before, before + [last]);
  }

  lemma {:induction false} ShapedIsScanned(
      members: seq<Member>, input: seq<TarMember>, fold: Text -> Text, hash: Bytes -> Digest)
    requires Describes(members, input, hash) && WellShaped(members, fold)
    ensures Scanned(input, fold, hash) == Some(members)
    decreases |members|
  {
    if members != [] {
      var n := |members| - 1;
      DescribesBefore(members, input, hash);
      ShapedBefore(members, fold);
      ShapedIsScanned(members[..n], input[..n], fold, hash);
      FrontIsAdmitted(members, input, fold, hash);
      LastScanned(members[..n], members[n], input, fold, hash);
      LastJoins(members);
    }
  }

  lemma {:induction false} LastJoins(members: seq<Member>)
    requires members != []
    ensures members[..|members| - 1] + [members[|members| - 1]] == members
  {
  }

  /** An archive is accepted exactly when its members describe a tree: everything above a member is an
      earlier directory, the folded names differ, and there is neither too many nor too much of them. */
  lemma {:induction false} ScannedExactly(
      input: seq<TarMember>, fold: Text -> Text, hash: Bytes -> Digest, members: seq<Member>)
    ensures Scanned(input, fold, hash) == Some(members) <==>
            Describes(members, input, hash) && WellShaped(members, fold)
    ensures Scanned(input, fold, hash) == Some(members) ==> Tree(members)
  {
    if Scanned(input, fold, hash) == Some(members) {
      ScannedScans(input, fold, hash);
      AdmittedIsTree(members, fold);
    }
    if Describes(members, input, hash) && WellShaped(members, fold) {
      ShapedIsScanned(members, input, fold, hash);
    }
  }

  lemma {:induction false} ShapedBefore(members: seq<Member>, fold: Text -> Text)
    requires WellShaped(members, fold) && members != []
    ensures WellShaped(members[..|members| - 1], fold)
  {
    SizeBefore(members);
  }

  lemma {:induction false} ShapedFits(before: seq<Member>, last: Member, members: seq<Member>, fold: Text -> Text)
    requires WellShaped(members, fold) && members != [] && Admitted(before, fold)
    requires before == members[..|members| - 1] && last == members[|members| - 1]
    ensures Fitting(fold)(before, Some(last))
  {
    ShapeBefore(members, fold);
    SizeBefore(members);
  }

  lemma {:induction false} StepTakes(
      before: seq<Member>, last: Member, next: TarMember, fold: Text -> Text, hash: Bytes -> Digest)
    requires Described(TypeMap(before), next.header, next.payload, hash) == Some(last)
    requires Fitting(fold)(before, Some(last))
    ensures ScanStep(fold, hash)(before, next) == Some(before + [last])
  {
  }

  lemma {:induction false} NextScanned(
      input: seq<TarMember>, fold: Text -> Text, hash: Bytes -> Digest, before: seq<Member>, members: seq<Member>)
    requires input != [] && Scanned(input[..|input| - 1], fold, hash) == Some(before)
    requires ScanStep(fold, hash)(before, input[|input| - 1]) == Some(members)
    ensures Scanned(input, fold, hash) == Some(members)
  {
  }

  lemma {:induction false} EntriesAreDistinct(members: seq<Member>, fold: Text -> Text)
    requires Admitted(members, fold)
    ensures Sorting.DistinctKeys(EntryList(members), NameOf)
  {
    forall i, j | 0 <= i < j < |members|
      ensures NameOf(EntryList(members)[i]) != NameOf(EntryList(members)[j])
    {
      PairFits(members, fold, i, j);
    }
  }

  /** Two accepted archives have the same content identity exactly when they hold the same entries,
      whatever order their members came in. */
  lemma {:induction false} SameContentIsSameEntries(left: seq<Member>, right: seq<Member>, fold: Text -> Text)
    requires Admitted(left, fold) && Admitted(right, fold)
    ensures SemanticPreimage(EntryList(left)) == SemanticPreimage(EntryList(right)) <==>
            multiset(EntryList(left)) == multiset(EntryList(right))
  {
    EntriesAreDistinct(left, fold);
    EntriesAreDistinct(right, fold);
    ContentIdentifies(EntryList(left), EntryList(right));
  }

  function AcceptableName(header: Header): (name: Option<Text>)
    ensures name.Some? ==> MemberName(name.value)
  {
    var name := NormalizedMemberPath(header.name, header.typeflag == 53);
    if name.None? || !ValidHeaderMetadata(header) then None
    else
      NormalizedIsMember(header.name, header.typeflag == 53);
      name
  }

  function EntryIdentity(types: map<Text, EntryKind>, name: Text, header: Header): Option<(EntryKind, Text)> {
    if header.typeflag == 48 || header.typeflag == 0 then
      if header.linkname == [] then Some((Regular, [])) else None
    else if header.typeflag == 53 then
      if header.linkname == [] then Some((Directory, [])) else None
    else if header.typeflag == 50 then
      var link := NormalizedSymlink(name, header.linkname);
      if link.None? then None else Some((Symlink, link.value))
    else if header.typeflag == 49 then
      var link := NormalizedMemberPath(header.linkname, false);
      if link.None? || link.value !in types || !types[link.value].Regular? then None
      else Some((Hardlink, link.value))
    else None
  }

  function DescribedAs(
    types: map<Text, EntryKind>, name: Text, header: Header, payload: Option<Digest>, hash: Bytes -> Digest)
    : Option<Member>
  {
    var identity := EntryIdentity(types, name, header);
    if identity.None? || (!identity.value.0.Regular? && header.size != 0) ||
       (identity.value.0.Regular? && payload.None?) then None
    else
      var (kind, link) := identity.value;
      var digest := if kind.Regular? then payload.value else ZERO_DIGEST;
      Some(Member(name, kind, link, header.size, hash(EntryPreimage(kind, header, link, digest))))
  }

  /** The member that a header and its body describe, if all of it is acceptable. */
  function Described(types: map<Text, EntryKind>, header: Header, payload: Option<Digest>, hash: Bytes -> Digest)
    : Option<Member>
  {
    var name := AcceptableName(header);
    if name.None? then None else DescribedAs(types, name.value, header, payload, hash)
  }

  /** Acceptance, checked in the order of the scan. */
  lemma {:induction false} AcceptsNamed(
      members: seq<Member>, header: Header, payload: Option<Digest>, fold: Text -> Text, hash: Bytes -> Digest)
    ensures
      var name := AcceptableName(header);
      Accepts(members, header, payload, fold, hash) <==>
      |members| < MAXIMUM_ENTRIES && name.Some? && PathFits(members, name.value, fold) &&
      DescribedAs(TypeMap(members), name.value, header, payload, hash).Some? &&
      SizeFits(Payload(members), DescribedAs(TypeMap(members), name.value, header, payload, hash).value)
    ensures AcceptableName(header).Some? ==>
      Described(TypeMap(members), header, payload, hash)
      == DescribedAs(TypeMap(members), AcceptableName(header).value, header, payload, hash)
  {
  }

  lemma {:induction false} SymlinkIdentity(types: map<Text, EntryKind>, name: Text, header: Header, link: Text)
    requires MemberName(name) && EntryIdentity(types, name, header) == Some((Symlink, link))
    ensures StaysInside(|Split(name)| - 1, Split(link))
  {
    SymlinkStaysInside(name, header.linkname);
  }

  lemma {:induction false} HardlinkIdentity(types: map<Text, EntryKind>, name: Text, header: Header, link: Text)
    requires EntryIdentity(types, name, header) == Some((Hardlink, link))
    ensures link in types && types[link].Regular?
  {
  }

  lemma {:induction false} DescribedIdentity(
      types: map<Text, EntryKind>, name: Text, header: Header, payload: Option<Digest>, hash: Bytes -> Digest)
    requires DescribedAs(types, name, header, payload, hash).Some?
    ensures
      var m := DescribedAs(types, name, header, payload, hash).value;
      m.name == name && EntryIdentity(types, name, header) == Some((m.kind, m.link))
  {
  }

  lemma {:induction false} DescriptionFits(
      types: map<Text, EntryKind>, name: Text, header: Header, payload: Option<Digest>, hash: Bytes -> Digest)
    requires MemberName(name) && DescribedAs(types, name, header, payload, hash).Some?
    ensures
      var m := DescribedAs(types, name, header, payload, hash).value;
      m.name == name && LinkFits(types, m)
  {
    DescribedIdentity(types, name, header, payload, hash);
    var m := DescribedAs(types, name, header, payload, hash).value;
    if m.kind.Symlink? {
      SymlinkIdentity(types, name, header, m.link);
    } else if m.kind.Hardlink? {
      HardlinkIdentity(types, name, header, m.link);
    }
  }

  /** The sizes of the regular files can still be added up. */
  predicate SizeFits(payloadBytes: int, m: Member) {
    m.kind.Regular? ==> m.size >= 0 && payloadBytes <= MAX_INT64 - m.size
  }

  ghost predicate Accepts(
    members: seq<Member>, header: Header, payload: Option<Digest>, fold: Text -> Text, hash: Bytes -> Digest)
  {
    Fitting(fold)(members, Described(TypeMap(members), header, payload, hash))
  }

  ghost function Fitting(fold: Text -> Text): (seq<Member>, Option<Member>) -> bool {
    (members: seq<Member>, described: Option<Member>) => Fits(members, described, fold)
  }

  /** There is room for what a member is described as. */
  ghost predicate Fits(members: seq<Member>, described: Option<Member>, fold: Text -> Text) {
    |members| < MAXIMUM_ENTRIES && described.Some? && PathFits(members, described.value.name, fold) &&
    SizeFits(Payload(members), described.value)
  }

  lemma {:induction false} AdmitNext(members: seq<Member>, m: Member, fold: Text -> Text)
    requires Admitted(members, fold) && MemberName(m.name) && PathFits(members, m.name, fold)
    requires LinkFits(TypeMap(members), m)
    ensures Admitted(members + [m], fold)
  {
    assert (members + [m])[..|members|] == members;
  }

  lemma {:induction false} TablesGrow(members: seq<Member>, m: Member, fold: Text -> Text)
    ensures
      var longer := members + [m];
      TypeMap(longer) == TypeMap(members)[m.name := m.kind] &&
      AliasMap(longer, fold) == AliasMap(members, fold)[fold(m.name) := m.name] &&
      AncestorSet(longer) == AncestorSet(members) + AncestorsOf(m.name) &&
      EntryList(longer) == EntryList(members) + [SemanticEntry(m.name, m.digest)] &&
      Payload(longer) == Payload(members) + if m.kind.Regular? then m.size else 0
  {
    assert (members + [m])[..|members|] == members;
  }
}
