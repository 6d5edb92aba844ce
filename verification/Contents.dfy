/** What equal content means for the members of two archives themselves. */
module Contents {
  import opened Archive
  import opened Encoding
  import opened Paths
  import opened Values
  import Analysis
  import Sorting

  datatype Metadata = Metadata(
    mode: int,
    uid: int,
    gid: int,
    seconds: int,
    nanoseconds: int,
    uname: Text,
    gname: Text,
    pax: map<Text, Text>)

  /** What restoring a member depends on; only a regular file has a payload. */
  datatype Entry = Entry(name: Text, kind: EntryKind, metadata: Metadata, link: Text, payload: Option<Digest>)

  function KindOf(typeflag: Byte): EntryKind {
    if typeflag == 53 then Directory
    else if typeflag == 50 then Symlink
    else if typeflag == 49 then Hardlink
    else Regular
  }

  function MetadataOf(h: Header): Metadata {
    Metadata(h.mode, h.uid, h.gid, h.seconds, h.nanoseconds, h.uname, h.gname, h.pax)
  }

  function EntryOf(t: TarMember): Entry {
    var kind := KindOf(t.header.typeflag);
    Entry(if kind.Directory? then TrimSlash(t.header.name) else t.header.name, kind, MetadataOf(t.header),
          t.header.linkname, if kind.Regular? then t.payload else None)
  }

  function TotalSize(input: seq<TarMember>): int {
    if input == [] then 0
    else
      var last := input[|input| - 1].header;
      TotalSize(input[..|input| - 1]) + if KindOf(last.typeflag).Regular? then last.size else 0
  }

  /** The string hashed for a member. */
  function EntryString(t: TarMember): Bytes {
    var payload := EntryOf(t).payload;
    EntryPreimage(KindOf(t.header.typeflag), t.header, t.header.linkname,
                  if payload.Some? then payload.value else ZERO_DIGEST)
  }

  predicate Whole(t: TarMember) {
    KindOf(t.header.typeflag).Regular? ==> t.payload.Some?
  }

  predicate Empty(t: TarMember) {
    !KindOf(t.header.typeflag).Regular? ==> t.header.size == 0
  }

  // ---------- a member and its entry ----------

  lemma {:induction false} IdentityStands(types: map<Text, EntryKind>, name: Text, header: Header)
    requires EntryIdentity(types, name, header).Some?
    ensures EntryIdentity(types, name, header) == Some((KindOf(header.typeflag), header.linkname))
  {
  }

  lemma {:induction false} NameStands(header: Header)
    requires AcceptableName(header).Some?
    ensures AcceptableName(header).value ==
            if header.typeflag == 53 then TrimSlash(header.name) else header.name
  {
  }

  /** What the scan records of a member, read off the member. */
  lemma {:induction false} MemberStands(types: map<Text, EntryKind>, t: TarMember, hash: Bytes -> Digest)
    requires Described(types, t.header, t.payload, hash).Some?
    ensures
      var m := Described(types, t.header, t.payload, hash).value;
      Whole(t) && m == Member(EntryOf(t).name, EntryOf(t).kind, t.header.linkname, t.header.size, hash(EntryString(t)))
  {
    NameStands(t.header);
    IdentityStands(types, AcceptableName(t.header).value, t.header);
  }

  function Semantic(hash: Bytes -> Digest): TarMember -> SemanticEntry {
    (t: TarMember) => SemanticEntry(EntryOf(t).name, hash(EntryString(t)))
  }

  /** The member is what its input stands for. */
  predicate StandsFor(m: Member, t: TarMember, hash: Bytes -> Digest) {
    Whole(t) && m.kind == KindOf(t.header.typeflag) && m.size == t.header.size &&
    SemanticEntry(m.name, m.digest) == Semantic(hash)(t)
  }

  lemma {:induction false} SizesAgree(members: seq<Member>, input: seq<TarMember>, hash: Bytes -> Digest)
    requires |members| == |input| && forall i | 0 <= i < |members| :: StandsFor(members[i], input[i], hash)
    ensures Payload(members) == TotalSize(input)
  {
    if members != [] {
      SizesAgree(members[..|members| - 1], input[..|input| - 1], hash);
      assert StandsFor(members[|members| - 1], input[|input| - 1], hash);
    }
  }

  lemma {:induction false} InputStands(members: seq<Member>, input: seq<TarMember>, hash: Bytes -> Digest)
    requires Describes(members, input, hash)
    ensures EntryList(members) == Sorting.Mapped(input, Semantic(hash)) && Payload(members) == TotalSize(input)
    ensures forall t | t in input :: Whole(t)
  {
    forall i | 0 <= i < |members|
      ensures StandsFor(members[i], input[i], hash)
    {
      assert DescribesAt(members, input, hash, i);
      MemberStands(TypeMap(members[..i]), input[i], hash);
    }
    SizesAgree(members, input, hash);
  }

  /** Two members stand for the same exactly when their names and the strings hashed for them agree. */
  lemma {:induction false} StringStands(t: TarMember, u: TarMember)
    requires Whole(t) && Whole(u)
    ensures EntryOf(t) == EntryOf(u) <==> EntryOf(t).name == EntryOf(u).name && EntryString(t) == EntryString(u)
  {
    var x, y := EntryOf(t).payload, EntryOf(u).payload;
    EntryPreimageIdentifies(
      KindOf(t.header.typeflag), t.header, t.header.linkname, if x.Some? then x.value else ZERO_DIGEST,
      KindOf(u.header.typeflag), u.header, u.header.linkname, if y.Some? then y.value else ZERO_DIGEST);
  }

  // ---------- what is accepted, read off the members ----------

  predicate OrdinaryPath(value: Text) {
    ValidPathText(value) && AllOrdinary(Split(value))
  }

  /** Files and directories have no link, a symbolic link stays inside, a hard link is a path. */
  predicate AcceptableLink(t: TarMember) {
    match KindOf(t.header.typeflag)
    case Regular => t.header.linkname == []
    case Directory => t.header.linkname == []
    case Symlink =>
      ValidPathText(t.header.linkname) && StaysInside(|Split(EntryOf(t).name)| - 1, Split(t.header.linkname))
    case Hardlink => OrdinaryPath(t.header.linkname)
  }

  /** What a member has to be like by itself. */
  predicate Acceptable(t: TarMember) {
    t.header.typeflag in [0, 48, 49, 50, 53] && OrdinaryPath(EntryOf(t).name) && ValidHeaderMetadata(t.header) &&
    AcceptableLink(t) && Whole(t) && Empty(t)
  }

  /** What lies above a member is an earlier directory. */
  predicate ParentsCome(input: seq<TarMember>) {
    forall i, j | 0 <= i < |input| && 0 <= j < |input| && IsAncestor(EntryOf(input[j]).name, EntryOf(input[i]).name) ::
      j < i && EntryOf(input[j]).kind.Directory?
  }

  predicate NamesFoldApart(input: seq<TarMember>, fold: Text -> Text) {
    forall i, j | 0 <= i < j < |input| :: fold(EntryOf(input[i]).name) != fold(EntryOf(input[j]).name)
  }

  /** What the members have to be like beside each other. */
  predicate Arranged(input: seq<TarMember>, fold: Text -> Text) {
    ParentsCome(input) && NamesFoldApart(input, fold) && forall i | 0 <= i < |input| :: LinksBack(input, i)
  }

  predicate LinksBack(input: seq<TarMember>, i: nat)
    requires i < |input|
  {
    EntryOf(input[i]).kind.Hardlink? ==>
      exists j | 0 <= j < i :: EntryOf(input[j]).name == input[i].header.linkname && EntryOf(input[j]).kind.Regular?
  }

  predicate Bounded(input: seq<TarMember>) {
    |input| <= MAXIMUM_ENTRIES && TotalSize(input) <= MAX_INT64 &&
    forall i | 0 <= i < |input| && EntryOf(input[i]).kind.Regular? :: input[i].header.size >= 0
  }

  function MemberOf(hash: Bytes -> Digest): TarMember -> Member {
    (t: TarMember) =>
      Member(EntryOf(t).name, EntryOf(t).kind, t.header.linkname, t.header.size, hash(EntryString(t)))
  }

  lemma {:induction false} PathExactly(value: Text)
    ensures ValidPathText(value) ==> (CanonicalMember(value) <==> AllOrdinary(Split(value)))
  {
    if ValidPathText(value) {
      CanonicalIffOrdinary(value);
    }
  }

  lemma {:induction false} NameExactly(header: Header)
    ensures
      var name := if header.typeflag == 53 then TrimSlash(header.name) else header.name;
      AcceptableName(header) == if OrdinaryPath(name) && ValidHeaderMetadata(header) then Some(name) else None
  {
    PathExactly(if header.typeflag == 53 then TrimSlash(header.name) else header.name);
  }

  /** Files and directories have an identity when they have no link. */
  lemma {:induction false} PlainExactly(types: map<Text, EntryKind>, t: TarMember)
    requires KindOf(t.header.typeflag).Regular? || KindOf(t.header.typeflag).Directory?
    ensures EntryIdentity(types, EntryOf(t).name, t.header).Some? <==>
            t.header.typeflag in [0, 48, 49, 50, 53] && AcceptableLink(t)
  {
  }

  lemma {:induction false} SymlinkExactly(types: map<Text, EntryKind>, t: TarMember)
    requires KindOf(t.header.typeflag).Symlink? && MemberName(EntryOf(t).name)
    ensures EntryIdentity(types, EntryOf(t).name, t.header).Some? <==> AcceptableLink(t)
  {
    SymlinkStaysInside(EntryOf(t).name, t.header.linkname);
  }

  lemma {:induction false} HardlinkExactly(types: map<Text, EntryKind>, t: TarMember)
    requires KindOf(t.header.typeflag).Hardlink?
    ensures EntryIdentity(types, EntryOf(t).name, t.header).Some? <==> AcceptableLink(t) && Leads(types, t)
  {
    PathExactly(t.header.linkname);
  }

  lemma {:induction false} IdentityExactly(types: map<Text, EntryKind>, t: TarMember)
    requires MemberName(EntryOf(t).name)
    ensures EntryIdentity(types, EntryOf(t).name, t.header).Some? <==>
            t.header.typeflag in [0, 48, 49, 50, 53] && AcceptableLink(t) && Leads(types, t)
  {
    match KindOf(t.header.typeflag)
    case Symlink => SymlinkExactly(types, t);
    case Hardlink => HardlinkExactly(types, t);
    case _ => PlainExactly(types, t);
  }

  /** A hard link leads to a file that is already there. */
  predicate Leads(types: map<Text, EntryKind>, t: TarMember) {
    KindOf(t.header.typeflag).Hardlink? ==> t.header.linkname in types && types[t.header.linkname].Regular?
  }

  lemma {:induction false} DescribedNamed(types: map<Text, EntryKind>, t: TarMember, hash: Bytes -> Digest)
    requires EntryIdentity(types, EntryOf(t).name, t.header).Some? ==>
      EntryIdentity(types, EntryOf(t).name, t.header).value == (KindOf(t.header.typeflag), t.header.linkname)
    ensures DescribedAs(types, EntryOf(t).name, t.header, t.payload, hash) ==
            if EntryIdentity(types, EntryOf(t).name, t.header).Some? && Whole(t) && Empty(t)
            then Some(MemberOf(hash)(t)) else None
  {
    var kind := KindOf(t.header.typeflag);
    if Whole(t) {
      assert EntryString(t) ==
             EntryPreimage(kind, t.header, t.header.linkname, if kind.Regular? then t.payload.value else ZERO_DIGEST);
    }
  }

  lemma {:induction false} DescribedExactly(types: map<Text, EntryKind>, t: TarMember, hash: Bytes -> Digest)
    ensures Described(types, t.header, t.payload, hash) ==
            if Acceptable(t) && Leads(types, t) then Some(MemberOf(hash)(t)) else None
  {
    NameExactly(t.header);
    if AcceptableName(t.header).Some? {
      IdentityExactly(types, t);
      if EntryIdentity(types, EntryOf(t).name, t.header).Some? {
        IdentityStands(types, EntryOf(t).name, t.header);
      }
      DescribedNamed(types, t, hash);
    }
  }

  lemma {:induction false} DescribesExactly(members: seq<Member>, input: seq<TarMember>, hash: Bytes -> Digest)
    ensures Describes(members, input, hash) <==>
            members == Sorting.Mapped(input, MemberOf(hash)) &&
            forall i | 0 <= i < |input| :: Acceptable(input[i]) && Leads(TypeMap(members[..i]), input[i])
  {
    if |members| == |input| {
      forall i | 0 <= i < |input|
        ensures DescribesAt(members, input, hash, i) <==>
                Acceptable(input[i]) && Leads(TypeMap(members[..i]), input[i]) && members[i] == MemberOf(hash)(input[i])
      {
        DescribedExactly(TypeMap(members[..i]), input[i], hash);
      }
    }
  }

  lemma {:induction false} LeadsBack(input: seq<TarMember>, members: seq<Member>, i: nat, hash: Bytes -> Digest)
    requires members == Sorting.Mapped(input, MemberOf(hash)) && NamesDiffer(members) && i < |input|
    ensures Leads(TypeMap(members[..i]), input[i]) <==> LinksBack(input, i)
  {
    var before, link := members[..i], input[i].header.linkname;
    TypeMapHolds(before, link);
    forall j | 0 <= j < i
      ensures before[j].name in TypeMap(before) && TypeMap(before)[before[j].name] == before[j].kind
    {
      TypeOfOne(before, j);
    }
    assert forall j | 0 <= j < i ::
      before[j].name == EntryOf(input[j]).name && before[j].kind == EntryOf(input[j]).kind;
  }

  lemma {:induction false} MemberOfStands(t: TarMember, hash: Bytes -> Digest)
    requires Whole(t)
    ensures StandsFor(MemberOf(hash)(t), t, hash)
  {
    assert MemberOf(hash)(t).digest == hash(EntryString(t)) && MemberOf(hash)(t).name == EntryOf(t).name;
    assert Semantic(hash)(t) == SemanticEntry(EntryOf(t).name, hash(EntryString(t)));
  }

  lemma {:induction false} TreeExactly(
      input: seq<TarMember>, members: seq<Member>, fold: Text -> Text, hash: Bytes -> Digest)
    requires members == Sorting.Mapped(input, MemberOf(hash))
    ensures ParentsAreDirectories(members) <==> ParentsCome(input)
    ensures FoldedApart(members, fold) <==> NamesFoldApart(input, fold)
  {
    assert |members| == |input| && forall i | 0 <= i < |input| ::
      members[i].name == EntryOf(input[i]).name && members[i].kind == EntryOf(input[i]).kind;
  }

  lemma {:induction false} BoundedExactly(input: seq<TarMember>, members: seq<Member>, hash: Bytes -> Digest)
    requires members == Sorting.Mapped(input, MemberOf(hash)) && forall t | t in input :: Whole(t)
    ensures Sized(members) <==> Bounded(input)
  {
    forall i | 0 <= i < |members|
      ensures StandsFor(members[i], input[i], hash)
    {
      assert input[i] in input;
      MemberOfStands(input[i], hash);
    }
    SizesAgree(members, input, hash);
  }

  lemma {:induction false} ShapedExactly(
      input: seq<TarMember>, members: seq<Member>, fold: Text -> Text, hash: Bytes -> Digest)
    requires members == Sorting.Mapped(input, MemberOf(hash)) && forall t | t in input :: Whole(t)
    ensures (forall i | 0 <= i < |input| :: LinksBack(input, i)) ==>
      (WellShaped(members, fold) <==> Arranged(input, fold) && Bounded(input))
  {
    TreeExactly(input, members, fold, hash);
    BoundedExactly(input, members, hash);
  }

  /** A list of members is accepted exactly when each is acceptable by itself and they are arranged as a
      tree within the limits: all said of headers and bodies. */
  lemma {:induction false} AcceptedExactly(input: seq<TarMember>, fold: Text -> Text, hash: Bytes -> Digest)
    ensures Scanned(input, fold, hash).Some? <==>
            (forall t | t in input :: Acceptable(t)) && Arranged(input, fold) && Bounded(input)
    ensures Scanned(input, fold, hash).Some? ==>
      Scanned(input, fold, hash).value == Sorting.Mapped(input, MemberOf(hash))
  {
    var members := Sorting.Mapped(input, MemberOf(hash));
    if Scanned(input, fold, hash).Some? {
      ScannedExactly(input, fold, hash, Scanned(input, fold, hash).value);
      DescribesExactly(Scanned(input, fold, hash).value, input, hash);
      AcceptedIsArranged(input, members, fold, hash);
    }
    if (forall t | t in input :: Acceptable(t)) && Arranged(input, fold) && Bounded(input) {
      ArrangedIsDescribed(input, members, fold, hash);
      ShapedExactly(input, members, fold, hash);
      ScannedExactly(input, fold, hash, members);
    }
  }

  lemma {:induction false} AcceptedIsArranged(
      input: seq<TarMember>, members: seq<Member>, fold: Text -> Text, hash: Bytes -> Digest)
    requires members == Sorting.Mapped(input, MemberOf(hash)) && WellShaped(members, fold) && NamesDiffer(members)
    requires forall i | 0 <= i < |input| :: Acceptable(input[i]) && Leads(TypeMap(members[..i]), input[i])
    ensures (forall t | t in input :: Acceptable(t)) && Arranged(input, fold) && Bounded(input)
  {
    forall i | 0 <= i < |input|
      ensures LinksBack(input, i)
    {
      LeadsBack(input, members, i, hash);
    }
    ShapedExactly(input, members, fold, hash);
  }

  lemma {:induction false} ArrangedIsDescribed(
      input: seq<TarMember>, members: seq<Member>, fold: Text -> Text, hash: Bytes -> Digest)
    requires members == Sorting.Mapped(input, MemberOf(hash))
    requires (forall t | t in input :: Acceptable(t)) && Arranged(input, fold)
    ensures Describes(members, input, hash)
  {
    assert forall i, j | 0 <= i < j < |members| :: members[i].name != members[j].name by {
      assert forall i, j | 0 <= i < j < |input| :: fold(EntryOf(input[i]).name) != fold(EntryOf(input[j]).name);
    }
    forall i | 0 <= i < |input|
      ensures Acceptable(input[i]) && Leads(TypeMap(members[..i]), input[i])
    {
      assert input[i] in input;
      LeadsBack(input, members, i, hash);
    }
    DescribesExactly(members, input, hash);
  }

  // ---------- two archives ----------

  /** The same entries in whatever order, and as many bytes in regular files. */
  predicate SameArchive(left: seq<TarMember>, right: seq<TarMember>) {
    multiset(Sorting.Mapped(left, EntryOf)) == multiset(Sorting.Mapped(right, EntryOf)) &&
    TotalSize(left) == TotalSize(right)
  }

  predicate Collision(x: Bytes, y: Bytes, hash: Bytes -> Digest) {
    x != y && hash(x) == hash(y)
  }

  /** Two of the strings hashed for the members of the archives collide. */
  predicate EntriesCollide(left: seq<TarMember>, right: seq<TarMember>, hash: Bytes -> Digest) {
    exists t, u | t in left && u in right :: Collision(EntryString(t), EntryString(u), hash)
  }

  lemma {:induction false} EntriesFollow(left: seq<TarMember>, right: seq<TarMember>, hash: Bytes -> Digest)
    requires forall t | t in left + right :: Whole(t)
    ensures
      var entries := multiset(Sorting.Mapped(left, EntryOf)) == multiset(Sorting.Mapped(right, EntryOf));
      var semantic :=
        multiset(Sorting.Mapped(left, Semantic(hash))) == multiset(Sorting.Mapped(right, Semantic(hash)));
      (entries ==> semantic) && (semantic ==> entries || EntriesCollide(left, right, hash))
  {
    forall t, u | t in left && u in right
      ensures EntryOf(t) == EntryOf(u) ==> Semantic(hash)(t) == Semantic(hash)(u)
      ensures Semantic(hash)(t) == Semantic(hash)(u) ==> EntryOf(t) == EntryOf(u) || EntriesCollide(left, right, hash)
    {
      assert t in left + right && u in left + right;
      StringStands(t, u);
    }
    if multiset(Sorting.Mapped(left, EntryOf)) == multiset(Sorting.Mapped(right, EntryOf)) {
      Sorting.MappedFollows(left, right, EntryOf, Semantic(hash));
    }
    if multiset(Sorting.Mapped(left, Semantic(hash))) == multiset(Sorting.Mapped(right, Semantic(hash))) &&
       !EntriesCollide(left, right, hash) {
      Sorting.MappedFollows(left, right, Semantic(hash), EntryOf);
    }
  }

  /** Two accepted archives with valid inventories have the same content exactly when they hold the same
      entries in whatever order, with as many bytes in regular files, unless two of the very strings
      hashed for them collide. */
  lemma {:induction false} SameContentIsSameArchive(
      left: seq<TarMember>, right: seq<TarMember>, x: Bytes, y: Bytes, fold: Text -> Text, hash: Bytes -> Digest)
    requires Scanned(left, fold, hash).Some? && Scanned(right, fold, hash).Some?
    requires Analysis.ValidInventory(Analysis.InventoryOf(x, Scanned(left, fold, hash).value), hash)
    requires Analysis.ValidInventory(Analysis.InventoryOf(y, Scanned(right, fold, hash).value), hash)
    ensures
      var one := Analysis.InventoryOf(x, Scanned(left, fold, hash).value);
      var other := Analysis.InventoryOf(y, Scanned(right, fold, hash).value);
      (SameArchive(left, right) ==> Analysis.SameContent(one, other, hash)) &&
      (Analysis.SameContent(one, other, hash) ==>
       SameArchive(left, right) || EntriesCollide(left, right, hash) || Collision(one.content, other.content, hash))
  {
    var members, others := Scanned(left, fold, hash).value, Scanned(right, fold, hash).value;
    ScannedExactly(left, fold, hash, members);
    ScannedExactly(right, fold, hash, others);
    InputStands(members, left, hash);
    InputStands(others, right, hash);
    EntriesFollow(left, right, hash);
    Analysis.SameContentIsSameTree(left, right, x, y, fold, hash);
    assert |multiset(EntryList(members))| == |members| && |multiset(EntryList(others))| == |others|;
  }
}
