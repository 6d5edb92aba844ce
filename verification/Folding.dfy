/** What folding does to a tree of names: names are compared folded, the directories above them are not. */
module Folding {
  import opened Archive
  import opened Paths
  import opened Values
  import Encoding

  // ---------- trees of folded names ----------

  /** The names form a tree even where case does not matter. */
  predicate FoldedTree(members: seq<Member>, fold: Text -> Text) {
    forall i, j | 0 <= i < |members| && 0 <= j < |members| &&
                  IsAncestor(fold(members[j].name), fold(members[i].name)) ::
      j < i && members[j].kind.Directory?
  }

  /** Member j has the folded name of the directory k components down the path to member i, under a
      different name. */
  predicate Aliases(members: seq<Member>, fold: Text -> Text, i: nat, j: nat, k: nat)
    requires i < |members| && j < |members| && 0 < k < |Split(members[i].name)|
  {
    fold(members[j].name) == fold(Prefix(members[i].name, k)) && members[j].name != Prefix(members[i].name, k)
  }

  /** What the scan does not look at: an alias of a directory above a member is an earlier directory too. */
  predicate AliasesAreDirectories(members: seq<Member>, fold: Text -> Text) {
    forall i, j, k | 0 <= i < |members| && 0 <= j < |members| && 0 < k < |Split(members[i].name)| &&
                     Aliases(members, fold, i, j, k) ::
      j < i && members[j].kind.Directory?
  }

  /** Folding takes one component after another and leaves the slashes between them. */
  ghost predicate ByComponents(fold: Text -> Text) {
    forall name: Text :: FoldsParts(fold, name)
  }

  predicate FoldsParts(fold: Text -> Text, name: Text) {
    |Split(fold(name))| == |Split(name)| &&
    forall k | 0 < k < |Split(name)| :: Prefix(fold(name), k) == fold(Prefix(name, k))
  }

  /** The folded names of a tree form a tree exactly when the aliases that the scan does not look at do. */
  lemma {:induction false} FoldedTreeExactly(members: seq<Member>, fold: Text -> Text)
    requires Tree(members) && ByComponents(fold)
    ensures FoldedTree(members, fold) <==> AliasesAreDirectories(members, fold)
  {
    forall i | 0 <= i < |members|
      ensures FoldsParts(fold, members[i].name)
    {
    }
    if FoldedTree(members, fold) {
      TreeHasGoodAliases(members, fold);
    }
    if AliasesAreDirectories(members, fold) {
      GoodAliasesMakeTree(members, fold);
    }
  }

  lemma {:induction false} TreeHasGoodAliases(members: seq<Member>, fold: Text -> Text)
    requires FoldedTree(members, fold) && forall i | 0 <= i < |members| :: FoldsParts(fold, members[i].name)
    ensures AliasesAreDirectories(members, fold)
  {
    forall i, j, k | 0 <= i < |members| && 0 <= j < |members| && 0 < k < |Split(members[i].name)| &&
                     Aliases(members, fold, i, j, k)
      ensures j < i && members[j].kind.Directory?
    {
      assert fold(members[j].name) == Prefix(fold(members[i].name), k);
    }
  }

  lemma {:induction false} GoodAliasesMakeTree(members: seq<Member>, fold: Text -> Text)
    requires AliasesAreDirectories(members, fold) && ParentsAreDirectories(members)
    requires forall i | 0 <= i < |members| :: FoldsParts(fold, members[i].name)
    ensures FoldedTree(members, fold)
  {
    forall i, j | 0 <= i < |members| && 0 <= j < |members| &&
                  IsAncestor(fold(members[j].name), fold(members[i].name))
      ensures j < i && members[j].kind.Directory?
    {
      var k :| 0 < k < |Split(fold(members[i].name))| && fold(members[j].name) == Prefix(fold(members[i].name), k);
      assert fold(members[j].name) == fold(Prefix(members[i].name, k));
      if members[j].name == Prefix(members[i].name, k) {
        assert IsAncestor(members[j].name, members[i].name);
      } else {
        assert Aliases(members, fold, i, j, k);
      }
    }
  }

  /** So for every accepted archive. */
  lemma {:induction false} ScannedFoldsExactly(
      input: seq<TarMember>, fold: Text -> Text, hash: Encoding.Bytes -> Digest, members: seq<Member>)
    requires Scanned(input, fold, hash) == Some(members) && ByComponents(fold)
    ensures FoldedTree(members, fold) <==> AliasesAreDirectories(members, fold)
  {
    ScannedExactly(input, fold, hash, members);
    FoldedTreeExactly(members, fold);
  }

  // ---------- lower case folds by components ----------

  function LowerCase(): Text -> Text {
    (value: Text) => seq(|value|, i requires 0 <= i < |value| => Lower(value[i]))
  }

  function LowerParts(parts: seq<Text>): seq<Text> {
    seq(|parts|, i requires 0 <= i < |parts| => LowerCase()(parts[i]))
  }

  lemma {:induction false} LowerOfByte(b: Byte, value: Text)
    ensures LowerCase()([b] + value) == [Lower(b)] + LowerCase()(value) && (Lower(b) == SLASH <==> b == SLASH)
  {
  }

  lemma {:induction false} LowerOfSlash(rest: seq<Text>)
    ensures LowerParts([[]] + rest) == [[]] + LowerParts(rest)
  {
    assert LowerCase()([]) == [];
  }

  lemma {:induction false} LowerOfLonger(b: Byte, rest: seq<Text>)
    requires rest != []
    ensures LowerParts([[b] + rest[0]] + rest[1..]) == [[Lower(b)] + LowerParts(rest)[0]] + LowerParts(rest)[1..]
  {
    LowerOfByte(b, rest[0]);
  }

  lemma {:induction false} SplitOfByte(b: Byte, value: Text)
    ensures Split([b] + value) ==
            if b == SLASH then [[]] + Split(value) else [[b] + Split(value)[0]] + Split(value)[1..]
  {
    assert ([b] + value)[1..] == value;
  }

  lemma {:induction false} SplitOfLower(name: Text)
    ensures Split(LowerCase()(name)) == LowerParts(Split(name))
  {
    if name != [] {
      var rest := name[1..];
      assert name == [name[0]] + rest;
      SplitOfLower(rest);
      LowerOfByte(name[0], rest);
      SplitOfByte(name[0], rest);
      SplitOfByte(Lower(name[0]), LowerCase()(rest));
      if name[0] == SLASH {
        LowerOfSlash(Split(rest));
      } else {
        LowerOfLonger(name[0], Split(rest));
      }
    } else {
      assert LowerCase()(name) == [];
      SplitOfText([]);
    }
  }

  lemma {:induction false} LowerOfJoin(parts: seq<Text>)
    ensures LowerCase()(Join(parts)) == Join(LowerParts(parts))
  {
    if |parts| > 1 {
      var rest := Join(parts[1..]);
      LowerOfJoin(parts[1..]);
      assert LowerParts(parts)[1..] == LowerParts(parts[1..]);
      assert LowerCase()(parts[0] + [SLASH] + rest) == LowerCase()(parts[0]) + [SLASH] + LowerCase()(rest);
    } else if parts == [] {
      assert LowerCase()([]) == [];
    }
  }

  lemma {:induction false} LowerCaseIsByComponents()
    ensures ByComponents(LowerCase())
  {
    forall name: Text
      ensures FoldsParts(LowerCase(), name)
    {
      SplitOfLower(name);
      forall k | 0 < k < |Split(name)|
        ensures Prefix(LowerCase()(name), k) == LowerCase()(Prefix(name, k))
      {
        LowerOfJoin(Split(name)[..k]);
        assert LowerParts(Split(name))[..k] == LowerParts(Split(name)[..k]);
      }
    }
  }

  // ---------- an accepted archive whose folded names nest ----------

  /** The header of a plain empty file. */
  function PlainFile(name: Text): Header {
    Header(name, 48, [], 0, 420, 0, 0, 0, 0, [], [], map[], 0, 0)
  }

  function PlainMember(name: Text, hash: Encoding.Bytes -> Digest): Member {
    Member(name, Regular, [], 0, hash(EntryPreimage(Regular, PlainFile(name), [], ZERO_DIGEST)))
  }

  lemma {:induction false} PlainIsDescribed(
      types: map<Text, EntryKind>, name: Text, hash: Encoding.Bytes -> Digest)
    requires ValidPathText(name) && AllOrdinary(Split(name))
    ensures Described(types, PlainFile(name), Some(ZERO_DIGEST), hash) == Some(PlainMember(name, hash))
  {
    CanonicalIffOrdinary(name);
  }

  /** "A", and "a/b". */
  lemma {:induction false} TwoNames()
    ensures Split([65]) == [[65]] && Split([97, SLASH, 98]) == [[97], [98]]
    ensures Prefix([97, SLASH, 98], 1) == [97]
  {
    SplitOfText([65]);
    SplitOfText([98]);
    SplitOfPair([97], [98]);
    assert [97] + [SLASH] + [98] == [97, SLASH, 98];
    assert Split([97, SLASH, 98])[..1] == [[97]];
  }

  lemma {:induction false} TwoTexts()
    ensures ValidPathText([65]) && ValidPathText([97, SLASH, 98])
  {
    PlainText([]);
    PlainText([SLASH, 98]);
    assert [65] == [65] + [] && [97, SLASH, 98] == [97] + [SLASH, 98];
  }

  lemma {:induction false} TwoAreOrdinary()
    ensures AllOrdinary(Split([65])) && AllOrdinary(Split([97, SLASH, 98]))
  {
    TwoNames();
  }

  lemma {:induction false} PlainText(value: Text)
    requires |value| <= 2 && forall i | 0 <= i < |value| :: 0 < value[i] < 128
    ensures ValidUTF8(value) && forall b: Byte | 0 < b < 128 :: ValidUTF8([b] + value)
  {
    if value != [] {
      PlainText(value[1..]);
      assert value == [value[0]] + value[1..];
    }
    forall b: Byte | 0 < b < 128
      ensures ValidUTF8([b] + value)
    {
      assert ([b] + value)[1..] == value && RuneWidth([b] + value) == 1;
    }
  }

  lemma {:induction false} TwoFilesFit(fold: Text -> Text, x: Member, y: Member)
    requires x.kind.Regular? && y.kind.Regular? && x.size == 0 && y.size == 0 && fold(x.name) != fold(y.name)
    requires |Split(x.name)| == 1 && |Split(y.name)| == 2 && x.name != Prefix(y.name, 1) && y.name != Prefix(y.name, 1)
    ensures WellShaped([x, y], fold)
  {
    var members := [x, y];
    forall i, j | 0 <= i < 2 && 0 <= j < 2
      ensures !IsAncestor(members[j].name, members[i].name)
    {
      if IsAncestor(members[j].name, members[i].name) {
        OneAbove(members[j].name, members[i].name);
      }
    }
    assert members[..1] == [x] && members[..0] == [] && [x][..0] == [];
    assert Payload([x]) == 0 && Payload(members) == 0;
  }

  lemma {:induction false} OneAbove(above: Text, name: Text)
    requires |Split(name)| <= 2 && IsAncestor(above, name)
    ensures |Split(name)| == 2 && above == Prefix(name, 1)
  {
    var k :| 0 < k < |Split(name)| && above == Prefix(name, k);
    assert k == 1;
  }

  function PlainFiles(x: Text, y: Text): seq<TarMember> {
    [TarMember(PlainFile(x), Some(ZERO_DIGEST)), TarMember(PlainFile(y), Some(ZERO_DIGEST))]
  }

  lemma {:induction false} PlainAreDescribed(x: Text, y: Text, hash: Encoding.Bytes -> Digest)
    requires ValidPathText(x) && AllOrdinary(Split(x)) && ValidPathText(y) && AllOrdinary(Split(y))
    ensures Describes([PlainMember(x, hash), PlainMember(y, hash)], PlainFiles(x, y), hash)
  {
    var members, input := [PlainMember(x, hash), PlainMember(y, hash)], PlainFiles(x, y);
    PlainIsDescribed(TypeMap(members[..0]), x, hash);
    PlainIsDescribed(TypeMap(members[..1]), y, hash);
    assert DescribesAt(members, input, hash, 0) && DescribesAt(members, input, hash, 1);
  }

  /** A plain file "A", and a plain file "a/b". */
  function TwoFiles(): seq<TarMember> {
    PlainFiles([65], [97, SLASH, 98])
  }

  lemma {:induction false} TwoFolds()
    ensures LowerCase()([65]) == [97] && LowerCase()([97, SLASH, 98]) == [97, SLASH, 98]
    ensures IsAncestor(LowerCase()([65]), LowerCase()([97, SLASH, 98]))
  {
    TwoNames();
  }

  lemma {:induction false} Nests(members: seq<Member>, fold: Text -> Text, i: nat, j: nat)
    requires i < |members| && j < |members| && IsAncestor(fold(members[j].name), fold(members[i].name))
    requires !members[j].kind.Directory?
    ensures !FoldedTree(members, fold)
  {
  }

  /** A file "A" and a file "a/b" are accepted together, and their folded names are no tree. */
  lemma {:induction false} FoldedNamesMayNest(hash: Encoding.Bytes -> Digest) returns (members: seq<Member>)
    ensures Scanned(TwoFiles(), LowerCase(), hash) == Some(members) && Tree(members)
    ensures !FoldedTree(members, LowerCase())
  {
    members := [PlainMember([65], hash), PlainMember([97, SLASH, 98], hash)];
    TwoNames();
    TwoFolds();
    TwoTexts();
    TwoAreOrdinary();
    PlainAreDescribed([65], [97, SLASH, 98], hash);
    TwoFilesFit(LowerCase(), members[0], members[1]);
    ScannedExactly(TwoFiles(), LowerCase(), hash, members);
    Nests(members, LowerCase(), 1, 0);
  }
}
