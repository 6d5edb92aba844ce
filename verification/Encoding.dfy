/** The byte codes that digests are computed over, and why each can be read back in only one way. */
module Encoding {
  import opened Values

  type Bytes = seq<Byte>

  /** No code word is a proper prefix of another, and each stands for one value: whatever follows,
      the value and the rest can be told apart. */
  ghost predicate Unique<T(!new)>(code: T -> Bytes) {
    forall x: T, y: T, r: Bytes, s: Bytes :: code(x) + r == code(y) + s ==> x == y && r == s
  }

  // ---------- numbers ----------

  /** Go's unsigned varint: seven bits a byte, low bits first, the last byte below 128. */
  function Uvarint(n: nat): (code: Bytes)
    ensures |code| > 0
  {
    if n < 128 then [n] else [128 + n % 128] + Uvarint(n / 128)
  }

  lemma {:induction false} UvarintUnique(n: nat, m: nat, r: Bytes, s: Bytes)
    requires Uvarint(n) + r == Uvarint(m) + s
    ensures n == m && r == s
  {
    var left, right := Uvarint(n), Uvarint(m);
    assert left[0] == (left + r)[0] == (right + s)[0] == right[0];
    if n < 128 {
      assert m < 128;
      assert r == (left + r)[1..] == (right + s)[1..] == s;
    } else {
      assert m >= 128;
      assert left[1..] + r == (left + r)[1..] == (right + s)[1..] == right[1..] + s;
      UvarintUnique(n / 128, m / 128, r, s);
    }
  }

  lemma {:induction false} UvarintIsUnique()
    ensures Unique(Uvarint)
  {
    forall x: nat, y: nat, r: Bytes, s: Bytes | Uvarint(x) + r == Uvarint(y) + s
      ensures x == y && r == s
    {
      UvarintUnique(x, y, r, s);
    }
  }

  /** Go's signed varint: zigzag, then unsigned. */
  function Varint(n: int): Bytes {
    Uvarint(if n >= 0 then 2 * n else -2 * n - 1)
  }

  lemma {:induction false} VarintIsUnique()
    ensures Unique(Varint)
  {
    forall x: int, y: int, r: Bytes, s: Bytes | Varint(x) + r == Varint(y) + s
      ensures x == y && r == s
    {
      UvarintUnique(if x >= 0 then 2 * x else -2 * x - 1, if y >= 0 then 2 * y else -2 * y - 1, r, s);
    }
  }

  // ---------- bytes, booleans, digests ----------

  function Octet(b: Byte): Bytes {
    [b]
  }

  function Flag(value: bool): Bytes {
    [if value then 1 else 0]
  }

  /** Absent, false and true are three different bytes. */
  function OptionalFlag(value: Option<bool>): Bytes {
    [if value.None? then 0 else if value.value then 2 else 1]
  }

  lemma {:induction false} OneByteCodesAreUnique()
    ensures Unique(Octet) && Unique(Flag) && Unique(OptionalFlag)
  {
    assert forall x: Byte, r: Bytes :: (Octet(x) + r)[0] == x && (Octet(x) + r)[1..] == r;
    assert forall x: bool, r: Bytes :: (Flag(x) + r)[0] == (if x then 1 else 0) && (Flag(x) + r)[1..] == r;
    forall x: Option<bool>, y: Option<bool>, r: Bytes, s: Bytes | OptionalFlag(x) + r == OptionalFlag(y) + s
      ensures x == y && r == s
    {
      assert (OptionalFlag(x) + r)[0] == (OptionalFlag(y) + s)[0];
      assert r == (OptionalFlag(x) + r)[1..] == (OptionalFlag(y) + s)[1..] == s;
    }
  }

  /** The last `width` big-endian bytes of a number. */
  function BigEndian(n: nat, width: nat): (code: Bytes)
    ensures |code| == width
  {
    if width == 0 then [] else BigEndian(n / 256, width - 1) + [n % 256]
  }

  function Power(exponent: nat): (value: nat)
    ensures value > 0
  {
    if exponent == 0 then 1 else 256 * Power(exponent - 1)
  }

  lemma {:induction false} PowerAdds(a: nat, b: nat)
    ensures Power(a + b) == Power(a) * Power(b)
  {
    if a > 0 {
      PowerAdds(a - 1, b);
    }
  }

  lemma {:induction false} BigEndianUnique(n: nat, m: nat, width: nat)
    requires n < Power(width) && m < Power(width) && BigEndian(n, width) == BigEndian(m, width)
    ensures n == m
  {
    if width > 0 {
      var left, right := BigEndian(n / 256, width - 1), BigEndian(m / 256, width - 1);
      assert left == BigEndian(n, width)[..width - 1] == BigEndian(m, width)[..width - 1] == right;
      assert n % 256 == BigEndian(n, width)[width - 1] == BigEndian(m, width)[width - 1] == m % 256;
      BigEndianUnique(n / 256, m / 256, width - 1);
    }
  }

  /** A digest as its 32 bytes. */
  function DigestBytes(d: Digest): (code: Bytes)
    ensures |code| == 32
  {
    BigEndian(d, 32)
  }

  lemma {:induction false} DigestsFit(d: Digest)
    ensures d < Power(32)
  {
    assert Power(4) == 0x1_0000_0000;
    PowerAdds(4, 4);
    PowerAdds(8, 8);
    PowerAdds(16, 16);
  }

  lemma {:induction false} DigestIsUnique()
    ensures Unique(DigestBytes)
  {
    forall x: Digest, y: Digest, r: Bytes, s: Bytes | DigestBytes(x) + r == DigestBytes(y) + s
      ensures x == y && r == s
    {
      assert DigestBytes(x) == (DigestBytes(x) + r)[..32] == (DigestBytes(y) + s)[..32] == DigestBytes(y);
      assert r == (DigestBytes(x) + r)[32..] == (DigestBytes(y) + s)[32..] == s;
      DigestsFit(x);
      DigestsFit(y);
      BigEndianUnique(x, y, 32);
    }
  }

  // ---------- strings, options, lists ----------

  /** A string behind its length. */
  function TextBytes(value: Text): Bytes {
    Uvarint(|value|) + value
  }

  lemma {:induction false} TextUnique(x: Text, y: Text, r: Bytes, s: Bytes)
    requires TextBytes(x) + r == TextBytes(y) + s
    ensures x == y && r == s
  {
    assert TextBytes(x) + r == Uvarint(|x|) + (x + r);
    assert TextBytes(y) + s == Uvarint(|y|) + (y + s);
    UvarintUnique(|x|, |y|, x + r, y + s);
    SplitsAt(x, y, r, s);
  }

  lemma {:induction false} SplitsAt(x: Bytes, y: Bytes, r: Bytes, s: Bytes)
    requires |x| == |y| && x + r == y + s
    ensures x == y && r == s
  {
    assert x == (x + r)[..|x|] && y == (y + s)[..|x|];
    assert r == (x + r)[|x|..] && s == (y + s)[|x|..];
  }

  lemma {:induction false} TextIsUnique()
    ensures Unique(TextBytes)
  {
    forall x: Text, y: Text, r: Bytes, s: Bytes | TextBytes(x) + r == TextBytes(y) + s
      ensures x == y && r == s
    {
      TextUnique(x, y, r, s);
    }
  }

  /** A tag byte, then the value if there is one. */
  function Tagged<T>(value: Option<T>, code: T -> Bytes): Bytes {
    if value.None? then [0] else [1] + code(value.value)
  }

  lemma {:induction false} TaggedUnique<T(!new)>(x: Option<T>, y: Option<T>, code: T -> Bytes, r: Bytes, s: Bytes)
    requires Unique(code) && Tagged(x, code) + r == Tagged(y, code) + s
    ensures x == y && r == s
  {
    if x.Some? && y.Some? {
      assert Tagged(x, code) + r == [1] + (code(x.value) + r);
      assert Tagged(y, code) + s == [1] + (code(y.value) + s);
      SplitsAt([1], [1], code(x.value) + r, code(y.value) + s);
    } else {
      assert (Tagged(x, code) + r)[0] == (if x.None? then 0 else 1);
      assert (Tagged(y, code) + s)[0] == (if y.None? then 0 else 1);
      SplitsAt([0], [0], r, s);
    }
  }

  /** The elements one after another. */
  function Each<T>(values: seq<T>, code: T -> Bytes): Bytes {
    if values == [] then [] else code(values[0]) + Each(values[1..], code)
  }

  lemma {:induction false} EachNext<T>(values: seq<T>, code: T -> Bytes, i: nat)
    requires i < |values|
    ensures Each(values[..i + 1], code) == Each(values[..i], code) + code(values[i])
  {
    if i == 0 {
      assert values[..1][1..] == [] && values[..0] == [];
    } else {
      assert values[..i + 1][1..] == values[1..][..i] && values[..i][1..] == values[1..][..i - 1];
      EachNext(values[1..], code, i - 1);
    }
  }

  lemma {:induction false} EachAll<T>(values: seq<T>, code: T -> Bytes)
    ensures Each(values[..|values|], code) == Each(values, code)
    ensures Each(values[..0], code) == []
  {
    assert values[..|values|] == values;
  }

  lemma {:induction false} JoinEach<T>(start: Bytes, values: seq<T>, code: T -> Bytes, i: nat)
    requires i < |values|
    ensures start + Each(values[..i], code) + code(values[i]) == start + Each(values[..i + 1], code)
  {
    EachNext(values, code, i);
  }

  lemma {:induction false} JoinList<T>(encoded: Bytes, values: seq<T>, code: T -> Bytes)
    ensures encoded + Uvarint(|values|) + Each(values[..|values|], code) == encoded + Listed(values, code)
  {
    EachAll(values, code);
  }

  lemma {:induction false} ListedAfter<T>(encoded: Bytes, values: seq<T>, code: T -> Bytes)
    ensures encoded + [1] + Uvarint(|values|) + Each(values, code) == encoded + ([1] + Listed(values, code))
  {
  }

  lemma {:induction false} EachUnique<T(!new)>(x: seq<T>, y: seq<T>, code: T -> Bytes, r: Bytes, s: Bytes)
    requires Unique(code) && |x| == |y| && Each(x, code) + r == Each(y, code) + s
    ensures x == y && r == s
  {
    if x == [] {
      SplitsAt([], [], r, s);
    } else {
      assert code(x[0]) + (Each(x[1..], code) + r) == Each(x, code) + r;
      assert code(y[0]) + (Each(y[1..], code) + s) == Each(y, code) + s;
      EachUnique(x[1..], y[1..], code, r, s);
      assert x == [x[0]] + x[1..] && y == [y[0]] + y[1..];
    }
  }

  /** The elements behind their count. */
  function Listed<T>(values: seq<T>, code: T -> Bytes): Bytes {
    Uvarint(|values|) + Each(values, code)
  }

  lemma {:induction false} ListedUnique<T(!new)>(x: seq<T>, y: seq<T>, code: T -> Bytes, r: Bytes, s: Bytes)
    requires Unique(code) && Listed(x, code) + r == Listed(y, code) + s
    ensures x == y && r == s
  {
    assert Uvarint(|x|) + (Each(x, code) + r) == Listed(x, code) + r;
    assert Uvarint(|y|) + (Each(y, code) + s) == Listed(y, code) + s;
    UvarintUnique(|x|, |y|, Each(x, code) + r, Each(y, code) + s);
    EachUnique(x, y, code, r, s);
  }

  function TextList(values: seq<Text>): Bytes {
    Listed(values, TextBytes)
  }

  /** A list of strings that may be nil, which is not the same as empty. */
  function TextsBytes(values: Option<seq<Text>>): Bytes {
    Tagged(values, TextList)
  }

  lemma {:induction false} TextListIsUnique()
    ensures Unique(TextList)
  {
    TextIsUnique();
    forall x: seq<Text>, y: seq<Text>, r: Bytes, s: Bytes | TextList(x) + r == TextList(y) + s
      ensures x == y && r == s
    {
      ListedUnique(x, y, TextBytes, r, s);
    }
  }

  lemma {:induction false} TextsIsUnique()
    ensures Unique(TextsBytes)
  {
    TextListIsUnique();
    forall x: Option<seq<Text>>, y: Option<seq<Text>>, r: Bytes, s: Bytes | TextsBytes(x) + r == TextsBytes(y) + s
      ensures x == y && r == s
    {
      TaggedUnique(x, y, TextList, r, s);
    }
  }

  function OptionalInteger(value: Option<int>): Bytes {
    Tagged(value, Varint)
  }

  lemma {:induction false} OptionalIntegerIsUnique()
    ensures Unique(OptionalInteger)
  {
    VarintIsUnique();
    forall x: Option<int>, y: Option<int>, r: Bytes, s: Bytes | OptionalInteger(x) + r == OptionalInteger(y) + s
      ensures x == y && r == s
    {
      TaggedUnique(x, y, Varint, r, s);
    }
  }

  // ---------- records of many fields ----------

  /** Parts k to n one after another. */
  function Chain(part: nat -> Bytes, k: nat, n: nat): Bytes
    requires k <= n
    decreases n - k
  {
    if k == n then [] else part(k) + Chain(part, k + 1, n)
  }

  lemma {:induction false} ChainNext(part: nat -> Bytes, k: nat, n: nat)
    requires k <= n
    ensures Chain(part, k, n + 1) == Chain(part, k, n) + part(n)
    decreases n - k
  {
    if k < n {
      ChainNext(part, k + 1, n);
    }
  }

  /** Each stage appends the next part to the one before. */
  predicate Stages(part: nat -> Bytes, stages: seq<Bytes>) {
    stages != [] && forall i | 0 <= i < |stages| - 1 :: stages[i + 1] == stages[i] + part(i)
  }

  lemma {:induction false} NextStage(part: nat -> Bytes, stages: seq<Bytes>, next: Bytes)
    requires Stages(part, stages) && next == stages[|stages| - 1] + part(|stages| - 1)
    ensures Stages(part, stages + [next])
  {
  }

  /** Appending one part after another appends the chain. */
  lemma {:induction false} JoinStages(part: nat -> Bytes, stages: seq<Bytes>)
    requires Stages(part, stages)
    ensures stages[|stages| - 1] == stages[0] + Chain(part, 0, |stages| - 1)
  {
    var n := |stages| - 1;
    if n > 0 {
      JoinStages(part, stages[..n]);
      ChainNext(part, 0, n - 1);
    }
  }

  lemma {:induction false} JoinThree(e: Bytes, a: Bytes, b: Bytes, c: Bytes)
    ensures e + a + b + c == e + (a + (b + c))
  {
  }

  lemma {:induction false} JoinFour(e: Bytes, a: Bytes, b: Bytes, c: Bytes, d: Bytes)
    ensures e + a + b + c + d == e + (a + (b + (c + d)))
  {
  }

  lemma {:induction false} ChainSplits(
      left: nat -> Bytes, right: nat -> Bytes, same: nat -> bool, k: nat, n: nat, r: Bytes, s: Bytes)
    requires k <= n && Chain(left, k, n) + r == Chain(right, k, n) + s
    requires forall j: nat, t: Bytes, u: Bytes :: left(j) + t == right(j) + u ==> same(j) && t == u
    ensures r == s && forall j | k <= j < n :: same(j)
    decreases n - k
  {
    if k < n {
      var tail, tail' := Chain(left, k + 1, n) + r, Chain(right, k + 1, n) + s;
      assert Chain(left, k, n) + r == left(k) + tail;
      assert Chain(right, k, n) + s == right(k) + tail';
      ChainSplits(left, right, same, k + 1, n, r, s);
    } else {
      SplitsAt([], [], r, s);
    }
  }

  // ---------- appending ----------

  method AppendString(encoded: Bytes, value: Text) returns (longer: Bytes)
    ensures longer == encoded + TextBytes(value)
  {
    longer := encoded + Uvarint(|value|);
    longer := longer + value;
  }

  method AppendStrings(encoded: Bytes, values: Option<seq<Text>>) returns (longer: Bytes)
    ensures longer == encoded + TextsBytes(values)
  {
    if values.None? {
      return encoded + [0];
    }
    longer := encoded + [1];
    longer := longer + Uvarint(|values.value|);
    ghost var start := longer;
    for i := 0 to |values.value|
      invariant longer == start + Each(values.value[..i], TextBytes)
    {
      longer := AppendString(longer, values.value[i]);
      EachNext(values.value, TextBytes, i);
    }
    EachAll(values.value, TextBytes);
    ListedAfter(encoded, values.value, TextBytes);
  }

  method AppendOptionalInteger(encoded: Bytes, value: Option<int>) returns (longer: Bytes)
    ensures longer == encoded + OptionalInteger(value)
  {
    if value.None? {
      return encoded + [0];
    }
    longer := encoded + [1] + Varint(value.value);
  }

  method AppendBool(encoded: Bytes, value: bool) returns (longer: Bytes)
    ensures longer == encoded + Flag(value)
  {
    if value {
      return encoded + [1];
    }
    return encoded + [0];
  }

  method AppendOptionalBool(encoded: Bytes, value: Option<bool>) returns (longer: Bytes)
    ensures longer == encoded + OptionalFlag(value)
  {
    if value.None? {
      return encoded + [0];
    }
    if value.value {
      return encoded + [2];
    }
    return encoded + [1];
  }
}
