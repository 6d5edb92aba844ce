/** Byte-level values shared by every component of the model. */
module Values {

  type Byte = b: int | 0 <= b < 256

  /** A Go string: a sequence of bytes, not necessarily valid UTF-8. */
  type Text = seq<Byte>

  /** A SHA-256 digest, read as the big-endian number of its 32 bytes. */
  type Digest = d: nat |
    d < 0x1_0000_0000_0000_0000_0000_0000_0000_0000_0000_0000_0000_0000_0000_0000_0000_0000

  const ZERO_DIGEST: Digest := 0

  datatype Option<+T> = None | Some(value: T)

  /** The values of a list that may be nil. */
  function Items<T>(values: Option<seq<T>>): seq<T> {
    if values.Some? then values.value else []
  }

  /** The bytes of a literal. */
  function Ascii(s: string): (text: Text)
    requires forall i | 0 <= i < |s| :: (s[i] as int) < 128
    ensures |text| == |s|
  {
    seq(|s|, i requires 0 <= i < |s| => s[i] as int)
  }

  /** All of the results, or none when one is missing. */
  function All<A, B>(values: seq<A>, parse: A -> Option<B>): (results: Option<seq<B>>)
    ensures results.Some? ==> |results.value| == |values|
  {
    if values == [] then Some([])
    else
      var front := All(values[..|values| - 1], parse);
      var last := parse(values[|values| - 1]);
      if front.None? || last.None? then None else Some(front.value + [last.value])
  }

  /** One item after another, from the first state; none once a step fails. */
  function Folded<S, T>(step: (S, T) -> Option<S>, first: S, items: seq<T>): Option<S> {
    if items == [] then Some(first)
    else
      var before := Folded(step, first, items[..|items| - 1]);
      if before.None? then None else step(before.value, items[|items| - 1])
  }

  lemma {:induction false} FoldedGrows<S, T>(step: (S, T) -> Option<S>, first: S, items: seq<T>, n: nat)
    requires n < |items|
    ensures
      var before := Folded(step, first, items[..n]);
      Folded(step, first, items[..n + 1]) == if before.None? then None else step(before.value, items[n])
  {
    assert items[..n + 1][..n] == items[..n];
  }

  /** Nothing is folded beyond the step that failed. */
  lemma {:induction false} FoldedStops<S, T>(step: (S, T) -> Option<S>, first: S, items: seq<T>, n: nat)
    requires n <= |items| && Folded(step, first, items[..n]).None?
    ensures Folded(step, first, items).None?
    decreases |items| - n
  {
    if n < |items| {
      FoldedGrows(step, first, items, n);
      FoldedStops(step, first, items, n + 1);
    } else {
      assert items[..n] == items;
    }
  }

  /** What the first state has and every step keeps, the last state has. */
  lemma {:induction false} FoldedKeeps<S(!new), T(!new)>(
      step: (S, T) -> Option<S>, first: S, items: seq<T>, keeps: (S, seq<T>) -> bool)
    requires keeps(first, [])
    requires forall state, done, item | keeps(state, done) && step(state, item).Some? ::
      keeps(step(state, item).value, done + [item])
    ensures Folded(step, first, items).Some? ==> keeps(Folded(step, first, items).value, items)
  {
    if items != [] {
      var n := |items| - 1;
      FoldedKeeps(step, first, items[..n], keeps);
      assert items[..n] + [items[n]] == items;
    }
  }

  /** Well-formed UTF-8 as Go's utf8.ValidString decides it. */
  predicate ValidUTF8(text: Text) {
    |text| == 0 ||
    var width := RuneWidth(text);
    0 < width <= |text| && ValidUTF8(text[width..])
  }

  /** The width of the first rune, or 0 when the bytes start no valid rune. */
  function RuneWidth(text: Text): (width: nat)
    requires |text| > 0
    ensures width <= |text|
  {
    var first := text[0];
    if first < 0x80 then 1
    else if 0xC2 <= first <= 0xDF && |text| >= 2 && Continues(text[1], 0x80, 0xBF) then 2
    else if 0xE0 <= first <= 0xEF && |text| >= 3 &&
            Continues(text[1], if first == 0xE0 then 0xA0 else 0x80, if first == 0xED then 0x9F else 0xBF) &&
            Continues(text[2], 0x80, 0xBF) then 3
    else if 0xF0 <= first <= 0xF4 && |text| >= 4 &&
            Continues(text[1], if first == 0xF0 then 0x90 else 0x80, if first == 0xF4 then 0x8F else 0xBF) &&
            Continues(text[2], 0x80, 0xBF) && Continues(text[3], 0x80, 0xBF) then 4
    else 0
  }

  predicate Continues(value: Byte, low: Byte, high: Byte) {
    low <= value <= high
  }
}
