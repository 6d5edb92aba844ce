/** Slash-separated paths as Go's path package reads them, and which of them stay below a root. */
module Paths {
  import opened Values

  const SLASH: Byte := 47
  const MAXIMUM_PATH: nat := 4096
  const DOT: Text := [46]
  const DOTS: Text := [46, 46]

  // ---------- components ----------

  /** The text between the slashes; one component more than there are slashes. */
  function Split(value: Text): (parts: seq<Text>)
    ensures |parts| > 0 && forall i | 0 <= i < |parts| :: SLASH !in parts[i]
  {
    if value == [] then [[]]
    else
      var rest := Split(value[1..]);
      if value[0] == SLASH then [[]] + rest else [[value[0]] + rest[0]] + rest[1..]
  }

  function Join(parts: seq<Text>): Text {
    if parts == [] then []
    else if |parts| == 1 then parts[0]
    else parts[0] + [SLASH] + Join(parts[1..])
  }

  lemma {:induction false} JoinOfSplit(value: Text)
    ensures Join(Split(value)) == value
  {
    if value != [] {
      var rest := Split(value[1..]);
      JoinOfSplit(value[1..]);
      var parts := Split(value);
      if value[0] == SLASH {
        assert parts[1..] == rest;
        assert parts[0] + [SLASH] + Join(rest) == [SLASH] + value[1..];
      } else {
        assert parts[1..] == rest[1..];
        assert Join(parts) == [value[0]] + Join(rest);
      }
    }
  }

  lemma {:induction false} SplitOfText(part: Text)
    requires SLASH !in part
    ensures Split(part) == [part]
  {
    if part != [] {
      SplitOfText(part[1..]);
      assert part[0] in part && part == [part[0]] + part[1..];
    }
  }

  lemma {:induction false} SplitOfPair(part: Text, rest: Text)
    requires SLASH !in part
    ensures Split(part + [SLASH] + rest) == [part] + Split(rest)
  {
    var text := part + [SLASH] + rest;
    if part == [] {
      assert text == [SLASH] + rest && text[1..] == rest;
    } else {
      assert text[0] == part[0] && part[0] in part;
      assert text[1..] == part[1..] + [SLASH] + rest;
      SplitOfPair(part[1..], rest);
      assert part == [part[0]] + part[1..];
    }
  }

  lemma {:induction false} SplitOfJoin(parts: seq<Text>)
    requires parts != [] && forall i | 0 <= i < |parts| :: SLASH !in parts[i]
    ensures Split(Join(parts)) == parts
  {
    if |parts| == 1 {
      SplitOfText(parts[0]);
    } else {
      SplitOfJoin(parts[1..]);
      SplitOfPair(parts[0], Join(parts[1..]));
    }
  }

  lemma {:induction false} JoinIsInjective(left: seq<Text>, right: seq<Text>)
    requires left != [] && forall i | 0 <= i < |left| :: SLASH !in left[i]
    requires right != [] && forall i | 0 <= i < |right| :: SLASH !in right[i]
    requires Join(left) == Join(right)
    ensures left == right
  {
    SplitOfJoin(left);
    SplitOfJoin(right);
  }

  lemma {:induction false} FirstOfTwo(b: Byte, left: seq<Text>, right: seq<Text>)
    requires left != []
    ensures [[b] + (left + right)[0]] + (left + right)[1..] == ([[b] + left[0]] + left[1..]) + right
  {
    assert (left + right)[1..] == left[1..] + right;
  }

  lemma {:induction false} SplitOfJoined(left: Text, right: Text)
    ensures Split(left + [SLASH] + right) == Split(left) + Split(right)
  {
    if left == [] {
      SplitOfPair([], right);
    } else {
      var rest := left[1..];
      var text := left + [SLASH] + right;
      SplitOfJoined(rest, right);
      assert text[0] == left[0] && text[1..] == rest + [SLASH] + right;
      FirstOfTwo(left[0], Split(rest), Split(right));
      assert [[]] + (Split(rest) + Split(right)) == ([[]] + Split(rest)) + Split(right);
    }
  }

  // ---------- cleaning ----------

  predicate Blank(part: Text) {
    part == [] || part == DOT
  }

  /** Takes one component after another: blanks do nothing, dots take one step back if they can. */
  function Walk(stack: seq<Text>, parts: seq<Text>, rooted: bool): seq<Text>
    decreases |parts|
  {
    if parts == [] then stack
    else if Blank(parts[0]) then Walk(stack, parts[1..], rooted)
    else if parts[0] == DOTS then
      if stack != [] && stack[|stack| - 1] != DOTS then Walk(stack[..|stack| - 1], parts[1..], rooted)
      else if rooted then Walk(stack, parts[1..], rooted)
      else Walk(stack + [DOTS], parts[1..], rooted)
    else Walk(stack + [parts[0]], parts[1..], rooted)
  }

  predicate Rooted(value: Text) {
    value != [] && value[0] == SLASH
  }

  function Clean(value: Text): Text {
    if Rooted(value) then [SLASH] + Join(Walk([], Split(value[1..]), true))
    else
      var parts := Walk([], Split(value), false);
      if parts == [] then DOT else Join(parts)
  }

  /** Everything up to and including the last slash. */
  function DirectoryPart(value: Text): (part: Text)
    ensures part <= value
  {
    if value == [] || value[|value| - 1] == SLASH then value
    else DirectoryPart(value[..|value| - 1])
  }

  function Dir(value: Text): Text {
    Clean(DirectoryPart(value))
  }

  function Joined(left: Text, right: Text): Text {
    if left == [] && right == [] then []
    else if left == [] then Clean(right)
    else if right == [] then Clean(left)
    else Clean(left + [SLASH] + right)
  }

  // ---------- names below the root ----------

  predicate Ordinary(part: Text) {
    !Blank(part) && part != DOTS && SLASH !in part
  }

  predicate AllOrdinary(parts: seq<Text>) {
    forall i | 0 <= i < |parts| :: Ordinary(parts[i])
  }

  predicate Escapes(value: Text) {
    value == DOTS || DOTS + [SLASH] <= value
  }

  predicate CanonicalMember(value: Text) {
    Clean(value) == value && value != DOT && !Escapes(value)
  }

  lemma {:induction false} OrdinaryWalk(stack: seq<Text>, parts: seq<Text>)
    requires AllOrdinary(parts)
    ensures Walk(stack, parts, false) == stack + parts
    decreases |parts|
  {
    if parts != [] {
      OrdinaryWalk(stack + [parts[0]], parts[1..]);
      assert stack + [parts[0]] + parts[1..] == stack + parts;
    } else {
      assert stack + parts == stack;
    }
  }

  /** Dots at the front, ordinary components behind them. */
  predicate Settled(parts: seq<Text>) {
    (forall i | 0 <= i < |parts| :: parts[i] == DOTS || Ordinary(parts[i])) &&
    forall i | 0 < i < |parts| :: parts[i] == DOTS ==> parts[i - 1] == DOTS
  }

  lemma {:induction false} WalkSettles(stack: seq<Text>, parts: seq<Text>)
    requires Settled(stack) && forall i | 0 <= i < |parts| :: SLASH !in parts[i]
    ensures Settled(Walk(stack, parts, false))
    decreases |parts|
  {
    if parts != [] {
      if Blank(parts[0]) {
        WalkSettles(stack, parts[1..]);
      } else if parts[0] == DOTS {
        if stack != [] && stack[|stack| - 1] != DOTS {
          WalkSettles(stack[..|stack| - 1], parts[1..]);
        } else {
          WalkSettles(stack + [DOTS], parts[1..]);
        }
      } else {
        WalkSettles(stack + [parts[0]], parts[1..]);
      }
    }
  }

  lemma {:induction false} SettledWithoutDots(parts: seq<Text>, i: nat)
    requires Settled(parts) && parts != [] && parts[0] != DOTS && i < |parts|
    ensures Ordinary(parts[i])
  {
    if i > 0 {
      SettledWithoutDots(parts, i - 1);
    }
  }

  lemma {:induction false} DotsEscape(parts: seq<Text>)
    requires parts != [] && forall i | 0 <= i < |parts| :: SLASH !in parts[i]
    ensures Escapes(Join(parts)) <==> parts[0] == DOTS
  {
    var text := Join(parts);
    SplitOfJoin(parts);
    if text == DOTS {
      SplitOfText(DOTS);
    } else if DOTS + [SLASH] <= text {
      assert text == DOTS + [SLASH] + text[3..];
      SplitOfPair(DOTS, text[3..]);
    }
  }

  lemma {:induction false} OrdinaryIsCanonical(value: Text)
    requires value != [] && !Rooted(value) && AllOrdinary(Split(value))
    ensures CanonicalMember(value)
  {
    var parts := Split(value);
    JoinOfSplit(value);
    OrdinaryWalk([], parts);
    assert Walk([], parts, false) == parts;
    DotsEscape(parts);
    OrdinaryIsNotDot(parts);
  }

  lemma {:induction false} CanonicalIsOrdinary(value: Text)
    requires value != [] && !Rooted(value) && CanonicalMember(value)
    ensures AllOrdinary(Split(value))
  {
    var walked := Walk([], Split(value), false);
    WalkSettles([], Split(value));
    assert value == Join(walked) && walked != [];
    SplitOfJoin(walked);
    assert Split(value) == walked;
    DotsEscape(walked);
    forall i | 0 <= i < |walked|
      ensures Ordinary(walked[i])
    {
      SettledWithoutDots(walked, i);
    }
  }

  /** A canonical member path is one whose components are all ordinary. */
  lemma {:induction false} CanonicalIffOrdinary(value: Text)
    requires value != [] && !Rooted(value)
    ensures CanonicalMember(value) <==> AllOrdinary(Split(value))
  {
    if CanonicalMember(value) {
      CanonicalIsOrdinary(value);
    }
    if AllOrdinary(Split(value)) {
      OrdinaryIsCanonical(value);
    }
  }

  lemma {:induction false} OrdinaryIsNotDot(parts: seq<Text>)
    requires AllOrdinary(parts) && parts != []
    ensures Join(parts) != DOT
  {
    SplitOfJoin(parts);
    SplitOfText(DOT);
    assert Ordinary(parts[0]);
  }

  // ---------- parents ----------

  lemma {:induction false} DirectoryPartEnds(value: Text)
    ensures DirectoryPart(value) == [] ==> SLASH !in value
    ensures DirectoryPart(value) != [] ==>
      DirectoryPart(value)[|DirectoryPart(value)| - 1] == SLASH &&
      SLASH !in value[|DirectoryPart(value)|..]
  {
    if value != [] && value[|value| - 1] != SLASH {
      var shorter := value[..|value| - 1];
      DirectoryPartEnds(shorter);
      assert value == shorter + [value[|value| - 1]];
      var n := |DirectoryPart(value)|;
      assert value[n..] == shorter[n..] + [value[|value| - 1]];
    }
  }

  /** The directory of a member is the path without its last component, or a dot. */
  lemma {:induction false} DirOfMember(parts: seq<Text>)
    requires AllOrdinary(parts) && parts != []
    ensures Dir(Join(parts)) == if |parts| == 1 then DOT else Join(parts[..|parts| - 1])
  {
    var value := Join(parts);
    var head := DirectoryPart(value);
    SplitOfJoin(parts);
    DirectoryPartEnds(value);
    if head == [] {
      SplitOfText(value);
    } else {
      var front, last := head[..|head| - 1], value[|head|..];
      assert value == front + [SLASH] + last;
      SplitOfJoined(front, last);
      SplitOfText(last);
      assert head == front + [SLASH] + [];
      SplitOfJoined(front, []);
      assert Split(front) == parts[..|parts| - 1];
      JoinOfSplit(front);
      MemberIsRelative(parts);
      assert front[..] == front && (front != [] ==> front[0] == value[0]);
      assert Split(front)[0] == parts[0];
      HeadWalk(parts[..|parts| - 1]);
    }
  }

  lemma {:induction false} HeadWalk(parts: seq<Text>)
    requires AllOrdinary(parts) && parts != []
    ensures Walk([], parts + [[]], false) == parts
  {
    WalkJoins([], parts, [[]]);
    OrdinaryWalk([], parts);
  }

  lemma {:induction false} WalkJoins(stack: seq<Text>, left: seq<Text>, right: seq<Text>)
    ensures Walk(stack, left + right, false) == Walk(Walk(stack, left, false), right, false)
    decreases |left|
  {
    if left == [] {
      assert left + right == right;
    } else {
      assert (left + right)[1..] == left[1..] + right;
      if Blank(left[0]) {
        WalkJoins(stack, left[1..], right);
      } else if left[0] == DOTS {
        if stack != [] && stack[|stack| - 1] != DOTS {
          WalkJoins(stack[..|stack| - 1], left[1..], right);
        } else {
          WalkJoins(stack + [DOTS], left[1..], right);
        }
      } else {
        WalkJoins(stack + [left[0]], left[1..], right);
      }
    }
  }

  lemma {:induction false} MemberIsRelative(parts: seq<Text>)
    requires AllOrdinary(parts) && parts != []
    ensures Join(parts) != [] && !Rooted(Join(parts))
  {
    assert Ordinary(parts[0]);
    if |parts| > 1 {
      assert Join(parts)[0] == parts[0][0];
    }
  }

  // ---------- links ----------

  /** Following the components from this depth never steps above the root. */
  predicate StaysInside(depth: nat, parts: seq<Text>)
    decreases |parts|
  {
    if parts == [] then true
    else if Blank(parts[0]) then StaysInside(depth, parts[1..])
    else if parts[0] == DOTS then depth > 0 && StaysInside(depth - 1, parts[1..])
    else StaysInside(depth + 1, parts[1..])
  }

  lemma {:induction false} DotsStay(stack: seq<Text>, parts: seq<Text>)
    requires stack != [] && stack[0] == DOTS
    ensures
      var walked := Walk(stack, parts, false);
      walked != [] && walked[0] == DOTS
    decreases |parts|
  {
    if parts != [] {
      if Blank(parts[0]) {
        DotsStay(stack, parts[1..]);
      } else if parts[0] == DOTS {
        if stack[|stack| - 1] != DOTS {
          DotsStay(stack[..|stack| - 1], parts[1..]);
        } else {
          DotsStay(stack + [DOTS], parts[1..]);
        }
      } else {
        DotsStay(stack + [parts[0]], parts[1..]);
      }
    }
  }

  lemma {:induction false} WalkStaysInside(stack: seq<Text>, parts: seq<Text>)
    requires AllOrdinary(stack)
    ensures
      var walked := Walk(stack, parts, false);
      StaysInside(|stack|, parts) <==> (walked == [] || walked[0] != DOTS)
    decreases |parts|
  {
    if parts != [] {
      if Blank(parts[0]) {
        WalkStaysInside(stack, parts[1..]);
      } else if parts[0] == DOTS {
        if stack != [] {
          assert Ordinary(stack[|stack| - 1]);
          WalkStaysInside(stack[..|stack| - 1], parts[1..]);
        } else {
          assert stack + [DOTS] == [DOTS];
          DotsStay([DOTS], parts[1..]);
        }
      } else if SLASH !in parts[0] {
        WalkStaysInside(stack + [parts[0]], parts[1..]);
      } else {
        WalkStaysInsideAny(stack + [parts[0]], parts[1..]);
      }
    } else if stack != [] {
      assert Ordinary(stack[0]);
    }
  }

  lemma {:induction false} WalkStaysInsideAny(stack: seq<Text>, parts: seq<Text>)
    requires forall i | 0 <= i < |stack| :: stack[i] != DOTS
    ensures
      var walked := Walk(stack, parts, false);
      StaysInside(|stack|, parts) <==> (walked == [] || walked[0] != DOTS)
    decreases |parts|
  {
    if parts != [] {
      if Blank(parts[0]) {
        WalkStaysInsideAny(stack, parts[1..]);
      } else if parts[0] == DOTS {
        if stack != [] {
          WalkStaysInsideAny(stack[..|stack| - 1], parts[1..]);
        } else {
          assert stack + [DOTS] == [DOTS];
          DotsStay([DOTS], parts[1..]);
        }
      } else {
        WalkStaysInsideAny(stack + [parts[0]], parts[1..]);
      }
    }
  }

  /** Where a link of this member leads. */
  function Resolved(name: Text, link: Text): Text {
    Clean(Joined(Dir(name), link))
  }

  /** The components that a link is followed through, from the directory of its member. */
  lemma {:induction false} JoinedWalk(parts: seq<Text>, link: Text)
    requires AllOrdinary(parts) && parts != [] && link != [] && !Rooted(link)
    ensures
      var walked := Walk(parts[..|parts| - 1], Split(link), false);
      Joined(Dir(Join(parts)), link) == if walked == [] then DOT else Join(walked)
  {
    DirOfMember(parts);
    var front := parts[..|parts| - 1];
    if front == [] {
      SplitOfJoined(DOT, link);
      SplitOfText(DOT);
      assert ([DOT] + Split(link))[1..] == Split(link);
    } else {
      MemberIsRelative(front);
      SplitOfJoined(Join(front), link);
      SplitOfJoin(front);
      WalkJoins([], front, Split(link));
      OrdinaryWalk([], front);
      assert [] + front == front;
    }
  }

  lemma {:induction false} WalkIsClean(parts: seq<Text>)
    requires Settled(parts) && parts != []
    ensures Clean(Join(parts)) == Join(parts)
  {
    SplitOfJoin(parts);
    SettledWalk([], parts);
    assert [] + parts == parts;
    SettledIsRelative(parts);
  }

  lemma {:induction false} SettledIsRelative(parts: seq<Text>)
    requires Settled(parts) && parts != []
    ensures !Rooted(Join(parts))
  {
    assert parts[0] == DOTS || Ordinary(parts[0]);
    if |parts| > 1 {
      assert Join(parts)[0] == parts[0][0];
    }
  }

  lemma {:induction false} SettledWalk(stack: seq<Text>, parts: seq<Text>)
    requires Settled(stack + parts)
    ensures Walk(stack, parts, false) == stack + parts
    decreases |parts|
  {
    if parts != [] {
      assert (stack + parts)[|stack|] == parts[0];
      if parts[0] == DOTS && stack != [] {
        assert (stack + parts)[|stack| - 1] == DOTS;
      }
      assert stack + [parts[0]] + parts[1..] == stack + parts;
      SettledWalk(stack + [parts[0]], parts[1..]);
    } else {
      assert stack + parts == stack;
    }
  }

  lemma {:induction false} DotIsClean()
    ensures Clean(DOT) == DOT && !Escapes(DOT)
  {
    SplitOfText(DOT);
    assert Walk([], [DOT], false) == Walk([], [], false);
  }

  /** A link is refused exactly when following it steps above the root somewhere on the way. */
  lemma {:induction false} LinkStaysInside(parts: seq<Text>, link: Text)
    requires AllOrdinary(parts) && parts != [] && link != [] && !Rooted(link)
    ensures !Escapes(Resolved(Join(parts), link)) <==> StaysInside(|parts| - 1, Split(link))
  {
    var front := parts[..|parts| - 1];
    var walked := Walk(front, Split(link), false);
    JoinedWalk(parts, link);
    WalkStaysInside(front, Split(link));
    if walked == [] {
      DotIsClean();
    } else {
      OrdinarySettles(front);
      WalkSettles(front, Split(link));
      WalkIsClean(walked);
      DotsEscape(walked);
    }
  }

  lemma {:induction false} OrdinarySettles(parts: seq<Text>)
    requires AllOrdinary(parts)
    ensures Settled(parts)
  {
  }

  // ---------- what cleaning leaves out ----------

  /** A component that stands for no step, or a step down and back up again. */
  predicate Detour(parts: seq<Text>) {
    (|parts| == 1 && Blank(parts[0])) || (|parts| == 2 && Ordinary(parts[0]) && parts[1] == DOTS)
  }

  lemma {:induction false} WalkSkipsDetour(stack: seq<Text>, detour: seq<Text>)
    requires Detour(detour)
    ensures Walk(stack, detour, false) == stack
  {
    if |detour| == 1 {
      assert detour[1..] == [];
    } else {
      var down := stack + [detour[0]];
      assert detour[1..] == [DOTS] && down[..|stack|] == stack && !Blank(DOTS);
      assert Walk(down, [DOTS], false) == Walk(down[..|stack|], [], false);
    }
  }

  /** A detour anywhere in a relative path makes no difference to its cleaned form. */
  lemma {:induction false} CleanSkipsDetour(left: seq<Text>, detour: seq<Text>, right: seq<Text>)
    requires left != [] && left[0] != [] && Detour(detour)
    requires forall i | 0 <= i < |left + right| :: SLASH !in (left + right)[i]
    ensures Clean(Join(left + detour + right)) == Clean(Join(left + right))
  {
    WithoutSlashes(left, detour, right);
    SplitOfJoin(left + detour + right);
    SplitOfJoin(left + right);
    WalkJoins([], left + detour, right);
    WalkJoins([], left, detour);
    WalkJoins([], left, right);
    WalkSkipsDetour(Walk([], left, false), detour);
    StartsRelative(left + detour + right);
    StartsRelative(left + right);
  }

  lemma {:induction false} WithoutSlashes(left: seq<Text>, detour: seq<Text>, right: seq<Text>)
    requires Detour(detour) && forall i | 0 <= i < |left + right| :: SLASH !in (left + right)[i]
    ensures forall i | 0 <= i < |left + detour + right| :: SLASH !in (left + detour + right)[i]
  {
    forall i | 0 <= i < |left + detour + right|
      ensures SLASH !in (left + detour + right)[i]
    {
      if i < |left| {
        assert (left + detour + right)[i] == (left + right)[i];
      } else if i >= |left + detour| {
        assert (left + detour + right)[i] == (left + right)[i - |detour|];
      }
    }
  }

  lemma {:induction false} StartsRelative(parts: seq<Text>)
    requires parts != [] && parts[0] != [] && SLASH !in parts[0]
    ensures !Rooted(Join(parts))
  {
    assert parts[0][0] in parts[0];
    if |parts| > 1 {
      assert Join(parts)[0] == parts[0][0];
    }
  }
}
