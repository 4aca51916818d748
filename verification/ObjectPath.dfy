/**
 * Object paths of the trace: "root.cmd4[0].cmd5[1]" is the second object returned by command 5 of the first
 * object returned by command 4 of the root. Later code reads ancestry back out of the text.
 */
module ObjectPath {
  import opened Bytes
  import opened Text

  const INT_LIMIT := 0x8000_0000
  const ULONG_LIMIT := 0x1_0000_0000_0000_0000

  /** ".cmd" starts at index `i`. */
  predicate MarkAt(s: string, i: nat) {
    i + 4 <= |s| && s[i] == '.' && s[i + 1] == 'c' && s[i + 2] == 'm' && s[i + 3] == 'd'
  }

  /** The next ".cmd" at or after `from`, or |s|. */
  function NextMark(s: string, from: nat): (i: nat)
    requires from <= |s|
    ensures from <= i <= |s|
    ensures i < |s| ==> MarkAt(s, i)
    ensures forall k :: from <= k < i ==> !MarkAt(s, k)
    decreases |s| - from
  {
    if from == |s| || MarkAt(s, from) then from else NextMark(s, from + 1)
  }

  /** How many ".cmd" start at or after `from`. */
  function CountMarks(s: string, from: nat): nat
    decreases |s| - from
  {
    if from >= |s| then 0 else (if MarkAt(s, from) then 1 else 0) + CountMarks(s, from + 1)
  }

  /** The last ".cmd" before `upto`, or -1. */
  function LastMark(s: string, upto: nat): (i: int)
    ensures -1 <= i < upto
    ensures i >= 0 ==> MarkAt(s, i)
    ensures forall k :: i < k < upto ==> !MarkAt(s, k)
  {
    if upto == 0 then -1 else if MarkAt(s, upto - 1) then upto - 1 else LastMark(s, upto - 1)
  }

  lemma {:induction false} CountFromNext(s: string, from: nat)
    requires from <= |s|
    ensures CountMarks(s, from) == CountMarks(s, NextMark(s, from))
    decreases |s| - from
  {
    if from < |s| && !MarkAt(s, from) {
      CountFromNext(s, from + 1);
    }
  }

  /** Two marks never overlap, so resuming four characters later skips none. */
  lemma CountPastMark(s: string, at: nat)
    requires MarkAt(s, at)
    ensures CountMarks(s, at) == 1 + CountMarks(s, at + 4)
  {
    assert CountMarks(s, at + 1) == CountMarks(s, at + 2) == CountMarks(s, at + 3);
    assert CountMarks(s, at + 3) == CountMarks(s, at + 4);
  }

  method CountCmdSegments(path: string) returns (count: nat)
    ensures count == CountMarks(path, 0)
  {
    count := 0;
    var cursor := NextMark(path, 0);
    CountFromNext(path, 0);
    while cursor < |path|
      invariant cursor <= |path| && (cursor < |path| ==> MarkAt(path, cursor))
      invariant count + CountMarks(path, cursor) == CountMarks(path, 0)
      decreases |path| - cursor
    {
      count := count + 1;
      CountPastMark(path, cursor);
      CountFromNext(path, cursor + 4);
      cursor := NextMark(path, cursor + 4);
    }
  }

  // strtoul with base 10.

  predicate IsCSpace(c: char) {
    IsSpace(c) || c as int == 11 || c as int == 12
  }

  function SkipSpace(s: string, from: nat): (i: nat)
    requires from <= |s|
    ensures from <= i <= |s|
    decreases |s| - from
  {
    if from == |s| || !IsCSpace(s[from]) then from else SkipSpace(s, from + 1)
  }

  function DigitsEnd(s: string, from: nat): (i: nat)
    requires from <= |s|
    ensures from <= i <= |s|
    ensures AllDigits(s[from..i])
    ensures i < |s| ==> !IsDigit(s[i])
    decreases |s| - from
  {
    if from == |s| || !IsDigit(s[from]) then from else
      var i := DigitsEnd(s, from + 1);
      assert forall k :: from < k < i ==> s[k] == s[from + 1..i][k - from - 1];
      i
  }

  datatype Number = NoNumber | Number(value: u64, end: nat)

  /** Leading space, an optional sign, digits; too large a number saturates and a minus sign wraps around. */
  function Strtoul(s: string, from: nat): (n: Number)
    requires from <= |s|
    ensures n.Number? ==> from < n.end <= |s|
  {
    var start := SkipSpace(s, from);
    var signed := start < |s| && (s[start] == '-' || s[start] == '+');
    var digits := if signed then start + 1 else start;
    var end := DigitsEnd(s, digits);
    if end == digits then NoNumber else
      var magnitude := DigitsValue(s[digits..end]);
      var value := if magnitude >= ULONG_LIMIT then ULONG_LIMIT - 1
        else if signed && s[start] == '-' then (ULONG_LIMIT - magnitude) % ULONG_LIMIT
        else magnitude;
      Number(value, end)
  }

  /** Conversion of an unsigned long to int: the low 32 bits, as a signed number. */
  function ToInt(value: u64): (n: int)
    ensures -0x8000_0000 <= n < 0x8000_0000 && (value - n) % 0x1_0000_0000 == 0
  {
    var low := value % (2 * INT_LIMIT);
    if low < INT_LIMIT then low else low - 2 * INT_LIMIT
  }

  function CreatorAt(path: string, last: int): int
    requires last < 0 || MarkAt(path, last)
  {
    if last < 0 then -1 else
      var n := Strtoul(path, last + 4);
      if n == NoNumber || n.end == |path| || path[n.end] != '[' then -1 else ToInt(n.value)
  }

  function LastCreator(path: string): int {
    CreatorAt(path, LastMark(path, |path|))
  }

  lemma LastIs(s: string, i: int)
    requires -1 <= i < |s| && (i >= 0 ==> MarkAt(s, i))
    requires forall k :: i < k < |s| ==> !MarkAt(s, k)
    ensures LastMark(s, |s|) == i
  {
    var j := LastMark(s, |s|);
    assert !(j < i) && !(i < j);
  }

  method GetLastCreatorCommandId(path: string) returns (id: int)
    ensures id == LastCreator(path)
  {
    var last := -1;
    var cursor := NextMark(path, 0);
    while cursor < |path|
      invariant cursor <= |path| && (cursor < |path| ==> MarkAt(path, cursor))
      invariant -1 <= last < |path| && last < cursor && (last >= 0 ==> MarkAt(path, last))
      invariant forall k :: last < k < cursor ==> !MarkAt(path, k)
      decreases |path| - cursor
    {
      last := cursor;
      cursor := NextMark(path, cursor + 4);
    }
    LastIs(path, last);
    if last < 0 {
      return -1;
    }
    var n := Strtoul(path, last + 4);
    if n == NoNumber || n.end == |path| || path[n.end] != '[' {
      return -1;
    }
    id := ToInt(n.value);
  }

  // What is written into a path comes back out.

  function Segment(command: u32, index: u32): (s: string)
    ensures |s| > 4 && s[0] == '.'
  {
    ".cmd" + Decimal(command) + "[" + Decimal(index) + "]"
  }

  /** The path of the `index`-th object that `command` of the object at `parent` returns. */
  function Child(parent: string, command: u32, index: u32): string {
    parent + Segment(command, index)
  }

  predicate NoMarkTail(b: string) {
    b == [] || (b[0] != 'c' && b[0] != 'm' && b[0] != 'd')
  }

  lemma MarkInJoin(a: string, b: string, ab: string, i: nat)
    requires ab == a + b && NoMarkTail(b) && i < |ab|
    ensures MarkAt(ab, i) <==> if i < |a| then MarkAt(a, i) else MarkAt(b, i - |a|)
  {
    if i < |a| < i + 4 && b != [] {
      assert ab[|a|] == b[0];
    }
  }

  lemma {:induction false} CountShifted(a: string, b: string, ab: string, from: nat)
    requires ab == a + b && NoMarkTail(b) && from <= |b|
    ensures CountMarks(ab, |a| + from) == CountMarks(b, from)
    decreases |b| - from
  {
    if from < |b| {
      MarkInJoin(a, b, ab, |a| + from);
      CountShifted(a, b, ab, from + 1);
    }
  }

  lemma {:induction false} CountJoin(a: string, b: string, ab: string, from: nat)
    requires ab == a + b && NoMarkTail(b) && from <= |a|
    ensures CountMarks(ab, from) == CountMarks(a, from) + CountMarks(b, 0)
    decreases |a| - from
  {
    if from == |a| {
      CountShifted(a, b, ab, 0);
    } else {
      MarkInJoin(a, b, ab, from);
      CountJoin(a, b, ab, from + 1);
    }
  }

  lemma {:induction false} NoDotNoMark(s: string, from: nat)
    requires from <= |s| && forall k :: from <= k < |s| ==> s[k] != '.'
    ensures CountMarks(s, from) == 0
    decreases |s| - from
  {
    if from < |s| {
      NoDotNoMark(s, from + 1);
    }
  }

  /** The parts of a segment, by position. */
  lemma SegmentParts(s: string, digits: string, rest: string)
    requires s == ".cmd" + digits + rest && AllDigits(digits) && digits != []
    requires |rest| > 0 && rest[0] == '[' && forall k :: 0 <= k < |rest| ==> rest[k] != '.'
    ensures MarkAt(s, 0)
    ensures forall k :: 1 <= k < |s| ==> s[k] != '.'
    ensures s[4..4 + |digits|] == digits && s[4 + |digits|] == '['
  {
    forall k | 1 <= k < |s| ensures s[k] != '.' {
      if 4 <= k < 4 + |digits| {
        assert s[k] == digits[k - 4];
      } else if k >= 4 + |digits| {
        assert s[k] == rest[k - 4 - |digits|];
      }
    }
  }

  lemma SegmentText(command: u32, index: u32)
    ensures
      var s, digits := Segment(command, index), Decimal(command);
      && MarkAt(s, 0)
      && (forall k :: 1 <= k < |s| ==> s[k] != '.')
      && s[4..4 + |digits|] == digits && s[4 + |digits|] == '['
  {
    var digits, tail := Decimal(command), Decimal(index);
    var rest := "[" + tail + "]";
    forall k | 0 <= k < |rest| ensures rest[k] != '.' {
      if 1 <= k <= |tail| {
        assert rest[k] == tail[k - 1];
      }
    }
    assert Segment(command, index) == ".cmd" + digits + rest;
    SegmentParts(Segment(command, index), digits, rest);
  }

  /** Every generation adds exactly one ".cmd" segment. */
  lemma ChildAddsASegment(parent: string, command: u32, index: u32)
    ensures CountMarks(Child(parent, command, index), 0) == CountMarks(parent, 0) + 1
  {
    var s := Segment(command, index);
    SegmentText(command, index);
    CountJoin(parent, s, Child(parent, command, index), 0);
    NoDotNoMark(s, 1);
  }

  lemma DigitsEndIs(s: string, from: nat, end: nat)
    requires from <= end <= |s| && AllDigits(s[from..end])
    requires end < |s| ==> !IsDigit(s[end])
    ensures DigitsEnd(s, from) == end
  {
    var e := DigitsEnd(s, from);
    forall k | from <= k < end ensures IsDigit(s[k]) {
      assert s[from..end][k - from] == s[k];
    }
    forall k | from <= k < e ensures IsDigit(s[k]) {
      assert s[from..e][k - from] == s[k];
    }
  }

  lemma StrtoulDigits(s: string, from: nat, end: nat, digits: string)
    requires from < end < |s| && s[from..end] == digits
    requires AllDigits(digits) && DigitsValue(digits) < ULONG_LIMIT && !IsDigit(s[end])
    ensures Strtoul(s, from) == Number(DigitsValue(digits), end)
  {
    DigitsEndIs(s, from, end);
    assert IsDigit(digits[0]) && s[from] == digits[0];
  }

  lemma SegmentMark(prefix: string, s: string, path: string)
    requires path == prefix + s && MarkAt(s, 0)
    requires forall k :: 1 <= k < |s| ==> s[k] != '.'
    ensures LastMark(path, |path|) == |prefix|
  {
    forall k | |prefix| < k < |path| ensures !MarkAt(path, k) {
      assert path[k] == s[k - |prefix|];
    }
    assert forall k :: 0 <= k < |s| ==> path[|prefix| + k] == s[k];
    LastIs(path, |prefix|);
  }

  /** A text whose last segment is `Segment(command, index)`, whatever stands before it. */
  lemma LastCreatorOf(prefix: string, command: u32, index: u32, path: string)
    requires path == prefix + Segment(command, index)
    ensures LastCreator(path) == ToInt(command)
  {
    var s, digits := Segment(command, index), Decimal(command);
    SegmentText(command, index);
    SegmentMark(prefix, s, path);
    var at := |prefix| + 4;
    assert path[at..at + |digits|] == s[4..4 + |digits|];
    assert path[at + |digits|] == s[4 + |digits|];
    StrtoulDigits(path, at, at + |digits|, digits);
  }

  lemma ToIntKeepsSmall(command: u32)
    ensures ToInt(command) == command <==> command < INT_LIMIT
    ensures command >= INT_LIMIT ==> ToInt(command) < 0
  {
    assert command % (2 * INT_LIMIT) == command;
  }

  /** The command read back from a child's path is the command that created it, exactly when it fits an int. */
  lemma CreatorReadsBack(prefix: string, child: string, parent: string, command: u32, index: u32, path: string)
    requires child == Child(parent, command, index) && path == prefix + child
    ensures LastCreator(path) == command <==> command < INT_LIMIT
    ensures command >= INT_LIMIT ==> LastCreator(path) < 0
  {
    JoinTwice(prefix, parent, Segment(command, index), child, path);
    LastCreatorOf(prefix + parent, command, index, path);
    ToIntKeepsSmall(command);
  }

  lemma JoinTwice(a: string, b: string, c: string, bc: string, abc: string)
    requires bc == b + c && abc == a + bc
    ensures abc == a + b + c
  {
  }

  lemma DigitsReachAsFar(a: string, b: string, more: string, rest: string, whole: string)
    requires AllDigits(b) && whole == a + more && whole == b + rest && more != [] && !IsDigit(more[0])
    ensures |b| <= |a|
  {
    assert whole[|a|] == more[0];
  }

  /** Digits end where something else begins. */
  lemma SameDigits(a: string, b: string, more: string, rest: string, whole: string)
    requires AllDigits(a) && AllDigits(b) && whole == a + more && whole == b + rest
    requires more != [] && rest != [] && !IsDigit(more[0]) && !IsDigit(rest[0])
    ensures a == b && more == rest
  {
    DigitsReachAsFar(a, b, more, rest, whole);
    DigitsReachAsFar(b, a, rest, more, whole);
    assert whole[..|a|] == a && whole[..|b|] == b && whole[|a|..] == more && whole[|b|..] == rest;
  }

  lemma SameSegments(a: string, i: string, b: string, j: string, s: string)
    requires AllDigits(a) && AllDigits(b) && AllDigits(i) && AllDigits(j)
    requires s == a + ("[" + (i + "]")) && s == b + ("[" + (j + "]"))
    ensures a == b && i == j
  {
    var more, rest := "[" + (i + "]"), "[" + (j + "]");
    SameDigits(a, b, more, rest, s);
    assert more[1..] == i + "]" && more[1..] == j + "]";
    SameDigits(i, j, "]", "]", more[1..]);
  }

  lemma AfterMark(mark: string, digits: string, open: string, tail: string, close: string, segment: string, parent: string,
      path: string)
    requires segment == mark + digits + open + tail + close && path == parent + segment
    ensures |parent| + |mark| <= |path| && path[|parent| + |mark|..] == digits + (open + (tail + close))
  {
    assert path == (parent + mark) + (digits + (open + (tail + close)));
  }

  lemma SegmentTail(parent: string, command: u32, index: u32, path: string)
    requires path == Child(parent, command, index)
    ensures |path| >= |parent| + 4
    ensures path[|parent| + 4..] == Decimal(command) + ("[" + (Decimal(index) + "]"))
  {
    AfterMark(".cmd", Decimal(command), "[", Decimal(index), "]", Segment(command, index), parent, path);
  }

  /** Objects returned to one parent are told apart: by the command that returned them and by their place in its response. */
  lemma SiblingsDiffer(parent: string, command: u32, index: u32, command': u32, index': u32)
    requires Child(parent, command, index) == Child(parent, command', index')
    ensures command == command' && index == index'
  {
    var path := Child(parent, command, index);
    SegmentTail(parent, command, index, path);
    SegmentTail(parent, command', index', path);
    SameSegments(Decimal(command), Decimal(index), Decimal(command'), Decimal(index'), path[|parent| + 4..]);
    assert DigitsValue(Decimal(command)) == command && DigitsValue(Decimal(index)) == index;
  }

  // What strtoul reads, whatever stands in the path.

  /** Nothing but the six white-space characters of C. */
  predicate IsWhite(s: string) {
    forall k :: 0 <= k < |s| ==> s[k] == ' ' || 9 <= s[k] as int <= 13
  }

  /** The number that a sign and digits stand for, in 64 bits. */
  function Signed64(sign: string, digits: string): int
    requires AllDigits(digits)
  {
    var n := DigitsValue(digits);
    if n > 0xFFFF_FFFF_FFFF_FFFF then 0xFFFF_FFFF_FFFF_FFFF
    else if sign == "-" && n > 0 then 0x1_0000_0000_0000_0000 - n
    else n
  }

  lemma SkipSpaceIs(s: string, from: nat, i: nat)
    requires from <= i <= |s| && IsWhite(s[from..i]) && (i < |s| ==> !IsWhite([s[i]]))
    ensures SkipSpace(s, from) == i
    decreases i - from
  {
    if from < i {
      assert s[from] == s[from..i][0];
      assert s[from + 1..i] == s[from..i][1..];
      SkipSpaceIs(s, from + 1, i);
    } else if i < |s| {
      assert [s[i]][0] == s[i];
    }
  }

  /** Any white space, an optional sign, then digits up to something else: the value wraps for a minus and saturates. */
  lemma StrtoulReads(s: string, from: nat, start: nat, sign: string, digits: string, end: nat)
    requires from <= start && start + |sign| < end <= |s| && IsWhite(s[from..start])
    requires sign == "" || sign == "+" || sign == "-"
    requires s[start..start + |sign|] == sign && s[start + |sign|..end] == digits && AllDigits(digits)
    requires end < |s| ==> !IsDigit(s[end])
    ensures Strtoul(s, from) == Number(Signed64(sign, digits), end)
  {
    var at := start + |sign|;
    assert s[at] == digits[0] && IsDigit(digits[0]);
    assert s[start] == (if sign == "" then digits[0] else sign[0]);
    assert [s[start]][0] == s[start] && !IsWhite([s[start]]);
    SkipSpaceIs(s, from, start);
    DigitsEndIs(s, at, end);
  }

  /** Without a digit behind the white space and the sign there is no number. */
  lemma StrtoulNeedsDigits(s: string, from: nat, start: nat, sign: string)
    requires from <= start && start + |sign| <= |s| && IsWhite(s[from..start])
    requires sign == "" || sign == "+" || sign == "-"
    requires s[start..start + |sign|] == sign
    requires start + |sign| < |s| ==> !IsDigit(s[start + |sign|])
    requires sign == "" && start < |s| ==> !IsWhite([s[start]]) && s[start] != '+' && s[start] != '-'
    ensures Strtoul(s, from) == NoNumber
  {
    if sign != "" {
      assert s[start] == sign[0];
      assert [s[start]][0] == s[start] && !IsWhite([s[start]]);
    }
    SkipSpaceIs(s, from, start);
    DigitsEndIs(s, start + |sign|, start + |sign|);
  }
}
