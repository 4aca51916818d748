/** Spaces, tabs and carriage returns around keys, values and lines: what a person or another editor adds changes nothing. */
module ConfigSpacing {
  import opened Bytes
  import opened ConfigFile
  import opened Lines
  import opened RuntimeConfig
  import opened Text
  import opened Wrappers

  /** White space within a line. */
  predicate Blanks(s: string) {
    forall k :: 0 <= k < |s| ==> s[k] == ' ' || s[k] == '\t' || s[k] == '\r'
  }

  predicate AllSpace(s: string) {
    forall k :: 0 <= k < |s| ==> IsSpace(s[k])
  }

  lemma BlanksAreSpace(s: string)
    requires Blanks(s)
    ensures AllSpace(s) && '\n' !in s && '=' !in s && NUL !in s
  {
  }

  lemma FirstVisibleIs(s: string, from: nat, i: nat)
    requires from <= i <= |s| && (i < |s| ==> !IsSpace(s[i])) && forall k :: from <= k < i ==> IsSpace(s[k])
    ensures FirstVisible(s, from) == i
  {
    var j := FirstVisible(s, from);
    assert !(j < i) && !(i < j);
  }

  lemma VisibleEndIs(s: string, from: nat, limit: nat, i: nat)
    requires from <= i <= limit <= |s| && (i > from ==> !IsSpace(s[i - 1])) && forall k :: i <= k < limit ==> IsSpace(s[k])
    ensures VisibleEnd(s, from, limit) == i
  {
    var j := VisibleEnd(s, from, limit);
    assert !(j < i) && !(i < j);
  }

  lemma TrimAround(before: string, s: string, after: string, all: string)
    requires AllSpace(before) && AllSpace(after) && Trimmed(s) && s != "" && all == before + s + after
    ensures Trim(all) == s
  {
    var first, end := |before|, |before| + |s|;
    assert all[first] == s[0] && all[end - 1] == s[|s| - 1];
    assert forall k :: 0 <= k < first ==> all[k] == before[k];
    assert forall k :: end <= k < |all| ==> all[k] == after[k - end];
    FirstVisibleIs(all, 0, first);
    VisibleEndIs(all, first, |all|, end);
    assert all[first..end] == s;
  }

  lemma WithoutNul(line: string)
    requires NUL !in line
    ensures CString(line) == line
  {
    IndexOfUnique(line, NUL, |line|);
  }

  lemma KeyTrims(key: string, b: string, left: string)
    requires Blanks(b) && PlainKey(key) && left == key + b
    ensures Trim(left) == key && '=' !in left
  {
    BlanksAreSpace(b);
    assert left == [] + key + b;
    TrimAround([], key, b, left);
  }

  lemma ValueTrims(c: string, value: string, right: string)
    requires Blanks(c) && PlainText(value) && value != "" && right == c + value
    ensures Trim(right) == value
  {
    BlanksAreSpace(c);
    assert right == c + value + [];
    TrimAround(c, value, [], right);
  }

  lemma SpacedSides(key: string, b: string, c: string, value: string, trimmed: string)
    requires Blanks(b) && Blanks(c) && PlainKey(key) && PlainText(value) && value != ""
    requires trimmed == key + b + "=" + c + value
    ensures IndexOf(trimmed, '=') == |key| + |b| < |trimmed|
    ensures Trim(trimmed[..|key| + |b|]) == key && Trim(trimmed[|key| + |b| + 1..]) == value
  {
    var left, right := key + b, c + value;
    KeyTrims(key, b, left);
    ValueTrims(c, value, right);
    assert trimmed == left + "=" + right;
    SplitAtEquals(left, right);
  }

  lemma SpacedTrimmed(key: string, b: string, c: string, value: string, trimmed: string)
    requires Blanks(b) && Blanks(c) && PlainKey(key) && PlainText(value) && value != ""
    requires trimmed == key + b + "=" + c + value
    ensures InterpretTrimmed(trimmed) == Asked(key, value)
  {
    assert trimmed[0] == key[0];
    SpacedSides(key, b, c, value, trimmed);
    AsksFor(trimmed, |key| + |b|, key, value);
  }

  lemma PlainJoin(a: string, b: string)
    requires '\n' !in a && NUL !in a && '\n' !in b && NUL !in b
    ensures '\n' !in a + b && NUL !in a + b
  {
  }

  lemma MiddleIsPlain(key: string, b: string, c: string, value: string, middle: string)
    requires Blanks(b) && Blanks(c) && PlainKey(key) && PlainText(value) && value != ""
    requires middle == key + b + "=" + c + value
    ensures PlainText(middle) && middle != ""
  {
    BlanksAreSpace(b);
    BlanksAreSpace(c);
    PlainJoin(key, b);
    PlainJoin(key + b, "=");
    PlainJoin(key + b + "=", c);
    PlainJoin(key + b + "=" + c, value);
    assert middle[0] == key[0] && middle[|middle| - 1] == value[|value| - 1];
  }

  lemma RawTrims(a: string, middle: string, d: string, raw: string)
    requires Blanks(a) && Blanks(d) && PlainText(middle) && middle != ""
    requires raw == a + middle + d || raw == a + middle + d + "\n"
    ensures Trim(CString(raw)) == middle
  {
    BlanksAreSpace(a);
    BlanksAreSpace(d);
    PlainJoin(a, middle);
    PlainJoin(a + middle, d);
    assert NUL !in raw;
    WithoutNul(raw);
    if raw == a + middle + d {
      TrimAround(a, middle, d, raw);
    } else {
      assert raw == a + middle + (d + "\n");
      TrimAround(a, middle, d + "\n", raw);
    }
  }

  /**
   * A setting is read the same with any spaces, tabs and carriage returns around its key and its value, at the end of
   * the file also without the newline.
   */
  lemma SpacedLineReads(a: string, key: string, b: string, c: string, value: string, d: string, raw: string)
    requires Blanks(a) && Blanks(b) && Blanks(c) && Blanks(d)
    requires PlainKey(key) && PlainText(value) && value != ""
    requires
      var line := a + (key + b + "=" + c + value) + d;
      raw == line || raw == line + "\n"
    ensures Interpret(raw) == Assign(key, Recognize(key), value)
  {
    var middle := key + b + "=" + c + value;
    MiddleIsPlain(key, b, c, value, middle);
    RawTrims(a, middle, d, raw);
    SpacedTrimmed(key, b, c, value, middle);
  }

  // Files written with carriage returns.

  lemma TrimIgnoresEnd(s: string, tail: string, all: string)
    requires AllSpace(tail) && all == s + tail
    ensures Trim(all) == Trim(s)
  {
    var first := FirstVisible(s, 0);
    var end := VisibleEnd(s, first, |s|);
    assert forall k :: 0 <= k < |s| ==> all[k] == s[k];
    assert forall k :: |s| <= k < |all| ==> all[k] == tail[k - |s|];
    if first == |s| {
      FirstVisibleIs(all, 0, |all|);
      VisibleEndIs(all, |all|, |all|, |all|);
    } else {
      FirstVisibleIs(all, 0, first);
      VisibleEndIs(all, first, |all|, end);
      assert all[first..end] == s[first..end];
    }
  }

  lemma NulCutsFirst(line: string, tail: string, i: nat)
    requires i == IndexOf(line, NUL) && i < |line|
    ensures CString(line + tail) == line[..i]
  {
    var all := line + tail;
    assert forall k :: 0 <= k < |line| ==> all[k] == line[k];
    IndexOfUnique(all, NUL, i);
    assert all[..i] == line[..i];
  }

  lemma SameVisible(line: string)
    ensures Trim(CString(line + "\r\n")) == Trim(CString(line + "\n"))
  {
    var i := IndexOf(line, NUL);
    if i < |line| {
      NulCutsFirst(line, "\r\n", i);
      NulCutsFirst(line, "\n", i);
    } else {
      WithoutNul(line + "\r\n");
      WithoutNul(line + "\n");
      TrimIgnoresEnd(line, "\r\n", line + "\r\n");
      TrimIgnoresEnd(line, "\n", line + "\n");
    }
  }

  /** A line that ends with a carriage return and a newline reads as the line that ends with a newline alone. */
  lemma ReturnReads(line: string, ended: string)
    requires ended == line + "\r"
    ensures Interpret(ended + "\n") == Interpret(line + "\n")
  {
    assert ended + "\n" == line + "\r\n";
    SameVisible(line);
  }

  /** The same lines, each with a carriage return before its newline. */
  predicate WithReturns(lines: seq<string>, ended: seq<string>) {
    |ended| == |lines| && forall i :: 0 <= i < |lines| ==> ended[i] == lines[i] + "\r"
  }

  lemma {:induction false} ReturnsRead(lines: seq<string>, ended: seq<string>)
    requires WithReturns(lines, ended)
    requires forall i :: 0 <= i < |ended| ==> FitsLine(lines[i]) && FitsLine(ended[i])
    ensures MapLines(Interpret, JoinLines(ended)) == MapLines(Interpret, JoinLines(lines))
  {
    if lines != [] {
      ReturnReads(lines[0], ended[0]);
      MapFirstLine(Interpret, lines[0], JoinLines(lines[1..]), JoinLines(lines));
      MapFirstLine(Interpret, ended[0], JoinLines(ended[1..]), JoinLines(ended));
      ReturnsRead(lines[1..], ended[1..]);
    }
  }

  /** A file written with carriage returns loads as the one without, whatever its lines, as long as they fit the buffer. */
  lemma ReturnsLoadTheSame(defaults: Config, lines: seq<string>, ended: seq<string>)
    requires defaults.profiles != [] && WithReturns(lines, ended)
    requires forall i :: 0 <= i < |ended| ==> FitsLine(lines[i]) && FitsLine(ended[i])
    ensures Load(defaults, Contents(JoinLines(ended))) == Load(defaults, Contents(JoinLines(lines)))
  {
    ReturnsRead(lines, ended);
  }
}
