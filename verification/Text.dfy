/** The character-level primitives shared by the configuration file and the response parsers. A `char` is one byte. */
module Text {
  import opened Wrappers

  const NUL: char := '\0'

  predicate IsSpace(c: char) {
    c == ' ' || c == '\t' || c == '\r' || c == '\n'
  }

  predicate IsDigit(c: char) {
    '0' <= c <= '9'
  }

  /** Index of the first `c` in `s` at or after `from`, or |s| when there is none. */
  function Find(s: string, c: char, from: nat): (i: nat)
    requires from <= |s|
    ensures from <= i <= |s|
    ensures forall k :: from <= k < i ==> s[k] != c
    ensures i < |s| ==> s[i] == c
    decreases |s| - from
  {
    if from == |s| || s[from] == c then from else Find(s, c, from + 1)
  }

  function IndexOf(s: string, c: char): (i: nat)
    ensures i <= |s|
    ensures forall k :: 0 <= k < i ==> s[k] != c
    ensures i < |s| ==> s[i] == c
  {
    Find(s, c, 0)
  }

  lemma FindUnique(s: string, c: char, from: nat, i: nat)
    requires from <= i <= |s|
    requires forall k :: from <= k < i ==> s[k] != c
    requires i < |s| ==> s[i] == c
    ensures Find(s, c, from) == i
  {
    var j := Find(s, c, from);
    assert !(j < i) && !(i < j);
  }

  lemma IndexOfUnique(s: string, c: char, i: nat)
    requires i <= |s|
    requires forall k :: 0 <= k < i ==> s[k] != c
    requires i < |s| ==> s[i] == c
    ensures IndexOf(s, c) == i
  {
    FindUnique(s, c, 0, i);
  }

  /** What a C string function sees of a buffer: everything before the first NUL. */
  function CString(s: string): string {
    s[..IndexOf(s, NUL)]
  }

  /** Index of the first character that is not white space, or |s|. */
  function FirstVisible(s: string, from: nat): (i: nat)
    requires from <= |s|
    ensures from <= i <= |s|
    ensures i < |s| ==> !IsSpace(s[i])
    ensures forall k :: from <= k < i ==> IsSpace(s[k])
    decreases |s| - from
  {
    if from == |s| || !IsSpace(s[from]) then from else FirstVisible(s, from + 1)
  }

  /** One past the last character before `limit`, and not before `from`, that is not white space. */
  function VisibleEnd(s: string, from: nat, limit: nat): (i: nat)
    requires from <= limit <= |s|
    ensures from <= i <= limit
    ensures i > from ==> !IsSpace(s[i - 1])
    ensures forall k :: i <= k < limit ==> IsSpace(s[k])
    decreases limit
  {
    if limit == from || !IsSpace(s[limit - 1]) then limit else VisibleEnd(s, from, limit - 1)
  }

  function Trim(s: string): string {
    var first := FirstVisible(s, 0);
    s[first..VisibleEnd(s, first, |s|)]
  }

  /** No white space at either end: the strings that trimming leaves alone. */
  predicate Trimmed(s: string) {
    s == [] || (!IsSpace(s[0]) && !IsSpace(s[|s| - 1]))
  }

  lemma TrimIsTrimmed(s: string)
    ensures Trimmed(Trim(s))
    ensures forall c :: c in Trim(s) ==> c in s
  {
    var first := FirstVisible(s, 0);
    var end := VisibleEnd(s, first, |s|);
    if first < |s| {
      assert end > first;
    }
  }

  /** Trimming a line whose only surrounding space is an optional newline gives back the text before it. */
  lemma TrimOfLine(s: string, line: string)
    requires Trimmed(s) && s != []
    requires line == s || line == s + "\n"
    ensures Trim(line) == s
  {
    var first := FirstVisible(line, 0);
    var end := VisibleEnd(line, first, |line|);
    assert line[0] == s[0] && line[|s| - 1] == s[|s| - 1];
    assert first == 0;
    assert end == |s|;
  }

  predicate AllDigits(s: string) {
    forall i :: 0 <= i < |s| ==> IsDigit(s[i])
  }

  function DigitsValue(s: string): nat
    requires AllDigits(s)
  {
    if s == [] then 0 else DigitsValue(s[..|s| - 1]) * 10 + (s[|s| - 1] - '0') as int
  }

  /** Decimal notation, as the %u and %zu conversions print it. */
  function Decimal(n: nat): (s: string)
    ensures s != [] && AllDigits(s)
    ensures DigitsValue(s) == n
  {
    var digit := ('0' as int + n % 10) as char;
    if n < 10 then
      assert DigitsValue([]) == 0;
      [digit]
    else
      var s := Decimal(n / 10) + [digit];
      assert s[..|s| - 1] == Decimal(n / 10);
      s
  }

  /** An unsigned conversion that must consume the whole text and fit below `bound`: no sign, no space. */
  function ParseUnsigned(s: string, bound: nat): Option<nat> {
    if s != [] && AllDigits(s) && DigitsValue(s) < bound then Some(DigitsValue(s)) else None
  }

  predicate StartsWith(s: string, prefix: string) {
    |prefix| <= |s| && s[..|prefix|] == prefix
  }
}
