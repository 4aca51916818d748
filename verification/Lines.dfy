/** Texts as sequences of lines, as a bounded line buffer delivers them. */
module Lines {
  import opened Text

  const LINE_BUFFER_SIZE: nat := 512

  /** How much one bounded line read takes: up to and including a newline, but never the whole buffer. */
  function LineLength(text: string): (n: nat)
    requires text != ""
    ensures 1 <= n <= |text|
  {
    var newline := IndexOf(text, '\n');
    var whole := if newline < |text| then newline + 1 else |text|;
    if whole <= LINE_BUFFER_SIZE - 1 then whole else LINE_BUFFER_SIZE - 1
  }

  /** One read stops behind the first newline, at the end of the text, or after 511 characters. */
  lemma OneRead(text: string)
    requires text != ""
    ensures 1 <= LineLength(text) <= 511 && LineLength(text) <= |text|
    ensures forall k :: 0 <= k < LineLength(text) - 1 ==> text[k] != '\n'
    ensures LineLength(text) == |text| || LineLength(text) == 511 || text[LineLength(text) - 1] == '\n'
  {
  }

  /** What `f` makes of each line in turn. */
  function MapLines<T>(f: string -> T, text: string): seq<T>
    decreases |text|
  {
    if text == "" then [] else [f(text[..LineLength(text)])] + MapLines(f, text[LineLength(text)..])
  }

  function JoinLines(lines: seq<string>): string {
    if lines == [] then "" else lines[0] + "\n" + JoinLines(lines[1..])
  }

  /** A line that one read returns whole. */
  predicate FitsLine(line: string) {
    '\n' !in line && |line| < LINE_BUFFER_SIZE - 1
  }

  lemma FirstLine(line: string, rest: string)
    requires FitsLine(line)
    ensures var text := line + "\n" + rest;
            LineLength(text) == |line| + 1 && text[..|line| + 1] == line + "\n" && text[|line| + 1..] == rest
  {
    var text := line + "\n" + rest;
    assert forall k :: 0 <= k < |line| ==> text[k] == line[k];
    IndexOfUnique(text, '\n', |line|);
  }

  lemma MapFirstLine<T>(f: string -> T, line: string, rest: string, text: string)
    requires FitsLine(line) && text == line + "\n" + rest
    ensures MapLines(f, text) == [f(line + "\n")] + MapLines(f, rest)
  {
    FirstLine(line, rest);
  }

  /** Reading joined lines sees each of them once, in order. */
  lemma {:induction false} MapJoinedLines<T>(f: string -> T, lines: seq<string>)
    requires forall i :: 0 <= i < |lines| ==> FitsLine(lines[i])
    ensures |MapLines(f, JoinLines(lines))| == |lines|
    ensures forall i :: 0 <= i < |lines| ==> MapLines(f, JoinLines(lines))[i] == f(lines[i] + "\n")
  {
    if lines != [] {
      MapFirstLine(f, lines[0], JoinLines(lines[1..]), JoinLines(lines));
      MapJoinedLines(f, lines[1..]);
    }
  }

  /** Only the last character of a delivered line can be a newline. */
  predicate EndsAtNewline(raw: string) {
    forall k :: 0 <= k < |raw| - 1 ==> raw[k] != '\n'
  }

  lemma {:induction false} LinesEndAtNewlines<T>(f: string -> T, p: T -> bool, text: string)
    requires forall raw :: EndsAtNewline(raw) ==> p(f(raw))
    ensures forall i :: 0 <= i < |MapLines(f, text)| ==> p(MapLines(f, text)[i])
    decreases |text|
  {
    if text != "" {
      var n := LineLength(text);
      assert EndsAtNewline(text[..n]);
      LinesEndAtNewlines(f, p, text[n..]);
    }
  }
}
