/** The two dotted-quad validators of the toolbox, proved to accept the same strings. */
module Ipv4Text {
  import opened Text
  import opened Wrappers

  /** One to three digits naming a number of at most 255. */
  predicate IsOctet(s: string) {
    1 <= |s| <= 3 && AllDigits(s) && DigitsValue(s) <= 255
  }

  /** From `from` on, `s` is `dots` + 1 octets with single dots between them. */
  predicate IsDotted(s: string, from: nat, dots: nat)
    requires from <= |s|
    decreases |s| - from
  {
    var dot := Find(s, '.', from);
    if dots == 0 then IsOctet(s[from..])
    else dot < |s| && IsOctet(s[from..dot]) && IsDotted(s, dot + 1, dots - 1)
  }

  predicate IsDottedQuad(s: string) {
    IsDotted(s, 0, 3)
  }

  /** The same grammar on a text that starts with the first group. */
  predicate DottedText(t: string, dots: nat) {
    var dot := IndexOf(t, '.');
    if dots == 0 then IsOctet(t)
    else dot < |t| && IsOctet(t[..dot]) && DottedText(t[dot + 1..], dots - 1)
  }

  lemma FirstGroup(s: string, from: nat, dot: nat)
    requires from <= |s| && dot == Find(s, '.', from)
    ensures IndexOf(s[from..], '.') == dot - from && s[from..][..dot - from] == s[from..dot]
    ensures dot < |s| ==> s[from..][dot - from + 1..] == s[dot + 1..]
  {
    var t := s[from..];
    assert forall k :: 0 <= k < |t| ==> t[k] == s[from + k];
    IndexOfUnique(t, '.', dot - from);
  }

  lemma DottedUnfolds(s: string, from: nat, dots: nat, dot: nat)
    requires from <= |s| && dots > 0 && dot == Find(s, '.', from)
    ensures IsDotted(s, from, dots) <==> dot < |s| && IsOctet(s[from..dot]) && IsDotted(s, dot + 1, dots - 1)
  {
  }

  /** Only the part behind the starting position matters. */
  lemma {:induction false} DottedIsText(s: string, from: nat, dots: nat)
    requires from <= |s|
    ensures IsDotted(s, from, dots) <==> DottedText(s[from..], dots)
    decreases dots
  {
    if dots > 0 {
      var dot := Find(s, '.', from);
      FirstGroup(s, from, dot);
      DottedUnfolds(s, from, dots, dot);
      if dot < |s| {
        DottedIsText(s, dot + 1, dots - 1);
      }
    }
  }

  lemma OctetThenRest(a: string, rest: string, s: string, dots: nat)
    requires IsOctet(a) && s == a + "." + rest
    ensures IsDotted(s, 0, dots + 1) <==> IsDotted(rest, 0, dots)
  {
    assert forall k :: 0 <= k < |a| ==> s[k] == a[k] && IsDigit(a[k]);
    FindUnique(s, '.', 0, |a|);
    assert s[0..|a|] == a && s[|a| + 1..] == rest[0..];
    DottedIsText(s, |a| + 1, dots);
    DottedIsText(rest, 0, dots);
  }

  /** Four octets joined by dots. */
  predicate IsQuadOf(s: string, a: string, b: string, c: string, d: string) {
    IsOctet(a) && IsOctet(b) && IsOctet(c) && IsOctet(d) && s == a + "." + (b + "." + (c + "." + d))
  }

  lemma QuadIsDotted(s: string, a: string, b: string, c: string, d: string)
    requires IsQuadOf(s, a, b, c, d)
    ensures IsDottedQuad(s)
  {
    var cd := c + "." + d;
    var bcd := b + "." + cd;
    assert IsDotted(d, 0, 0) by { assert d[0..] == d; }
    OctetThenRest(c, d, cd, 0);
    OctetThenRest(b, cd, bcd, 1);
    OctetThenRest(a, bcd, s, 2);
  }

  lemma DottedIsQuad(s: string) returns (a: string, b: string, c: string, d: string)
    requires IsDottedQuad(s)
    ensures IsQuadOf(s, a, b, c, d)
  {
    var i := Find(s, '.', 0);
    assert IsDotted(s, i + 1, 2);
    var j := Find(s, '.', i + 1);
    assert IsDotted(s, j + 1, 1);
    var k := Find(s, '.', j + 1);
    assert IsDotted(s, k + 1, 0);
    a, b, c, d := s[0..i], s[i + 1..j], s[j + 1..k], s[k + 1..];
    JoinFour(s, i, j, k);
  }

  lemma JoinFour(s: string, i: nat, j: nat, k: nat)
    requires i < j < k < |s| && s[i] == s[j] == s[k] == '.'
    ensures s == s[0..i] + "." + (s[i + 1..j] + "." + (s[j + 1..k] + "." + s[k + 1..]))
  {
    assert s[j + 1..] == s[j + 1..k] + "." + s[k + 1..];
    assert s[i + 1..] == s[i + 1..j] + "." + s[j + 1..];
    assert s == s[0..i] + "." + s[i + 1..];
  }

  /** The grammar in one line: exactly four octets joined by dots. */
  lemma DottedQuadMeaning(s: string)
    ensures IsDottedQuad(s) <==> exists a, b, c, d :: IsQuadOf(s, a, b, c, d)
  {
    if IsDottedQuad(s) {
      var a, b, c, d := DottedIsQuad(s);
    }
    forall a, b, c, d | IsQuadOf(s, a, b, c, d)
      ensures IsDottedQuad(s)
    {
      QuadIsDotted(s, a, b, c, d);
    }
  }

  /** What a dotted text may contain, hence how long it can get and how it survives printing. */
  lemma {:induction false} DottedShape(s: string, from: nat, dots: nat)
    requires from <= |s| && IsDotted(s, from, dots)
    ensures 1 <= |s| - from <= 4 * dots + 3
    ensures forall k :: from <= k < |s| ==> IsDigit(s[k]) || s[k] == '.'
    ensures IsDigit(s[from]) && IsDigit(s[|s| - 1])
    decreases dots
  {
    if dots == 0 {
      assert forall k :: from <= k < |s| ==> s[k] == s[from..][k - from];
    } else {
      var dot := Find(s, '.', from);
      assert forall k :: from <= k < dot ==> s[k] == s[from..dot][k - from];
      DottedShape(s, dot + 1, dots - 1);
    }
  }

  /** At most three digits never overflow the 32-bit accumulator. */
  lemma OctetParse(s: string)
    requires 1 <= |s| <= 3
    ensures IsOctet(s) <==> ParseUnsigned(s, 0x1_0000_0000).Some? && ParseUnsigned(s, 0x1_0000_0000).value <= 255
  {
  }

  lemma DottedStep(text: string, offset: nat, dots: nat, dot: nat)
    requires offset <= |text| && dot == Find(text, '.', offset)
    ensures (dots == 0) != (dot == |text|) || dot == offset || dot - offset > 3 ==> !IsDotted(text, offset, dots)
    ensures dots == 0 && dot == |text| ==> (IsDotted(text, offset, dots) <==> IsOctet(text[offset..dot]))
    ensures dots > 0 && dot < |text| ==>
              (IsDotted(text, offset, dots) <==> IsOctet(text[offset..dot]) && IsDotted(text, dot + 1, dots - 1))
  {
    if dots == 0 && dot < |text| {
      assert text[offset..][dot - offset] == '.';
    }
    if dot == |text| {
      assert text[offset..dot] == text[offset..];
    }
  }

  /** One component: from `offset` to the next dot, or to the end when it is the last. */
  method TakeComponent(text: string, offset: nat, dots: nat) returns (valid: bool, end: nat)
    requires offset <= |text|
    ensures !valid ==> !IsDotted(text, offset, dots)
    ensures valid && dots == 0 ==> end == |text| && IsDotted(text, offset, dots)
    ensures valid && dots > 0 ==> end < |text| && (IsDotted(text, offset, dots) <==> IsDotted(text, end + 1, dots - 1))
  {
    var separator := Find(text, '.', offset);
    DottedStep(text, offset, dots, separator);
    if (dots == 0) != (separator == |text|) {
      return false, 0;
    }
    end := if dots == 0 then |text| else separator;
    if end == offset || end - offset > 3 {
      return false, 0;
    }
    OctetParse(text[offset..end]);
    var octet := ParseUnsigned(text[offset..end], 0x1_0000_0000);
    valid := octet.Some? && octet.value <= 255;
  }

  /** Before component `index`; after the last one the offset is one past the end of the text. */
  ghost predicate Taken(text: string, offset: nat, index: nat, dotted: bool) {
    if index < 4 then offset <= |text| && (dotted <==> IsDotted(text, offset, 3 - index))
    else index == 4 && offset == |text| + 1 && dotted
  }

  lemma TakenNext(text: string, offset: nat, index: nat, dotted: bool, end: nat)
    requires Taken(text, offset, index, dotted) && index < 4
    requires if index == 3 then end == |text| && IsDotted(text, offset, 0)
      else end < |text| && (IsDotted(text, offset, 3 - index) <==> IsDotted(text, end + 1, 3 - index - 1))
    ensures Taken(text, end + 1, index + 1, dotted)
  {
  }

  /** The settings-file validator: find the next dot, parse the piece before it, four times. */
  method IsValidIpv4(text: string) returns (valid: bool)
    ensures valid <==> IsDottedQuad(text)
  {
    ghost var dotted: bool := IsDottedQuad(text);
    var offset := 0;
    var index := 0;
    while index < 4
      invariant 0 <= index <= 4 && 0 <= offset
      invariant Taken(text, offset, index, dotted)
    {
      var valid, end := TakeComponent(text, offset, 3 - index);
      if !valid {
        return false;
      }
      TakenNext(text, offset, index, dotted, end);
      offset := end + 1;
      index := index + 1;
    }
    valid := offset == |text| + 1;
  }

  /** What the one-pass validator knows: `octets` groups are complete and the open one, from `start` on, has digits only. */
  ghost predicate Scanned(address: string, start: nat, i: nat, octets: nat) {
    && start <= i <= |address| && i - start <= 3 && octets <= 3
    && AllDigits(address[start..i])
    && (IsDottedQuad(address) <==> IsDotted(address, start, 3 - octets))
  }

  lemma ScanDot(address: string, start: nat, i: nat, octets: nat)
    requires Scanned(address, start, i, octets) && i < |address| && address[i] == '.'
    ensures i == start || DigitsValue(address[start..i]) > 255 || octets == 3 ==> !IsDottedQuad(address)
    ensures i > start && DigitsValue(address[start..i]) <= 255 && octets < 3 ==> Scanned(address, i + 1, i + 1, octets + 1)
  {
    assert forall k :: start <= k < i ==> address[k] == address[start..i][k - start];
    FindUnique(address, '.', start, i);
    DottedStep(address, start, 3 - octets, i);
  }

  lemma ScanForeign(address: string, start: nat, i: nat, octets: nat)
    requires Scanned(address, start, i, octets) && i < |address|
    requires address[i] != '.' && (!IsDigit(address[i]) || i - start == 3)
    ensures !IsDottedQuad(address)
  {
    var dot := Find(address, '.', start);
    assert forall k :: start <= k < i ==> address[k] == address[start..i][k - start];
    assert dot > i;
    DottedStep(address, start, 3 - octets, dot);
    assert address[start..dot][i - start] == address[i];
  }

  lemma ScanDigit(address: string, start: nat, i: nat, octets: nat)
    requires Scanned(address, start, i, octets) && i < |address| && IsDigit(address[i]) && i - start < 3
    ensures Scanned(address, start, i + 1, octets)
    ensures DigitsValue(address[start..i + 1]) == DigitsValue(address[start..i]) * 10 + (address[i] - '0') as int
  {
    var longer := address[start..i + 1];
    assert longer[..|longer| - 1] == address[start..i];
    assert forall k :: 0 <= k < |longer| ==> IsDigit(longer[k]);
  }

  lemma ScanEnd(address: string, start: nat, octets: nat)
    requires Scanned(address, start, |address|, octets)
    ensures IsDottedQuad(address) <==> octets == 3 && start < |address| && DigitsValue(address[start..|address|]) <= 255
  {
    assert forall k :: start <= k < |address| ==> address[k] == address[start..|address|][k - start];
    FindUnique(address, '.', start, |address|);
    DottedStep(address, start, 3 - octets, |address|);
  }

  /** The counters of the open group. */
  ghost predicate Counted(address: string, start: nat, i: nat, octets: nat, value: nat, digits: nat) {
    Scanned(address, start, i, octets) && digits == i - start && value == DigitsValue(address[start..i])
  }

  lemma AtDot(address: string, start: nat, i: nat, octets: nat, value: nat, digits: nat)
    requires Counted(address, start, i, octets, value, digits) && i < |address| && address[i] == '.'
    ensures if digits == 0 || value > 255 || octets == 3 then !IsDottedQuad(address)
      else Counted(address, i + 1, i + 1, octets + 1, 0, 0)
  {
    ScanDot(address, start, i, octets);
    assert address[i + 1..i + 1] == "";
  }

  lemma AtForeign(address: string, start: nat, i: nat, octets: nat, value: nat, digits: nat)
    requires Counted(address, start, i, octets, value, digits) && i < |address|
    requires address[i] != '.' && (!IsDigit(address[i]) || digits == 3)
    ensures !IsDottedQuad(address)
  {
    ScanForeign(address, start, i, octets);
  }

  lemma AtDigit(address: string, start: nat, i: nat, octets: nat, value: nat, digits: nat)
    requires Counted(address, start, i, octets, value, digits) && i < |address| && IsDigit(address[i]) && digits < 3
    ensures Counted(address, start, i + 1, octets, value * 10 + (address[i] - '0') as int, digits + 1)
  {
    ScanDigit(address, start, i, octets);
  }

  lemma AtEnd(address: string, start: nat, octets: nat, value: nat, digits: nat)
    requires Counted(address, start, |address|, octets, value, digits)
    ensures IsDottedQuad(address) <==> octets == 3 && digits > 0 && value <= 255
  {
    ScanEnd(address, start, octets);
  }

  /** The response validator: one pass over the characters, counting digits and dots. */
  method IsIpv4Address(address: string) returns (valid: bool)
    ensures valid <==> IsDottedQuad(address)
  {
    var octets, value, digits := 0, 0, 0;
    ghost var start := 0;
    var i := 0;
    while i < |address|
      invariant 0 <= start <= i <= |address| && 0 <= octets && 0 <= value && 0 <= digits <= 3
      invariant Counted(address, start, i, octets, value, digits)
    {
      var ch := address[i];
      if ch == '.' {
        AtDot(address, start, i, octets, value, digits);
        if digits == 0 || value > 255 || octets == 3 {
          return false;
        }
        octets, value, digits, start := octets + 1, 0, 0, i + 1;
        i := i + 1;
        continue;
      }
      if ch < '0' || ch > '9' {
        AtForeign(address, start, i, octets, value, digits);
        return false;
      }
      digits := digits + 1;
      if digits > 3 {
        AtForeign(address, start, i, octets, value, digits - 1);
        return false;
      }
      AtDigit(address, start, i, octets, value, digits - 1);
      value := value * 10 + (ch - '0') as int;
      i := i + 1;
    }
    AtEnd(address, start, octets, value, digits);
    valid := octets == 3 && digits > 0 && value <= 255;
  }
}
