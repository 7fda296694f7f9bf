/** The handful of Python `str` operations the adapters use to take scheduler output apart,
    written out over `seq<char>`: `strip()`, `split(sep)`, `split()`, `splitlines()`,
    `lower()`, `int(s)` and `str(n)`. They keep CPython's white-space and line-boundary sets;
    `lower()` maps ASCII letters only, and `int(s)` reads ASCII digits without underscores. */
module PyText {
  import opened Wrappers

  /** The characters for which `str.isspace()` holds. */
  predicate IsSpace(c: char) {
    || c == ' '
    || ('\t' <= c <= '\r')
    || ('\U{1C}' <= c <= '\U{1F}')
    || c == '\U{85}' || c == '\U{A0}' || c == '\U{1680}'
    || ('\U{2000}' <= c <= '\U{200A}')
    || c == '\U{2028}' || c == '\U{2029}' || c == '\U{202F}' || c == '\U{205F}' || c == '\U{3000}'
  }

  /** The line boundaries recognised by `str.splitlines()` (`\r\n` counts as one, see SplitLines). */
  predicate IsLineBreak(c: char) {
    || ('\n' <= c <= '\r')
    || ('\U{1C}' <= c <= '\U{1E}')
    || c == '\U{85}' || c == '\U{2028}' || c == '\U{2029}'
  }

  predicate IsDigit(c: char) {
    '0' <= c <= '9'
  }

  predicate AllDigits(s: string) {
    forall i :: 0 <= i < |s| ==> IsDigit(s[i])
  }

  predicate NoSpace(s: string) {
    forall i :: 0 <= i < |s| ==> !IsSpace(s[i])
  }

  // ---------------------------------------------------------------- strip

  /** `s.lstrip()` */
  function LStrip(s: string): (r: string)
    ensures |r| <= |s| && r == s[|s| - |r|..]
    ensures r == [] || !IsSpace(r[0])
    ensures forall i :: 0 <= i < |s| - |r| ==> IsSpace(s[i])
  {
    if s != [] && IsSpace(s[0]) then LStrip(s[1..]) else s
  }

  /** `s.rstrip()` */
  function RStrip(s: string): (r: string)
    ensures |r| <= |s| && r == s[..|r|]
    ensures r == [] || !IsSpace(r[|r| - 1])
    ensures forall i :: |r| <= i < |s| ==> IsSpace(s[i])
  {
    if s != [] && IsSpace(s[|s| - 1]) then RStrip(s[..|s| - 1]) else s
  }

  /** `s.strip()`, which is also what `s.rstrip().lstrip()` computes. */
  function Strip(s: string): string {
    LStrip(RStrip(s))
  }

  /** A string that neither starts nor ends with white space is its own strip. */
  lemma StripTrimmed(s: string)
    requires s == [] || (!IsSpace(s[0]) && !IsSpace(s[|s| - 1]))
    ensures Strip(s) == s
  {
  }

  // ---------------------------------------------------------------- split(sep)

  /** Index of the first occurrence of `c` in `s`. */
  function IndexOf(s: string, c: char): (i: nat)
    requires c in s
    ensures i < |s| && s[i] == c
    ensures forall j :: 0 <= j < i ==> s[j] != c
  {
    if s[0] == c then 0 else 1 + IndexOf(s[1..], c)
  }

  /** `s.split(sep)` for a one-character separator: never empty, and no piece holds `sep`. */
  function Split(s: string, sep: char): (parts: seq<string>)
    ensures |parts| >= 1
    decreases |s|
  {
    if sep !in s then [s]
    else
      var i := IndexOf(s, sep);
      [s[..i]] + Split(s[i + 1..], sep)
  }

  /** `sep.join(parts)` */
  function Join(parts: seq<string>, sep: string): string {
    if parts == [] then ""
    else if |parts| == 1 then parts[0]
    else parts[0] + sep + Join(parts[1..], sep)
  }

  /** Splitting and re-joining on the same separator gives back the original text. */
  lemma {:induction false} SplitJoin(s: string, sep: char)
    ensures Join(Split(s, sep), [sep]) == s
    decreases |s|
  {
    if sep in s {
      var i := IndexOf(s, sep);
      var head, rest := s[..i], s[i + 1..];
      assert s == head + [sep] + rest;
      var tail := Split(rest, sep);
      SplitJoin(rest, sep);
      calc {
        Join(Split(s, sep), [sep]);
        Join([head] + tail, [sep]);
        { JoinCons(head, tail, [sep]); }
        head + [sep] + Join(tail, [sep]);
        head + [sep] + rest;
      }
    }
  }

  /** No piece of a split holds the separator. */
  lemma {:induction false} SplitPiecesClean(s: string, sep: char)
    ensures forall k :: 0 <= k < |Split(s, sep)| ==> sep !in Split(s, sep)[k]
    decreases |s|
  {
    if sep in s {
      var i := IndexOf(s, sep);
      SplitPiecesClean(s[i + 1..], sep);
    }
  }

  lemma JoinCons(x: string, tail: seq<string>, sep: string)
    requires |tail| >= 1
    ensures Join([x] + tail, sep) == x + sep + Join(tail, sep)
  {
    assert ([x] + tail)[1..] == tail;
  }

  /** Text before the first separator is the first piece; the rest is split on its own. */
  lemma SplitAt(a: string, sep: char, b: string)
    requires sep !in a
    ensures Split(a + [sep] + b, sep) == [a] + Split(b, sep)
  {
    var s := a + [sep] + b;
    assert s[|a|] == sep;
    var i := IndexOf(s, sep);
    assert i == |a|;
    assert s[..i] == a;
    assert s[i + 1..] == b;
  }

  /** The first piece of a split is the text before the first separator. */
  lemma SplitHead(s: string, sep: char)
    ensures sep in s ==> Split(s, sep)[0] == s[..IndexOf(s, sep)]
    ensures sep !in s ==> Split(s, sep) == [s]
  {
  }

  /** Text free of the separator is a prefix of the first piece of anything it starts. */
  lemma SplitFirstPrefix(a: string, b: string, sep: char)
    requires sep !in a
    ensures |Split(a + b, sep)[0]| >= |a| && Split(a + b, sep)[0][..|a|] == a
  {
    var s := a + b;
    if sep in s {
      var i := IndexOf(s, sep);
      assert s[..i][..|a|] == a;
    }
  }

  // ---------------------------------------------------------------- splitlines()

  /** Index of the first line boundary in `s`, or `|s|` when there is none. */
  function FirstBreak(s: string): (i: nat)
    ensures i <= |s|
    ensures forall j :: 0 <= j < i ==> !IsLineBreak(s[j])
    ensures i < |s| ==> IsLineBreak(s[i])
  {
    if s == [] then 0 else if IsLineBreak(s[0]) then 0 else 1 + FirstBreak(s[1..])
  }

  /** `s.splitlines()`: no trailing empty line, `\r\n` is a single boundary. */
  function SplitLines(s: string): (lines: seq<string>)
    ensures s == [] <==> lines == []
    ensures forall k, j :: 0 <= k < |lines| && 0 <= j < |lines[k]| ==> !IsLineBreak(lines[k][j])
    decreases |s|
  {
    if s == [] then []
    else
      var i := FirstBreak(s);
      if i == |s| then [s]
      else
        var next := if s[i] == '\r' && i + 1 < |s| && s[i + 1] == '\n' then i + 2 else i + 1;
        [s[..i]] + SplitLines(s[next..])
  }

  /** Text without a line boundary is a single line. */
  lemma SplitLinesSingle(s: string)
    requires s != []
    requires forall j :: 0 <= j < |s| ==> !IsLineBreak(s[j])
    ensures SplitLines(s) == [s]
  {
  }

  /** A line followed by a newline contributes exactly that line. */
  lemma SplitLinesCons(line: string, rest: string)
    requires forall j :: 0 <= j < |line| ==> !IsLineBreak(line[j])
    ensures SplitLines(line + "\n" + rest) == [line] + SplitLines(rest)
  {
    var s := line + ("\n" + rest);
    assert line + "\n" + rest == s;
    FirstBreakPrefix(line, "\n" + rest);
    var i := FirstBreak(s);
    assert i == |line|;
    assert s[i] == '\n';
    assert s[..i] == line;
    assert s[i + 1..] == rest;
  }

  lemma {:induction false} FirstBreakPrefix(a: string, b: string)
    requires forall j :: 0 <= j < |a| ==> !IsLineBreak(a[j])
    requires b != [] && IsLineBreak(b[0])
    ensures FirstBreak(a + b) == |a|
    decreases |a|
  {
    if a != [] {
      assert (a + b)[1..] == a[1..] + b;
      FirstBreakPrefix(a[1..], b);
    }
  }

  predicate NoBreak(s: string) {
    forall j :: 0 <= j < |s| ==> !IsLineBreak(s[j])
  }

  lemma NoBreakAppend(a: string, b: string)
    requires NoBreak(a) && NoBreak(b)
    ensures NoBreak(a + b)
  {
    forall j | |a| <= j < |a + b|
      ensures !IsLineBreak((a + b)[j])
    {
      assert (a + b)[j] == b[j - |a|];
    }
  }

  /** Lines joined with newlines split back into the same lines, provided none of them is
      empty or holds a line boundary. */
  lemma {:induction false} SplitLinesJoin(lines: seq<string>)
    requires forall k :: 0 <= k < |lines| ==> lines[k] != [] && NoBreak(lines[k])
    ensures SplitLines(Join(lines, "\n")) == lines
  {
    if |lines| == 1 {
      SplitLinesSingle(lines[0]);
    } else if |lines| > 1 {
      SplitLinesJoin(lines[1..]);
      SplitLinesCons(lines[0], Join(lines[1..], "\n"));
    }
  }

  /** Where the text after the first line begins: past `\r\n` or past one boundary. */
  function LineRestStart(s: string, i: nat): (next: nat)
    requires i < |s| && IsLineBreak(s[i])
    ensures i < next <= |s|
    ensures next == i + 2 <==> s[i] == '\r' && i + 1 < |s| && s[i + 1] == '\n'
  {
    if s[i] == '\r' && i + 1 < |s| && s[i + 1] == '\n' then i + 2 else i + 1
  }

  /** One step of `splitlines()`: the text before the first boundary is the first line. */
  lemma SplitLinesStep(s: string)
    requires FirstBreak(s) < |s|
    ensures SplitLines(s) == [s[..FirstBreak(s)]] + SplitLines(s[LineRestStart(s, FirstBreak(s))..])
  {
  }

  lemma LastOfCons<A>(x: A, xs: seq<A>)
    requires xs != []
    ensures ([x] + xs)[|[x] + xs| - 1] == xs[|xs| - 1]
  {
  }

  /** The first line of a text ending in a boundary lies within that text; what follows it
      again ends in a boundary or is empty. */
  lemma ConsAppend<A>(xs: seq<A>, ys: seq<A>)
    requires xs != []
    ensures xs + ys == [xs[0]] + (xs[1..] + ys)
  {
    assert xs == [xs[0]] + xs[1..];
  }

  lemma FirstLineWithin(a: string, line: string) returns (first: string, rest: string)
    requires a != [] && IsLineBreak(a[|a| - 1])
    requires line != [] && NoBreak(line)
    ensures |rest| < |a|
    ensures rest == [] || IsLineBreak(rest[|rest| - 1])
    ensures SplitLines(a + line) == [first] + SplitLines(rest + line)
  {
    var s := a + line;
    var i := FirstBreak(s);
    assert i < |a| by {
      assert s[|a| - 1] == a[|a| - 1];
    }
    var next := LineRestStart(s, i);
    assert next <= |a| by {
      assert s[|a|] == line[0];
    }
    first, rest := s[..i], a[next..];
    assert s[next..] == rest + line by {
      DropAppend(a, line, next);
    }
    assert rest == [] || IsLineBreak(rest[|rest| - 1]) by {
      if rest != [] {
        assert rest[|rest| - 1] == a[|a| - 1];
      }
    }
    SplitLinesStep(s);
  }

  /** The last line of a text that ends in a non-empty line without boundary is that line,
      whatever precedes it. */
  lemma {:induction false} LastLine(a: string, line: string)
    requires a == [] || IsLineBreak(a[|a| - 1])
    requires line != [] && NoBreak(line)
    ensures SplitLines(a + line) != []
    ensures SplitLines(a + line)[|SplitLines(a + line)| - 1] == line
    decreases |a|
  {
    if a == [] {
      assert a + line == line;
      SplitLinesSingle(line);
    } else {
      var first, rest := FirstLineWithin(a, line);
      LastLine(rest, line);
      LastOfCons(first, SplitLines(rest + line));
    }
  }

  lemma DropAppend<A>(a: seq<A>, b: seq<A>, k: nat)
    requires k <= |a|
    ensures (a + b)[k..] == a[k..] + b
  {
  }

  // ---------------------------------------------------------------- split()

  /** Index of the first white-space character in `s`, or `|s|`. */
  function FirstSpace(s: string): (i: nat)
    ensures i <= |s|
    ensures forall j :: 0 <= j < i ==> !IsSpace(s[j])
    ensures i < |s| ==> IsSpace(s[i])
  {
    if s == [] then 0 else if IsSpace(s[0]) then 0 else 1 + FirstSpace(s[1..])
  }

  /** `s.split()`: the maximal runs of non-space characters, in order. */
  function SplitWhitespace(s: string): (toks: seq<string>)
    ensures forall k :: 0 <= k < |toks| ==> toks[k] != [] && NoSpace(toks[k])
    decreases |s|
  {
    if s == [] then []
    else if IsSpace(s[0]) then SplitWhitespace(s[1..])
    else
      var i := FirstSpace(s);
      [s[..i]] + SplitWhitespace(s[i..])
  }

  lemma {:induction false} FirstSpaceBefore(a: string, b: string)
    requires b != [] && IsSpace(b[0])
    ensures FirstSpace(a + b) == if FirstSpace(a) < |a| then FirstSpace(a) else |a|
    decreases |a|
  {
    if a != [] && !IsSpace(a[0]) {
      assert (a + b)[1..] == a[1..] + b;
      FirstSpaceBefore(a[1..], b);
    }
  }

  /** The first token of a text starting with a non-space character ends at the same place
      when white space is appended. */
  lemma FirstTokenBefore(a: string, d: string) returns (i: nat)
    requires a != [] && !IsSpace(a[0]) && d != [] && IsSpace(d[0])
    ensures 0 < i <= |a|
    ensures SplitWhitespace(a + d) == [a[..i]] + SplitWhitespace(a[i..] + d)
    ensures SplitWhitespace(a) == [a[..i]] + SplitWhitespace(a[i..])
  {
    FirstSpaceBefore(a, d);
    i := FirstSpace(a);
    assert (a + d)[..i] == a[..i];
    assert (a + d)[i..] == a[i..] + d;
  }

  /** Text followed by white space splits into its own tokens and those after. */
  lemma {:induction false} SplitWhitespaceAppend(a: string, d: string)
    requires d != [] && IsSpace(d[0])
    ensures SplitWhitespace(a + d) == SplitWhitespace(a) + SplitWhitespace(d)
    decreases |a|, 1
  {
    if a == [] {
      assert a + d == d;
    } else if IsSpace(a[0]) {
      LeadingSpaceSkipped(a, d);
      SplitWhitespaceAppend(a[1..], d);
    } else {
      SplitWhitespaceAppendToken(a, d);
    }
  }

  lemma {:induction false} SplitWhitespaceAppendToken(a: string, d: string)
    requires d != [] && IsSpace(d[0]) && a != [] && !IsSpace(a[0])
    ensures SplitWhitespace(a + d) == SplitWhitespace(a) + SplitWhitespace(d)
    decreases |a|, 0
  {
    var i := FirstTokenBefore(a, d);
    var x, rest := a[..i], SplitWhitespace(a[i..]);
    SplitWhitespaceAppend(a[i..], d);
    assert [x] + (rest + SplitWhitespace(d)) == [x] + rest + SplitWhitespace(d);
  }

  /** Leading white space is skipped, with or without text appended. */
  lemma LeadingSpaceSkipped(a: string, d: string)
    requires a != [] && IsSpace(a[0])
    ensures SplitWhitespace(a + d) == SplitWhitespace(a[1..] + d)
    ensures SplitWhitespace(a) == SplitWhitespace(a[1..])
  {
    assert (a + d)[1..] == a[1..] + d;
  }

  /** A white-space character separates the tokens on its two sides. */
  lemma SplitWhitespaceAround(a: string, c: char, b: string)
    requires IsSpace(c)
    ensures SplitWhitespace(a + [c] + b) == SplitWhitespace(a) + SplitWhitespace(b)
  {
    assert a + [c] + b == a + ([c] + b);
    SplitWhitespaceAppend(a, [c] + b);
    assert ([c] + b)[1..] == b;
  }

  /** A non-empty run of non-space characters is a single token. */
  lemma {:induction false} SplitWhitespaceWord(w: string)
    requires w != [] && NoSpace(w)
    ensures SplitWhitespace(w) == [w]
  {
    assert FirstSpace(w) == |w|;
    assert w[|w|..] == [];
    assert w[..|w|] == w;
  }

  // ---------------------------------------------------------------- lower()

  /** `c.lower()` for ASCII letters; every other character is left alone. */
  function LowerChar(c: char): char {
    if 'A' <= c <= 'Z' then (c as int + 32) as char else c
  }

  /** `s.lower()` restricted to ASCII case mapping. */
  function Lower(s: string): (r: string)
    ensures |r| == |s|
    ensures forall i :: 0 <= i < |s| ==> r[i] == LowerChar(s[i])
  {
    seq(|s|, i requires 0 <= i < |s| => LowerChar(s[i]))
  }

  // ---------------------------------------------------------------- int(s), str(n)

  function DigitValue(c: char): nat
    requires IsDigit(c)
  {
    c as int - '0' as int
  }

  function DigitChar(d: nat): (c: char)
    requires d < 10
    ensures IsDigit(c) && DigitValue(c) == d
  {
    ('0' as int + d) as char
  }

  /** The number spelled by a run of decimal digits. */
  function DigitsValue(s: string): nat
    requires AllDigits(s)
  {
    if s == [] then 0 else 10 * DigitsValue(s[..|s| - 1]) + DigitValue(s[|s| - 1])
  }

  function Signed(negative: bool, n: nat): int {
    var m: int := n;
    if negative then -m else m
  }

  /** The four information separators U+001C..U+001F: white space to `str.isspace()`, but
      ASCII characters `int()` does not strip, since it strips only `" \t\n\v\f\r"` among
      ASCII and every non-ASCII white space. */
  predicate IsInfoSeparator(c: char) {
    '\U{1C}' <= c <= '\U{1F}'
  }

  predicate HasInfoSeparator(s: string) {
    exists i :: 0 <= i < |s| && IsInfoSeparator(s[i])
  }

  /** `int(s)` on ASCII digits: surrounding white space is ignored, one optional sign, then
      decimal digits. An information separator anywhere is never stripped and is not a digit,
      so it makes the text invalid. */
  function ParseInt(s: string): Result<int> {
    if HasInfoSeparator(s) then Err(ValueError) else ParseNumeral(Strip(s))
  }

  /** The stripped text of `int(s)`: one optional sign, then decimal digits. */
  function ParseNumeral(t: string): Result<int> {
    if |t| > 0 && (t[0] == '-' || t[0] == '+') then
      var d := t[1..];
      if |d| > 0 && AllDigits(d) then Ok(Signed(t[0] == '-', DigitsValue(d)))
      else Err(ValueError)
    else if |t| > 0 && AllDigits(t) then Ok(DigitsValue(t))
    else Err(ValueError)
  }

  /** `str(n)` for a natural number. */
  function NatToString(n: nat): (s: string)
    ensures |s| > 0 && AllDigits(s)
    ensures DigitsValue(s) == n
  {
    var last := DigitChar(n % 10);
    var s := if n < 10 then [last] else NatToString(n / 10) + [last];
    assert s[..|s| - 1] == (if n < 10 then [] else NatToString(n / 10));
    s
  }

  /** `str(n)` */
  function IntToString(n: int): string {
    if n < 0 then "-" + NatToString(-n) else NatToString(n)
  }

  lemma ParseDigits(d: string)
    requires |d| > 0 && AllDigits(d)
    ensures ParseInt(d) == Ok(DigitsValue(d))
  {
    assert IsDigit(d[0]) && IsDigit(d[|d| - 1]);
    StripTrimmed(d);
    DigitsNoInfoSeparator(d);
    NumeralOfDigits(d);
  }

  lemma NumeralOfDigits(d: string)
    requires |d| > 0 && AllDigits(d)
    ensures ParseNumeral(d) == Ok(DigitsValue(d))
  {
    assert IsDigit(d[0]);
  }

  lemma DigitsNoInfoSeparator(d: string)
    requires forall i :: 0 < i < |d| ==> IsDigit(d[i])
    requires d != [] ==> IsDigit(d[0]) || d[0] == '-'
    ensures !HasInfoSeparator(d)
  {
    forall i | 0 <= i < |d| ensures !IsInfoSeparator(d[i]) {
      assert IsDigit(d[i]) || d[i] == '-';
    }
  }

  lemma ParseNegativeDigits(d: string)
    requires |d| > 0 && AllDigits(d)
    ensures ParseInt("-" + d) == Ok(Signed(true, DigitsValue(d)))
  {
    var s := "-" + d;
    assert s[|s| - 1] == d[|d| - 1] && IsDigit(d[|d| - 1]);
    StripTrimmed(s);
    assert s[1..] == d;
    DigitsNoInfoSeparator(s);
  }

  /** `int(str(n)) == n` */
  lemma IntRoundTrip(n: int)
    ensures ParseInt(IntToString(n)) == Ok(n)
  {
    if n < 0 {
      ParseNegativeDigits(NatToString(-n));
    } else {
      ParseDigits(NatToString(n));
    }
  }

  /** White space after a number does not change what `int()` reads, except an information
      separator, which makes it fail. */
  lemma ParseIntTrailingSpace(s: string, c: char)
    requires IsSpace(c)
    ensures !IsInfoSeparator(c) ==> ParseInt(s + [c]) == ParseInt(s)
    ensures IsInfoSeparator(c) ==> ParseInt(s + [c]) == Err(ValueError)
  {
    HasInfoSeparatorAppend(s, c);
    if !IsInfoSeparator(c) {
      RStripTrailingSpace(s, c);
    }
  }

  lemma HasInfoSeparatorAppend(s: string, c: char)
    ensures HasInfoSeparator(s + [c]) <==> IsInfoSeparator(c) || HasInfoSeparator(s)
  {
    var t := s + [c];
    assert t[|s|] == c;
    forall i | 0 <= i < |s| ensures t[i] == s[i] { }
  }

  lemma RStripTrailingSpace(s: string, c: char)
    requires IsSpace(c)
    ensures RStrip(s + [c]) == RStrip(s)
  {
    var t := s + [c];
    assert t[..|t| - 1] == s;
  }

  /** The text of a number is made of digits and a leading minus sign only. */
  lemma IntToStringDigits(n: int)
    ensures forall j :: 0 <= j < |IntToString(n)| ==> IntToString(n)[j] == '-' || IsDigit(IntToString(n)[j])
    ensures IntToString(n) != [] && IsDigit(IntToString(n)[|IntToString(n)| - 1])
    ensures IntToString(n)[0] == '-' || IsDigit(IntToString(n)[0])
  {
    var s := IntToString(n);
    var d := NatToString(if n < 0 then -n else n);
    forall j | 0 <= j < |s|
      ensures s[j] == '-' || IsDigit(s[j])
    {
      if n < 0 && j > 0 {
        assert s[j] == d[j - 1];
      }
    }
  }

  /** The text of a number never holds white space or a line boundary. */
  lemma IntToStringPlain(n: int)
    ensures IntToString(n) != [] && NoSpace(IntToString(n))
    ensures forall j :: 0 <= j < |IntToString(n)| ==> !IsLineBreak(IntToString(n)[j])
  {
    var s := IntToString(n);
    var d := NatToString(if n < 0 then -n else n);
    forall j | 0 <= j < |s|
      ensures !IsSpace(s[j]) && !IsLineBreak(s[j])
    {
      if n < 0 && j > 0 {
        assert s[j] == d[j - 1];
      }
    }
  }
}
