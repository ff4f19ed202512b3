/**
 * Character classes and string operations of Python's `str` that the core relies on:
 * `isdigit`, `isalnum`, `isspace`, `lower`, `strip`, `split()`, `splitlines`, `in`,
 * `join` and `str(int)`.  Digit and letter classes are the ASCII ones.
 */
module Text {

  /** `c.isdigit()` restricted to ASCII. */
  predicate IsDigit(c: char) {
    '0' <= c <= '9'
  }

  predicate IsLetter(c: char) {
    ('a' <= c <= 'z') || ('A' <= c <= 'Z')
  }

  /** `c.isalnum()` restricted to ASCII. */
  predicate IsAlnum(c: char) {
    IsDigit(c) || IsLetter(c)
  }

  /** `c.isspace()`: exactly the characters Python's `str.strip()` and `str.split()` remove. */
  predicate IsSpace(c: char) {
    || ('\t' <= c <= '\r')                      // \t \n \x0b \x0c \r
    || ('\U{1c}' <= c <= '\U{1f}') || c == ' '
    || c == '\U{85}' || c == '\U{a0}' || c == '\U{1680}'
    || ('\U{2000}' <= c <= '\U{200a}')
    || c == '\U{2028}' || c == '\U{2029}' || c == '\U{202f}' || c == '\U{205f}' || c == '\U{3000}'
  }

  /** The characters at which `str.splitlines()` breaks a line. */
  predicate IsLineBreak(c: char) {
    || ('\n' <= c <= '\r')                      // \n \x0b \x0c \r
    || ('\U{1c}' <= c <= '\U{1e}')
    || c == '\U{85}' || c == '\U{2028}' || c == '\U{2029}'
  }

  lemma LineBreakIsSpace(c: char)
    ensures IsLineBreak(c) ==> IsSpace(c)
  {
  }

  /** `s.isdigit()`: non-empty and every character a digit. */
  predicate IsDigits(s: string) {
    |s| > 0 && forall i :: 0 <= i < |s| ==> IsDigit(s[i])
  }

  predicate NoLineBreak(s: string) {
    forall i :: 0 <= i < |s| ==> !IsLineBreak(s[i])
  }

  function LowerChar(c: char): char {
    if 'A' <= c <= 'Z' then (c as int + 32) as char else c
  }

  /** `s.lower()` on ASCII letters. */
  function Lower(s: string): (r: string)
    ensures |r| == |s|
    ensures forall i :: 0 <= i < |s| ==> r[i] == LowerChar(s[i])
  {
    seq(|s|, i requires 0 <= i < |s| => LowerChar(s[i]))
  }

  predicate StartsWith(s: string, prefix: string) {
    |prefix| <= |s| && s[..|prefix|] == prefix
  }

  /** `sub in s`: `sub` occurs in `s` at some position. */
  predicate Contains(s: string, sub: string) {
    StartsWith(s, sub) || (s != [] && Contains(s[1..], sub))
  }

  // ---------------------------------------------------------------------------------------
  // strip

  function TrimStart(s: string): (r: string)
    ensures |r| <= |s| && r == s[|s| - |r|..]
    ensures r == [] || !IsSpace(r[0])
  {
    if s != [] && IsSpace(s[0]) then TrimStart(s[1..]) else s
  }

  function TrimEnd(s: string): (r: string)
    ensures |r| <= |s| && r == s[..|r|]
    ensures r == [] || !IsSpace(r[|r| - 1])
  {
    if s != [] && IsSpace(s[|s| - 1]) then TrimEnd(s[..|s| - 1]) else s
  }

  /** `s.strip()`: the leading and trailing whitespace removed. */
  function Strip(s: string): string {
    TrimEnd(TrimStart(s))
  }

  /** A string is its own strip when it is empty or starts and ends with a non-space. */
  lemma StripFixed(s: string)
    requires s == [] || (!IsSpace(s[0]) && !IsSpace(s[|s| - 1]))
    ensures Strip(s) == s
  {
  }

  /** The stripped string is a slice of the original, with no whitespace at either end. */
  lemma StripSlice(s: string) returns (i: nat, j: nat)
    ensures i <= j <= |s| && Strip(s) == s[i..j]
    ensures Strip(s) == [] || (!IsSpace(Strip(s)[0]) && !IsSpace(Strip(s)[|Strip(s)| - 1]))
  {
    var t := TrimStart(s);
    i := |s| - |t|;
    j := i + |TrimEnd(t)|;
    assert TrimEnd(t) == t[..|TrimEnd(t)|];
    assert s[i..j] == t[..|TrimEnd(t)|];
    if Strip(s) != [] {
      assert Strip(s)[0] == t[0];
    }
  }

  lemma StripIdempotent(s: string)
    ensures Strip(Strip(s)) == Strip(s)
  {
    var i, j := StripSlice(s);
    StripFixed(Strip(s));
  }

  // ---------------------------------------------------------------------------------------
  // split() and splitlines()

  /**
   * Cuts `s` at every character satisfying `IsLineBreak`.  Python's `splitlines` differs only
   * in empty pieces (it treats "\r\n" as one break and yields no piece after a final break).
   */
  function SplitLines(s: string): (r: seq<string>)
    ensures |r| > 0
    ensures forall k :: 0 <= k < |r| ==> NoLineBreak(r[k])
  {
    if s == [] then [[]]
    else
      var rest := SplitLines(s[1..]);
      if IsLineBreak(s[0]) then [[]] + rest
      else [[s[0]] + rest[0]] + rest[1..]
  }

  lemma {:induction false} SplitLinesOne(s: string)
    requires NoLineBreak(s)
    ensures SplitLines(s) == [s]
  {
    if s != [] {
      SplitLinesOne(s[1..]);
      assert [s[0]] + s[1..] == s;
    }
  }

  lemma {:induction false} SplitLinesCons(a: string, b: string)
    requires NoLineBreak(a)
    ensures SplitLines(a + "\n" + b) == [a] + SplitLines(b)
  {
    if a == [] {
      assert (a + "\n" + b)[1..] == b;
    } else {
      assert (a + "\n" + b)[1..] == a[1..] + "\n" + b;
      SplitLinesCons(a[1..], b);
      assert [a[0]] + a[1..] == a;
    }
  }

  /** `sep.join(parts)`. */
  function Join(sep: string, parts: seq<string>): string {
    if parts == [] then ""
    else if |parts| == 1 then parts[0]
    else parts[0] + sep + Join(sep, parts[1..])
  }

  /** Splitting lines undoes joining with "\n", as long as no piece holds a line break. */
  lemma {:induction false} SplitLinesJoin(parts: seq<string>)
    requires parts != []
    requires forall k :: 0 <= k < |parts| ==> NoLineBreak(parts[k])
    ensures SplitLines(Join("\n", parts)) == parts
  {
    if |parts| == 1 {
      SplitLinesOne(parts[0]);
    } else {
      SplitLinesJoin(parts[1..]);
      SplitLinesCons(parts[0], Join("\n", parts[1..]));
      assert [parts[0]] + parts[1..] == parts;
    }
  }

  /** `s.split()`: the maximal runs of non-whitespace characters, in order. */
  function Words(s: string): (r: seq<string>)
    decreases |s|
  {
    var t := TrimStart(s);
    if t == [] then []
    else
      var w := Word(t);
      assert w != [];
      [w] + Words(t[|w|..])
  }

  predicate NoSpace(s: string) {
    forall i :: 0 <= i < |s| ==> !IsSpace(s[i])
  }

  /** The longest prefix of `s` without whitespace. */
  function Word(s: string): (w: string)
    ensures |w| <= |s| && w == s[..|w|]
    ensures NoSpace(w)
    ensures |w| == |s| || IsSpace(s[|w|])
    ensures s != [] && !IsSpace(s[0]) ==> w != []
  {
    if s == [] || IsSpace(s[0]) then [] else [s[0]] + Word(s[1..])
  }

  /** `s.split(sep)` for a one-character separator: the pieces between separators, at least one. */
  function SplitOn(s: string, sep: char): (r: seq<string>)
    ensures |r| > 0
    ensures forall k :: 0 <= k < |r| ==> sep !in r[k]
  {
    if s == [] then [[]]
    else
      var rest := SplitOn(s[1..], sep);
      if s[0] == sep then [[]] + rest
      else [[s[0]] + rest[0]] + rest[1..]
  }

  /** Joining with the first piece extended at the front extends the joined string at the front. */
  lemma JoinHead(sep: string, x: string, parts: seq<string>)
    requires parts != []
    ensures Join(sep, [x + parts[0]] + parts[1..]) == x + Join(sep, parts)
  {
    var ps := [x + parts[0]] + parts[1..];
    assert ps[1..] == parts[1..];
    if |parts| > 1 {
      assert Join(sep, ps) == (x + parts[0]) + sep + Join(sep, parts[1..]);
    }
  }

  /** Joining the pieces with the separator gives back the string that was split. */
  lemma {:induction false} JoinSplitOn(s: string, sep: char)
    ensures Join([sep], SplitOn(s, sep)) == s
  {
    if s != [] {
      var rest := SplitOn(s[1..], sep);
      JoinSplitOn(s[1..], sep);
      if s[0] == sep {
        assert ([[]] + rest)[1..] == rest;
        assert Join([sep], [[]] + rest) == [] + [sep] + Join([sep], rest);
        assert s == [sep] + s[1..];
      } else {
        JoinHead([sep], [s[0]], rest);
        assert s == [s[0]] + s[1..];
      }
    }
  }

  lemma {:induction false} SplitOnOne(a: string, sep: char)
    requires sep !in a
    ensures SplitOn(a, sep) == [a]
  {
    if a != [] {
      SplitOnOne(a[1..], sep);
      assert [a[0]] + a[1..] == a;
    }
  }

  lemma {:induction false} SplitOnCons(a: string, b: string, sep: char)
    requires sep !in a
    ensures SplitOn(a + [sep] + b, sep) == [a] + SplitOn(b, sep)
  {
    if a == [] {
      assert (a + [sep] + b)[1..] == b;
    } else {
      assert (a + [sep] + b)[1..] == a[1..] + [sep] + b;
      SplitOnCons(a[1..], b, sep);
      assert [a[0]] + a[1..] == a;
    }
  }

  /** Splitting undoes joining, as long as no piece holds the separator. */
  lemma {:induction false} SplitOnJoin(parts: seq<string>, sep: char)
    requires parts != []
    requires forall k :: 0 <= k < |parts| ==> sep !in parts[k]
    ensures SplitOn(Join([sep], parts), sep) == parts
  {
    if |parts| == 1 {
      SplitOnOne(parts[0], sep);
    } else {
      SplitOnJoin(parts[1..], sep);
      SplitOnCons(parts[0], Join([sep], parts[1..]), sep);
      assert [parts[0]] + parts[1..] == parts;
    }
  }

  /** A string without whitespace splits into itself alone. */
  lemma WordsOfWord(s: string)
    requires s != [] && NoSpace(s)
    ensures Words(s) == [s]
  {
    assert TrimStart(s) == s;
    assert Word(s) == s;
    assert TrimStart(s[|s|..]) == [];
  }

  /** The longest space-free prefix of a space-free word followed by a space (or nothing) is the word. */
  lemma {:induction false} WordOf(a: string, rest: string)
    requires NoSpace(a) && (rest == [] || IsSpace(rest[0]))
    ensures Word(a + rest) == a
  {
    if a != [] {
      assert (a + rest)[1..] == a[1..] + rest;
      WordOf(a[1..], rest);
      assert [a[0]] + a[1..] == a;
    }
  }

  /** Joining non-empty pieces starts with the first piece's first character and ends with the last piece's last. */
  lemma {:induction false} JoinEnds(sep: string, parts: seq<string>)
    requires parts != [] && forall k :: 0 <= k < |parts| ==> parts[k] != []
    ensures var j := Join(sep, parts);
      j != [] && j[0] == parts[0][0] && j[|j| - 1] == parts[|parts| - 1][|parts[|parts| - 1]| - 1]
  {
    if |parts| > 1 {
      JoinEnds(sep, parts[1..]);
    }
  }

  /** Splitting on whitespace undoes joining non-empty, space-free words with one space. */
  lemma {:induction false} WordsJoin(parts: seq<string>)
    requires parts != [] && forall k :: 0 <= k < |parts| ==> parts[k] != [] && NoSpace(parts[k])
    ensures Words(Join(" ", parts)) == parts
  {
    if |parts| == 1 {
      WordsOfWord(parts[0]);
    } else {
      WordsJoin(parts[1..]);
      WordsJoinStep(parts);
    }
  }

  lemma WordsJoinStep(parts: seq<string>)
    requires |parts| > 1 && forall k :: 0 <= k < |parts| ==> parts[k] != [] && NoSpace(parts[k])
    requires Words(Join(" ", parts[1..])) == parts[1..]
    ensures Words(Join(" ", parts)) == parts
  {
    var j := Join(" ", parts[1..]);
    assert j != [] && !IsSpace(j[0]) by {
      JoinEnds(" ", parts[1..]);
      assert j[0] == parts[1][0] && NoSpace(parts[1]);
    }
    assert Join(" ", parts) == parts[0] + " " + j;
    WordsCons(parts[0], j);
    HeadTail(parts);
  }

  /** A non-empty sequence is its head followed by its tail. */
  lemma HeadTail<T>(s: seq<T>)
    requires s != []
    ensures [s[0]] + s[1..] == s
  {
  }

  /** A word, a space and a string starting with a non-space: the word comes first. */
  lemma WordsCons(a: string, j: string)
    requires a != [] && NoSpace(a) && j != [] && !IsSpace(j[0])
    ensures Words(a + " " + j) == [a] + Words(j)
  {
    var s := a + " " + j;
    assert s == a + (" " + j);
    assert TrimStart(s) == s;
    WordOf(a, " " + j);
    assert s[|a|..] == " " + j;
    WordsAfterSpace(j);
  }

  lemma WordsAfterSpace(j: string)
    requires j != [] && !IsSpace(j[0])
    ensures Words(" " + j) == Words(j)
  {
    assert (" " + j)[1..] == j;
    assert TrimStart(" " + j) == j;
  }

  // ---------------------------------------------------------------------------------------
  // str(int) and int(str)

  function DigitChar(d: nat): char
    requires d < 10
  {
    ('0' as int + d) as char
  }

  /** `str(n)` for a non-negative integer. */
  function Decimal(n: nat): (r: string)
    ensures IsDigits(r)
    ensures r[0] == '0' ==> n == 0
  {
    if n < 10 then [DigitChar(n)] else Decimal(n / 10) + [DigitChar(n % 10)]
  }

  function DigitValue(c: char): (d: nat)
    requires IsDigit(c)
    ensures d < 10
  {
    c as int - '0' as int
  }

  /** `int(s)` for a string of ASCII digits. */
  function DecimalValue(s: string): nat
    requires forall i :: 0 <= i < |s| ==> IsDigit(s[i])
  {
    if s == [] then 0
    else DecimalValue(s[..|s| - 1]) * 10 + DigitValue(s[|s| - 1])
  }

  /** Reading back the decimal string of `n` gives `n`: distinct numbers have distinct strings. */
  lemma {:induction false} DecimalRoundTrip(n: nat)
    ensures DecimalValue(Decimal(n)) == n
  {
    if n >= 10 {
      DecimalRoundTrip(n / 10);
      var s := Decimal(n);
      assert s[..|s| - 1] == Decimal(n / 10);
    }
  }

  lemma DecimalInjective(m: nat, n: nat)
    requires Decimal(m) == Decimal(n)
    ensures m == n
  {
    DecimalRoundTrip(m);
    DecimalRoundTrip(n);
  }
}
