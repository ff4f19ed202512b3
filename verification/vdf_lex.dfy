/**
 * Lexical layer of the text KeyValues parser (`VdfParser._strip_comments`, the token pattern
 * of `VdfParser.parse_text` and its `unicode_escape` unescaping of string tokens).
 */
module VdfLex {
  import opened Wrappers
  import opened Text
  import opened Bytes

  // ---------------------------------------------------------------------------------------
  // Comment stripping

  /** `s` contains "//". */
  predicate HasCommentMark(s: string) {
    exists i :: 0 <= i < |s| - 1 && s[i] == '/' && s[i + 1] == '/'
  }

  /** `s.split('//')[0]`: everything before the first "//". */
  function BeforeComment(s: string): (r: string)
    ensures |r| <= |s| && r == s[..|r|]
    ensures !HasCommentMark(r)
    ensures !HasCommentMark(s) ==> r == s
  {
    if |s| < 2 then s
    else if s[0] == '/' && s[1] == '/' then []
    else
      var rest := BeforeComment(s[1..]);
      [s[0]] + rest
  }

  /** One line after `line.split('//')[0].strip()`. */
  function CleanLine(line: string): string {
    Strip(BeforeComment(line))
  }

  /** The lines `_strip_comments` keeps: each line cleaned, empty results dropped, in order. */
  function CleanLines(lines: seq<string>): seq<string> {
    if lines == [] then []
    else
      var kept := CleanLines(lines[..|lines| - 1]);
      var line := CleanLine(lines[|lines| - 1]);
      if line != [] then kept + [line] else kept
  }

  /** What `_strip_comments` returns for `content`. */
  function Stripped(content: string): string {
    Join("\n", CleanLines(SplitLines(content)))
  }

  /** `VdfParser._strip_comments`. */
  method StripComments(content: string) returns (r: string)
    ensures r == Stripped(content)
  {
    var lines := SplitLines(content);
    var cleanLines: seq<string> := [];
    for i := 0 to |lines|
      invariant cleanLines == CleanLines(lines[..i])
    {
      var line := Strip(BeforeComment(lines[i]));
      CleanLinesStep(lines, i);
      if line != [] {
        cleanLines := cleanLines + [line];
      }
    }
    assert lines[..|lines|] == lines;
    r := Join("\n", cleanLines);
  }

  /** One more line: its cleaned form is kept when something is left of it. */
  lemma CleanLinesStep(lines: seq<string>, i: nat)
    requires i < |lines|
    ensures CleanLines(lines[..i + 1]) ==
      if CleanLine(lines[i]) != [] then CleanLines(lines[..i]) + [CleanLine(lines[i])] else CleanLines(lines[..i])
  {
    assert lines[..i + 1][..i] == lines[..i];
  }

  /** A line as `_strip_comments` leaves it: non-empty, trimmed, no "//", no line break. */
  predicate IsCleanLine(line: string) {
    && line != []
    && Strip(line) == line
    && !HasCommentMark(line)
    && NoLineBreak(line)
  }

  lemma SliceNoCommentMark(s: string, i: nat, j: nat)
    requires i <= j <= |s| && !HasCommentMark(s)
    ensures !HasCommentMark(s[i..j])
  {
    forall k | 0 <= k < |s[i..j]| - 1 ensures !(s[i..j][k] == '/' && s[i..j][k + 1] == '/') {
      assert s[i..j][k] == s[i + k] && s[i..j][k + 1] == s[i + k + 1];
    }
  }

  lemma SliceNoLineBreak(s: string, i: nat, j: nat)
    requires i <= j <= |s| && NoLineBreak(s)
    ensures NoLineBreak(s[i..j])
  {
    forall k | 0 <= k < |s[i..j]| ensures !IsLineBreak(s[i..j][k]) {
      assert s[i..j][k] == s[i + k];
    }
  }

  lemma CleanLineIsClean(line: string)
    requires NoLineBreak(line) && CleanLine(line) != []
    ensures IsCleanLine(CleanLine(line))
  {
    var b := BeforeComment(line);
    SliceNoLineBreak(line, 0, |b|);
    var i, j := StripSlice(b);
    SliceNoLineBreak(b, i, j);
    SliceNoCommentMark(b, i, j);
    StripIdempotent(b);
  }

  /** Every kept line is clean. */
  lemma {:induction false} CleanLinesAreClean(lines: seq<string>)
    requires forall k :: 0 <= k < |lines| ==> NoLineBreak(lines[k])
    ensures forall k :: 0 <= k < |CleanLines(lines)| ==> IsCleanLine(CleanLines(lines)[k])
  {
    if lines != [] {
      CleanLinesAreClean(lines[..|lines| - 1]);
      if CleanLine(lines[|lines| - 1]) != [] {
        CleanLineIsClean(lines[|lines| - 1]);
      }
    }
  }

  lemma CleanLineOfClean(line: string)
    requires IsCleanLine(line)
    ensures CleanLine(line) == line
  {
    assert BeforeComment(line) == line;
  }

  /** Clean lines pass through unchanged. */
  lemma {:induction false} CleanLinesOfClean(lines: seq<string>)
    requires forall k :: 0 <= k < |lines| ==> lines[k] != [] && CleanLine(lines[k]) == lines[k]
    ensures CleanLines(lines) == lines
  {
    if lines != [] {
      var init, last := lines[..|lines| - 1], lines[|lines| - 1];
      CleanLinesOfClean(init);
      assert init + [last] == lines;
    }
  }

  /**
   * The output of `_strip_comments` is its clean lines joined by "\n": every line non-empty,
   * trimmed, free of "//" and of line breaks.
   */
  lemma StrippedLines(content: string)
    ensures var lines := CleanLines(SplitLines(content));
      && Stripped(content) == Join("\n", lines)
      && forall k :: 0 <= k < |lines| ==> IsCleanLine(lines[k])
  {
    CleanLinesAreClean(SplitLines(content));
  }

  /** Stripping comments twice is the same as stripping them once. */
  lemma StrippedIdempotent(content: string)
    ensures Stripped(Stripped(content)) == Stripped(content)
  {
    var lines := CleanLines(SplitLines(content));
    StrippedLines(content);
    if lines == [] {
      assert Stripped(content) == "";
      assert SplitLines("") == [""];
      assert CleanLines([""]) == [];
    } else {
      SplitLinesJoin(lines);
      forall k | 0 <= k < |lines| ensures lines[k] != [] && CleanLine(lines[k]) == lines[k] {
        CleanLineOfClean(lines[k]);
      }
      CleanLinesOfClean(lines);
    }
  }

  /**
   * Everything from the first "//" on is cut, even when it sits inside a quoted string:
   * the part before it is kept as it is.
   */
  lemma {:induction false} CommentCut(p: string, q: string)
    requires !HasCommentMark(p) && (p == [] || p[|p| - 1] != '/')
    ensures BeforeComment(p + "//" + q) == p
  {
    var s := p + "//" + q;
    if p == [] {
      assert s[0] == '/' && s[1] == '/';
    } else {
      assert s[1..] == p[1..] + "//" + q;
      CommentCut(p[1..], q);
      assert !(s[0] == '/' && s[1] == '/');
      assert [p[0]] + p[1..] == p;
    }
  }

  // ---------------------------------------------------------------------------------------
  // Tokens: the pattern "((?:\\.|[^\\"])*)"|([{}]) applied left to right

  datatype Token = Str(raw: string) | Open | Close

  /**
   * Scanning the body of a quoted string from `k`: the index of the closing quote, or None when
   * the pattern cannot match (end of text, or a backslash before a newline or at the end,
   * since `.` does not match a newline).
   */
  function QuoteEnd(s: string, k: nat): (r: Option<nat>)
    ensures r.Some? ==> k <= r.value < |s| && s[r.value] == '"'
    decreases |s| - k
  {
    if k >= |s| then None
    else if s[k] == '"' then Some(k)
    else if s[k] == '\\' then
      if k + 1 < |s| && s[k + 1] != '\n' then QuoteEnd(s, k + 2) else None
    else QuoteEnd(s, k + 1)
  }

  /**
   * `finditer` from position `i`: a quote that starts a complete string yields its body; a
   * quote that does not is skipped like any other character; braces are tokens.
   */
  function TokensFrom(s: string, i: nat): seq<Token>
    decreases |s| - i
  {
    if i >= |s| then []
    else if s[i] == '"' then
      match QuoteEnd(s, i + 1)
      case Some(j) => [Str(s[i + 1..j])] + TokensFrom(s, j + 1)
      case None => TokensFrom(s, i + 1)
    else if s[i] == '{' then [Open] + TokensFrom(s, i + 1)
    else if s[i] == '}' then [Close] + TokensFrom(s, i + 1)
    else TokensFrom(s, i + 1)
  }

  function Tokenize(s: string): seq<Token> {
    TokensFrom(s, 0)
  }

  // ---------------------------------------------------------------------------------------
  // Writing tokens back as text, and reading them again

  /** A character a written string may hold: ASCII, and no quote, backslash, slash or line break. */
  predicate PlainChar(c: char) {
    c as int < 0x80 && c != '"' && c != '\\' && c != '/' && !IsLineBreak(c)
  }

  predicate PlainRaw(x: string) {
    forall i :: 0 <= i < |x| ==> PlainChar(x[i])
  }

  predicate PlainToken(t: Token) {
    t.Str? ==> PlainRaw(t.raw)
  }

  /** A token as text: a string between double quotes, or a brace. */
  function Piece(t: Token): string {
    match t
    case Str(x) => "\"" + x + "\""
    case Open => "{"
    case Close => "}"
  }

  /** Tokens written on one line, one space between neighbours. */
  function RenderTokens(ts: seq<Token>): string {
    if ts == [] then ""
    else if |ts| == 1 then Piece(ts[0])
    else Piece(ts[0]) + " " + RenderTokens(ts[1..])
  }

  /** The closing quote found from `k` does not depend on the text before the scan. */
  lemma {:induction false} QuoteEndShift(p: string, r: string, k: nat)
    ensures QuoteEnd(p + r, |p| + k) == if QuoteEnd(r, k).Some? then Some(|p| + QuoteEnd(r, k).value) else None
    decreases |r| - k
  {
    var s := p + r;
    if k < |r| {
      assert s[|p| + k] == r[k];
      if r[k] == '\\' {
        if k + 1 < |r| {
          assert s[|p| + k + 1] == r[k + 1];
          QuoteEndShift(p, r, k + 2);
        }
      } else if r[k] != '"' {
        QuoteEndShift(p, r, k + 1);
      }
    }
  }

  /** The tokens found from `i` do not depend on the text before the scan. */
  lemma {:induction false} TokensShift(p: string, r: string, i: nat)
    ensures TokensFrom(p + r, |p| + i) == TokensFrom(r, i)
    decreases |r| - i
  {
    if i < |r| {
      if r[i] == '"' {
        QuoteEndShift(p, r, i + 1);
      }
      if r[i] == '"' && QuoteEnd(r, i + 1).Some? {
        var j := QuoteEnd(r, i + 1).value;
        TokensShift(p, r, j + 1);
        TokensShiftString(p, r, i, j);
      } else {
        TokensShift(p, r, i + 1);
        TokensShiftOther(p, r, i);
      }
    }
  }

  /** The step of `TokensShift` over a closed string. */
  lemma TokensShiftString(p: string, r: string, i: nat, j: nat)
    requires i < |r| && r[i] == '"' && QuoteEnd(r, i + 1) == Some(j)
    requires QuoteEnd(p + r, |p| + i + 1) == Some(|p| + j)
    requires TokensFrom(p + r, |p| + j + 1) == TokensFrom(r, j + 1)
    ensures TokensFrom(p + r, |p| + i) == TokensFrom(r, i)
  {
    assert (p + r)[|p| + i] == '"';
    SliceShift(p, r, i + 1, j);
    TokensFromString(p + r, |p| + i, |p| + j);
    TokensFromString(r, i, j);
  }

  /** The scan over a closed string at `i` ending at `j`. */
  lemma TokensFromString(s: string, i: nat, j: nat)
    requires i < |s| && s[i] == '"' && QuoteEnd(s, i + 1) == Some(j)
    ensures TokensFrom(s, i) == [Str(s[i + 1..j])] + TokensFrom(s, j + 1)
  {
  }

  lemma SliceShift(p: string, r: string, a: nat, b: nat)
    requires a <= b <= |r|
    ensures (p + r)[|p| + a..|p| + b] == r[a..b]
  {
  }

  /** The step of `TokensShift` over any other character. */
  lemma TokensShiftOther(p: string, r: string, i: nat)
    requires i < |r| && !(r[i] == '"' && QuoteEnd(r, i + 1).Some?)
    requires r[i] == '"' ==> QuoteEnd(p + r, |p| + i + 1).None?
    requires TokensFrom(p + r, |p| + i + 1) == TokensFrom(r, i + 1)
    ensures TokensFrom(p + r, |p| + i) == TokensFrom(r, i)
  {
    assert (p + r)[|p| + i] == r[i];
  }

  /** With no quote or backslash between `k` and `j`, the quote at `j` closes the string. */
  lemma {:induction false} QuoteEndPlain(s: string, k: nat, j: nat)
    requires k <= j < |s| && s[j] == '"'
    requires forall m :: k <= m < j ==> s[m] != '"' && s[m] != '\\'
    ensures QuoteEnd(s, k) == Some(j)
    decreases j - k
  {
    if k < j {
      QuoteEndPlain(s, k + 1, j);
    }
  }

  /** A written token is read back as that token, and the scan goes on after it. */
  lemma TokenizePiece(t: Token, rest: string)
    requires PlainToken(t)
    ensures Tokenize(Piece(t) + rest) == [t] + Tokenize(rest)
  {
    var s := Piece(t) + rest;
    TokensShift(Piece(t), rest, 0);
    match t
    case Str(x) =>
      forall m | 1 <= m < |x| + 1 ensures s[m] != '"' && s[m] != '\\' {
        assert s[m] == x[m - 1];
      }
      QuoteEndPlain(s, 1, |x| + 1);
      assert s[1..|x| + 1] == x;
    case Open =>
    case Close =>
  }

  /** A space between tokens is skipped. */
  lemma TokenizeSpace(rest: string)
    ensures Tokenize(" " + rest) == Tokenize(rest)
  {
    TokensShift(" ", rest, 0);
  }

  /** Tokens written by `RenderTokens` are read back by the token pattern, one for one. */
  lemma {:induction false} TokenizeRender(ts: seq<Token>)
    requires forall i :: 0 <= i < |ts| ==> PlainToken(ts[i])
    ensures Tokenize(RenderTokens(ts)) == ts
  {
    if |ts| == 1 {
      TokenizePiece(ts[0], "");
      assert Piece(ts[0]) + "" == Piece(ts[0]);
    } else if |ts| > 1 {
      TokenizeRender(ts[1..]);
      var rest := RenderTokens(ts[1..]);
      TokenizePiece(ts[0], " " + rest);
      assert Piece(ts[0]) + " " + rest == Piece(ts[0]) + (" " + rest);
      TokenizeSpace(rest);
      assert [ts[0]] + ts[1..] == ts;
    }
  }

  /** A character `RenderTokens` writes for plain tokens: plain, a quote, a brace or a space. */
  predicate WrittenChar(c: char) {
    PlainChar(c) || c == '"' || c == '{' || c == '}' || c == ' '
  }

  lemma PieceChars(t: Token)
    requires PlainToken(t)
    ensures forall i :: 0 <= i < |Piece(t)| ==> WrittenChar(Piece(t)[i])
  {
    if t.Str? {
      var p := Piece(t);
      forall i | 0 <= i < |p| ensures WrittenChar(p[i]) {
        if 0 < i < |p| - 1 {
          assert p[i] == t.raw[i - 1];
        }
      }
    }
  }

  /** Every character written for plain tokens is plain, a quote, a brace or a space. */
  lemma {:induction false} RenderedChars(ts: seq<Token>)
    requires forall i :: 0 <= i < |ts| ==> PlainToken(ts[i])
    ensures forall i :: 0 <= i < |RenderTokens(ts)| ==> WrittenChar(RenderTokens(ts)[i])
  {
    if ts != [] {
      PieceChars(ts[0]);
      if |ts| > 1 {
        RenderedChars(ts[1..]);
        var s, p, r := RenderTokens(ts), Piece(ts[0]), RenderTokens(ts[1..]);
        assert s == p + " " + r;
        forall i | 0 <= i < |s| ensures WrittenChar(s[i]) {
          if i < |p| {
            assert s[i] == p[i];
          } else if i == |p| {
            assert s[i] == " "[0];
          } else {
            assert s[i] == r[i - |p| - 1];
          }
        }
      }
    }
  }

  /** A non-empty rendering starts and ends with a quote or a brace. */
  lemma {:induction false} RenderedEnds(ts: seq<Token>)
    requires ts != []
    ensures var s := RenderTokens(ts);
      && s != [] && (s[0] == '"' || s[0] == '{' || s[0] == '}')
      && (s[|s| - 1] == '"' || s[|s| - 1] == '{' || s[|s| - 1] == '}')
  {
    if |ts| > 1 {
      RenderedEnds(ts[1..]);
    }
  }

  // ---------------------------------------------------------------------------------------
  // Unescaping: token.encode('utf-8').decode('unicode_escape')

  predicate IsOctalByte(b: byte) {
    '0' as int <= b as int <= '7' as int
  }

  function HexDigitValue(b: byte): Option<nat> {
    if '0' as int <= b as int <= '9' as int then Some(b as int - '0' as int)
    else if 'a' as int <= b as int <= 'f' as int then Some(b as int - 'a' as int + 10)
    else if 'A' as int <= b as int <= 'F' as int then Some(b as int - 'A' as int + 10)
    else None
  }

  /** The value of `bs` read as hexadecimal digits, or None if one is not a hex digit. */
  function HexValue(bs: seq<byte>): (r: Option<nat>)
    ensures r.Some? ==> r.value < Pow16(|bs|)
  {
    if bs == [] then Some(0)
    else
      match (HexValue(bs[..|bs| - 1]), HexDigitValue(bs[|bs| - 1]))
      case (Some(h), Some(d)) => Some(h * 16 + d)
      case _ => None
  }

  function Pow16(k: nat): (p: nat)
    ensures p > 0
  {
    if k == 0 then 1 else 16 * Pow16(k - 1)
  }

  function Prepend(c: char, r: Option<string>): Option<string> {
    match r
    case Some(s) => Some([c] + s)
    case None => None
  }

  /** The character for a single-letter escape (`\n`, `\t`, ...), or None if `b` names none. */
  function SimpleEscape(b: byte): Option<char> {
    var c := b as int as char;
    if c == '\\' || c == '\'' || c == '"' then Some(c)
    else if c == 'a' then Some('\U{7}')
    else if c == 'b' then Some('\U{8}')
    else if c == 'f' then Some('\U{c}')
    else if c == 'n' then Some('\n')
    else if c == 'r' then Some('\r')
    else if c == 't' then Some('\t')
    else if c == 'v' then Some('\U{b}')
    else None
  }

  /**
   * The `unicode_escape` codec on a byte string: plain bytes become the character with the same
   * code; `\` followed by a newline disappears; simple escapes, up to three octal digits,
   * `\xhh`, `\uhhhh` and `\Uhhhhhhhh` give one character; any other escaped byte is kept with its
   * backslash.  None where the codec raises: a trailing backslash, too few hex digits, a code
   * point above U+10FFFF.  None also for `\u`/`\U` escapes of U+D800..U+DFFF: the codec accepts
   * them and yields a lone surrogate, which a Dafny `char` cannot hold, so this model treats
   * them as raising.  `\N{...}` is not modelled: `\N` is kept with its backslash like any other
   * unknown escape, where the codec decodes a valid character name and raises on any other.
   */
  function UnescapeBytes(b: seq<byte>): Option<string>
    decreases |b|
  {
    if b == [] then Some([])
    else if b[0] as int != '\\' as int then Prepend(b[0] as int as char, UnescapeBytes(b[1..]))
    else if |b| == 1 then None
    else
      var e := b[1];
      if e as int == '\n' as int then UnescapeBytes(b[2..])
      else if SimpleEscape(e).Some? then Prepend(SimpleEscape(e).value, UnescapeBytes(b[2..]))
      else if IsOctalByte(e) then
        var n := if |b| > 2 && IsOctalByte(b[2]) then (if |b| > 3 && IsOctalByte(b[3]) then 3 else 2) else 1;
        var v := OctalValue(b[1..1 + n]);
        Prepend(v as char, UnescapeBytes(b[1 + n..]))
      else if e as int == 'x' as int then HexEscape(b, 2)
      else if e as int == 'u' as int then HexEscape(b, 4)
      else if e as int == 'U' as int then HexEscape(b, 8)
      else Prepend('\\', Prepend(e as int as char, UnescapeBytes(b[2..])))
  }

  /**
   * `\x`, `\u` or `\U` at the start of `b`, followed by exactly `n` hex digits.  A code point
   * above U+10FFFF raises, as in the codec; a surrogate one (which the codec accepts) is treated
   * as raising too, as `UnescapeBytes` says.
   */
  function HexEscape(b: seq<byte>, n: nat): Option<string>
    requires |b| >= 2 && n > 0
    decreases |b|, 0
  {
    if |b| < 2 + n then None
    else
      match HexValue(b[2..2 + n])
      case None => None
      case Some(v) =>
        if v > 0x10FFFF || (0xD800 <= v < 0xE000) then None
        else Prepend(v as char, UnescapeBytes(b[2 + n..]))
  }

  function OctalDigit(b: byte): (d: nat)
    requires IsOctalByte(b)
    ensures d < 8
  {
    b as int - '0' as int
  }

  function OctalValue(bs: seq<byte>): (v: nat)
    requires |bs| <= 3 && forall i :: 0 <= i < |bs| ==> IsOctalByte(bs[i])
    ensures v < if |bs| == 0 then 1 else if |bs| == 1 then 8 else if |bs| == 2 then 64 else 512
  {
    if bs == [] then 0 else OctalValue(bs[..|bs| - 1]) * 8 + OctalDigit(bs[|bs| - 1])
  }

  /** How `parse_text` unescapes the body of a string token. */
  function Unescape(raw: string): Option<string> {
    UnescapeBytes(Utf8(raw))
  }

  predicate NoBackslash(s: string) {
    forall i :: 0 <= i < |s| ==> s[i] != '\\'
  }

  /** Bytes without a backslash are read one character per byte. */
  lemma {:induction false} UnescapePlainBytes(b: seq<byte>)
    requires forall i :: 0 <= i < |b| ==> b[i] as int != '\\' as int
    ensures UnescapeBytes(b) == Some(Latin1(b))
  {
    if b != [] {
      UnescapePlainBytes(b[1..]);
      assert Latin1(b) == [b[0] as int as char] + Latin1(b[1..]);
    }
  }

  /** An ASCII token body without backslashes unescapes to itself. */
  lemma UnescapePlain(raw: string)
    requires IsAscii(raw) && NoBackslash(raw)
    ensures Unescape(raw) == Some(raw)
  {
    Utf8Ascii(raw);
    UnescapePlainBytes(Utf8(raw));
  }
}
