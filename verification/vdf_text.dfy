/**
 * The text KeyValues parser, `VdfParser.parse_text`.
 *
 * The source keeps a stack of open dicts, the dict being filled (`current`), a pending `key`
 * and an `expect_key` flag, and inserts each new child dict into its parent before descending
 * into it, so the parent and the stack share the child.  Here the open maps are values: each
 * stack frame holds the parent's entries (with the child's slot already inserted) and the key of
 * that slot, and closing a map writes the finished child back into that slot.  Maps still open at
 * the end of the input are written back the same way, which is what the shared dicts give.
 */
module VdfText {
  import opened Wrappers
  import opened VdfValue
  import opened VdfLex
  import opened Text

  /** An open map's parent, already holding the child's slot under `key`. */
  datatype Frame = Frame(parent: Entries, key: string)

  datatype State = State(frames: seq<Frame>, current: Entries, key: Option<string>, expectKey: bool)

  /** When a value is expected, a key is pending. */
  predicate Valid(st: State) {
    !st.expectKey ==> st.key.Some?
  }

  const Start := State([], [], None, true)

  /** One token of the loop in `parse_text`; None when unescaping the token raises. */
  function Step(st: State, t: Token): (r: Option<State>)
    requires Valid(st)
    ensures r.Some? ==> Valid(r.value)
  {
    match t
    case Open =>
      if st.key.None? then Some(st)
      else
        var k := st.key.value;
        Some(State(st.frames + [Frame(Assign(st.current, k, VMap([])), k)], [], None, true))
    case Close =>
      if st.frames == [] then Some(st.(expectKey := true))
      else
        var f := st.frames[|st.frames| - 1];
        Some(State(st.frames[..|st.frames| - 1], Assign(f.parent, f.key, VMap(st.current)), st.key, true))
    case Str(raw) =>
      match Unescape(raw)
      case None => None
      case Some(v) =>
        if st.expectKey then Some(st.(key := Some(v), expectKey := false))
        else Some(st.(current := Assign(st.current, st.key.value, VStr(v)), key := None, expectKey := true))
  }

  /** The loop over `tokens` from `st`; None as soon as a token raises. */
  function Run(st: State, tokens: seq<Token>): (r: Option<State>)
    requires Valid(st)
    ensures r.Some? ==> Valid(r.value)
  {
    if tokens == [] then Some(st)
    else
      match Run(st, tokens[..|tokens| - 1])
      case None => None
      case Some(s) => Step(s, tokens[|tokens| - 1])
  }

  /** Writes every open map back into its parent, innermost first. */
  function Fold(frames: seq<Frame>, current: Entries): Entries {
    if frames == [] then current
    else
      var f := frames[|frames| - 1];
      Fold(frames[..|frames| - 1], Assign(f.parent, f.key, VMap(current)))
  }

  function Root(st: State): Entries {
    Fold(st.frames, st.current)
  }

  /** The root dict `parse_text` returns after reading `tokens`, or None if it raises. */
  function ParseTokens(tokens: seq<Token>): Option<Entries> {
    match Run(Start, tokens)
    case None => None
    case Some(st) => Some(Root(st))
  }

  /** What `parse_text(content)` returns, or None if it raises. */
  function Parsed(content: string): Option<Entries> {
    ParseTokens(Tokenize(Stripped(content)))
  }

  /** `VdfParser.parse_text`: None stands for the exception an invalid escape raises. */
  method ParseText(content: string) returns (r: Option<Entries>)
    ensures r == Parsed(content)
  {
    var text := StripComments(content);
    r := ParseTokenStream(Tokenize(text));
  }

  /** The token loop of `parse_text`. */
  method ParseTokenStream(tokens: seq<Token>) returns (r: Option<Entries>)
    ensures r == ParseTokens(tokens)
  {
    var stack: seq<Frame> := [];
    var current: Entries := [];
    var expectKey := true;
    var key: Option<string> := None;
    for i := 0 to |tokens|
      invariant Run(Start, tokens[..i]) == Some(State(stack, current, key, expectKey))
    {
      ghost var st := State(stack, current, key, expectKey);
      assert tokens[..i + 1][..i] == tokens[..i];
      assert Run(Start, tokens[..i + 1]) == Step(st, tokens[i]);
      match tokens[i]
      case Open =>
        if key.None? {
          continue;
        }
        current := Assign(current, key.value, VMap([]));
        stack := stack + [Frame(current, key.value)];
        current := [];
        expectKey := true;
        key := None;
      case Close =>
        if stack != [] {
          var f := stack[|stack| - 1];
          current := Assign(f.parent, f.key, VMap(current));
          stack := stack[..|stack| - 1];
        }
        expectKey := true;
      case Str(raw) =>
        var val := Unescape(raw);
        if val.None? {
          RunStops(Start, tokens, i + 1);
          assert tokens[..|tokens|] == tokens;
          return None;
        }
        if expectKey {
          key := val;
          expectKey := false;
        } else {
          current := Assign(current, key.value, VStr(val.value));
          expectKey := true;
          key := None;
        }
    }
    assert tokens[..|tokens|] == tokens;
    r := Some(Fold(stack, current));
  }

  // ---------------------------------------------------------------------------------------
  // Running token sequences piece by piece

  /** Once a prefix raises, the whole run raises. */
  lemma {:induction false} RunStops(st: State, tokens: seq<Token>, n: nat)
    requires Valid(st) && n <= |tokens| && Run(st, tokens[..n]).None?
    ensures Run(st, tokens).None?
  {
    if n < |tokens| {
      assert tokens[..|tokens| - 1][..n] == tokens[..n];
      RunStops(st, tokens[..|tokens| - 1], n);
    } else {
      assert tokens[..n] == tokens;
    }
  }

  /** Running `a + b` is running `a`, then `b` from where `a` ended. */
  lemma {:induction false} RunAppend(st: State, a: seq<Token>, b: seq<Token>)
    requires Valid(st)
    ensures Run(st, a + b) == match Run(st, a) case None => None case Some(s) => Run(s, b)
  {
    if b == [] {
      assert a + b == a;
    } else {
      RunAppend(st, a, b[..|b| - 1]);
      assert (a + b)[..|a + b| - 1] == a + b[..|b| - 1];
    }
  }

  lemma RunOne(st: State, t: Token)
    requires Valid(st)
    ensures Run(st, [t]) == Step(st, t)
  {
    assert [t][..0] == [];
  }

  // ---------------------------------------------------------------------------------------
  // Errors

  predicate RaisesAt(tokens: seq<Token>, i: int) {
    0 <= i < |tokens| && tokens[i].Str? && Unescape(tokens[i].raw).None?
  }

  /** The loop raises exactly when some string token has an escape `unicode_escape` rejects. */
  lemma {:induction false} RunRaises(st: State, tokens: seq<Token>)
    requires Valid(st)
    ensures Run(st, tokens).None? <==> exists i :: RaisesAt(tokens, i)
  {
    if tokens != [] {
      var init := tokens[..|tokens| - 1];
      RunRaises(st, init);
      assert forall i :: 0 <= i < |init| ==> (RaisesAt(init, i) <==> RaisesAt(tokens, i));
      if Run(st, init).Some? {
        var s := Run(st, init).value;
        assert Step(s, tokens[|tokens| - 1]).None? <==> RaisesAt(tokens, |tokens| - 1);
      }
    }
  }

  /** `parse_text` raises exactly when some string token has an invalid escape. */
  lemma ParseRaises(tokens: seq<Token>)
    ensures ParseTokens(tokens).None? <==> exists i :: RaisesAt(tokens, i)
  {
    RunRaises(Start, tokens);
  }

  // ---------------------------------------------------------------------------------------
  // The text parser builds only strings and maps, with unique keys

  /** A tree of strings and maps only, every map with unique keys. */
  predicate TextTree(v: Value) {
    match v
    case VStr(_) => true
    case VMap(e) => KeysUnique(e) && forall i :: 0 <= i < |e| ==> TextTree(e[i].1)
    case _ => false
  }

  predicate TextEntries(e: Entries) {
    TextTree(VMap(e))
  }

  predicate TextState(st: State) {
    && TextEntries(st.current)
    && forall i :: 0 <= i < |st.frames| ==> TextEntries(st.frames[i].parent)
  }

  lemma AssignText(e: Entries, k: string, v: Value)
    requires TextEntries(e) && TextTree(v)
    ensures TextEntries(Assign(e, k, v))
  {
    AssignSpec(e, k, v);
    var r := Assign(e, k, v);
    if HasKey(e, k) {
      var i :| 0 <= i < |e| && e[i].0 == k;
      AssignExisting(e, k, v, i);
      forall j | 0 <= j < |r| ensures TextTree(r[j].1) {
        if j != i {
          assert r[j] == e[j];
        }
      }
    } else {
      AssignNew(e, k, v);
      forall j | 0 <= j < |r| ensures TextTree(r[j].1) {
        if j < |e| {
          assert r[j] == e[j];
        }
      }
    }
  }

  lemma StepText(st: State, t: Token)
    requires Valid(st) && TextState(st) && Step(st, t).Some?
    ensures TextState(Step(st, t).value)
  {
    match t
    case Open =>
      if st.key.Some? {
        AssignText(st.current, st.key.value, VMap([]));
      }
    case Close =>
      if st.frames != [] {
        var f := st.frames[|st.frames| - 1];
        AssignText(f.parent, f.key, VMap(st.current));
      }
    case Str(raw) =>
      if !st.expectKey {
        AssignText(st.current, st.key.value, VStr(Unescape(raw).value));
      }
  }

  lemma {:induction false} RunText(st: State, tokens: seq<Token>)
    requires Valid(st) && TextState(st) && Run(st, tokens).Some?
    ensures TextState(Run(st, tokens).value)
  {
    if tokens != [] {
      RunText(st, tokens[..|tokens| - 1]);
      StepText(Run(st, tokens[..|tokens| - 1]).value, tokens[|tokens| - 1]);
    }
  }

  lemma {:induction false} FoldText(frames: seq<Frame>, current: Entries)
    requires TextEntries(current)
    requires forall i :: 0 <= i < |frames| ==> TextEntries(frames[i].parent)
    ensures TextEntries(Fold(frames, current))
  {
    if frames != [] {
      var f := frames[|frames| - 1];
      AssignText(f.parent, f.key, VMap(current));
      FoldText(frames[..|frames| - 1], Assign(f.parent, f.key, VMap(current)));
    }
  }

  /**
   * The text parser never produces numbers: every value it returns is a string or a map, and no
   * map has a key twice.
   */
  lemma ParseIsTextTree(tokens: seq<Token>)
    requires ParseTokens(tokens).Some?
    ensures TextEntries(ParseTokens(tokens).value)
  {
    RunText(Start, tokens);
    var st := Run(Start, tokens).value;
    FoldText(st.frames, st.current);
  }

  // ---------------------------------------------------------------------------------------
  // Keys, values and braces

  /**
   * A key token followed by a value token stores the unescaped value under the unescaped key in
   * the map being filled (replacing an earlier value of that key), and clears the pending key.
   */
  lemma KeyThenValue(st: State, k: string, v: string)
    requires Valid(st) && st.expectKey
    requires Unescape(k).Some? && Unescape(v).Some?
    ensures Run(st, [Str(k), Str(v)]) ==
      Some(st.(current := Assign(st.current, Unescape(k).value, VStr(Unescape(v).value)), key := None))
  {
    assert [Str(k), Str(v)][..1] == [Str(k)];
    RunOne(st, Str(k));
  }

  /** `{` with no pending key is ignored: the tokens after it are read as if it were absent. */
  lemma OpenWithoutKeyIgnored(before: seq<Token>, after: seq<Token>)
    requires Run(Start, before).Some? && Run(Start, before).value.key.None?
    ensures ParseTokens(before + [Open] + after) == ParseTokens(before + after)
  {
    var st := Run(Start, before).value;
    RunAppend(Start, before + [Open], after);
    RunAppend(Start, before, [Open]);
    RunOne(st, Open);
    RunAppend(Start, before, after);
  }

  /** `}` with no open map stays at the root without error and changes nothing but the flag. */
  lemma CloseAtRoot(st: State)
    requires Valid(st) && st.frames == []
    ensures Step(st, Close) == Some(st.(expectKey := true))
  {
  }

  /**
   * `}` closes the open map but keeps a dangling pending key, and resets `expect_key`; a `{`
   * right after it then opens a new map under that key in the parent, replacing whatever the
   * parent held under it.
   */
  lemma DanglingKeyReused(st: State)
    requires Valid(st) && st.key.Some? && st.frames != []
    ensures var f := st.frames[|st.frames| - 1];
      var k := st.key.value;
      var parent := Assign(f.parent, f.key, VMap(st.current));
      && Step(st, Close) == Some(State(st.frames[..|st.frames| - 1], parent, st.key, true))
      && Run(st, [Close, Open]) ==
           Some(State(st.frames[..|st.frames| - 1] + [Frame(Assign(parent, k, VMap([])), k)], [], None, true))
  {
    RunTwo(st, Close, Open);
  }

  /** An instance: in `"a" { "b" } { }` the key "b" left pending inside "a" names a map in the root. */
  lemma DanglingKeyExample()
    ensures ParseTokens([Str("a"), Open, Str("b"), Close, Open, Close]) ==
      Some([("a", VMap([])), ("b", VMap([]))])
  {
    var head := [Str("a"), Open, Str("b"), Close];
    var p := [("a", VMap([]))];
    DanglingKeyHead();
    DanglingKeyTail(p);
    RunAppend(Start, head, [Open, Close]);
    assert head + [Open, Close] == [Str("a"), Open, Str("b"), Close, Open, Close];
  }

  /** After `"a" { "b" }` the map under "a" is closed and "b" is still pending. */
  lemma DanglingKeyHead()
    ensures Run(Start, [Str("a"), Open, Str("b"), Close]) ==
      Some(State([], [("a", VMap([]))], Some("b"), true))
  {
    var p := [("a", VMap([]))];
    var fa: seq<Frame> := [Frame(p, "a")];
    UnescapePlainExample("a");
    UnescapePlainExample("b");
    assert Assign([], "a", VMap([])) == p;
    assert Assign(p, "a", VMap([])) == p;
    assert [] + fa == fa;
    RunTwo(Start, Str("a"), Open);
    var s2 := State(fa, [], None, true);
    assert Run(Start, [Str("a"), Open]) == Some(s2);
    RunTwo(s2, Str("b"), Close);
    RunAppend(Start, [Str("a"), Open], [Str("b"), Close]);
    assert [Str("a"), Open] + [Str("b"), Close] == [Str("a"), Open, Str("b"), Close];
  }

  /** With "b" pending over the root, `{ }` adds an empty map under "b". */
  lemma DanglingKeyTail(p: Entries)
    requires p == [("a", VMap([]))]
    ensures Run(State([], p, Some("b"), true), [Open, Close]) ==
      Some(State([], [("a", VMap([])), ("b", VMap([]))], None, true))
  {
    var q := [("a", VMap([])), ("b", VMap([]))];
    var fb: seq<Frame> := [Frame(q, "b")];
    assert Assign(p, "b", VMap([])) == q;
    assert Assign(q, "b", VMap([])) == q;
    assert [] + fb == fb;
    RunTwo(State([], p, Some("b"), true), Open, Close);
  }

  /** Two tokens run one after the other. */
  lemma RunTwo(st: State, t1: Token, t2: Token)
    requires Valid(st) && Step(st, t1).Some?
    ensures Run(st, [t1, t2]) == Step(Step(st, t1).value, t2)
  {
    assert [t1, t2][..1] == [t1];
    RunOne(st, t1);
  }

  lemma UnescapePlainExample(s: string)
    requires s == "a" || s == "b"
    ensures Unescape(s) == Some(s)
  {
    UnescapePlain(s);
  }

  /** Folding the open maps back puts a map under the key of the outermost open map. */
  lemma {:induction false} FoldKeepsOutermost(frames: seq<Frame>, current: Entries)
    requires frames != []
    ensures Get(Fold(frames, current), frames[0].key).Some?
    ensures Get(Fold(frames, current), frames[0].key).value.VMap?
  {
    var f := frames[|frames| - 1];
    var c := Assign(f.parent, f.key, VMap(current));
    if |frames| == 1 {
      GetAssign(f.parent, f.key, VMap(current));
    } else {
      FoldKeepsOutermost(frames[..|frames| - 1], c);
    }
  }

  /**
   * Maps left open at the end of the input still appear in the result: the outermost one under
   * its key in the root.
   */
  lemma UnclosedMapsKept(tokens: seq<Token>)
    requires Run(Start, tokens).Some? && Run(Start, tokens).value.frames != []
    ensures var st := Run(Start, tokens).value;
      && ParseTokens(tokens).Some?
      && Get(ParseTokens(tokens).value, st.frames[0].key).Some?
      && Get(ParseTokens(tokens).value, st.frames[0].key).value.VMap?
  {
    var st := Run(Start, tokens).value;
    FoldKeepsOutermost(st.frames, st.current);
  }

  // ---------------------------------------------------------------------------------------
  // Whole documents

  /**
   * Comment stripping does not look at quotes: in `"url" "http://host"` the text from `//` on is
   * cut, the value's opening quote is left unmatched, and only the key survives, so the result
   * is an empty root.
   */
  lemma UrlValueCutAsComment()
    ensures Parsed("\"url\" \"http://host\"") == Some([])
  {
    UrlLineStripped();
    UrlLineTokens();
    KeyAloneIsEmpty();
  }

  /** A lone key is waiting for its value when the input ends: the root stays empty. */
  lemma KeyAloneIsEmpty()
    ensures ParseTokens([Str("url")]) == Some([])
  {
    UnescapePlain("url");
    RunOne(Start, Str("url"));
  }

  /** A document of one line is that line cleaned, when something is left of it. */
  lemma StrippedOneLine(line: string)
    requires NoLineBreak(line) && CleanLine(line) != []
    ensures Stripped(line) == CleanLine(line)
  {
    SplitLinesOne(line);
    assert [line][..0] == [];
    assert CleanLines([line]) == [CleanLine(line)];
  }

  lemma UrlLineStripped()
    ensures Stripped("\"url\" \"http://host\"") == "\"url\" \"http:"
  {
    UrlLineClean();
    UrlLineNoBreak();
    StrippedOneLine("\"url\" \"http://host\"");
  }

  lemma UrlLineClean()
    ensures CleanLine("\"url\" \"http://host\"") == "\"url\" \"http:"
  {
    UrlLineCut();
    UrlKeptEnds();
    StripFixed("\"url\" \"http:");
  }

  lemma UrlKeptEnds()
    ensures !IsSpace("\"url\" \"http:"[0]) && !IsSpace("\"url\" \"http:"[11])
  {
  }

  lemma UrlLineCut()
    ensures BeforeComment("\"url\" \"http://host\"") == "\"url\" \"http:"
  {
    var kept := "\"url\" \"http:";
    assert "\"url\" \"http://host\"" == kept + "//" + "host\"";
    forall i | 0 <= i < |kept| - 1 ensures !(kept[i] == '/' && kept[i + 1] == '/') {
    }
    CommentCut(kept, "host\"");
  }

  lemma UrlLineNoBreak()
    ensures NoLineBreak("\"url\" \"http://host\"")
  {
  }

  lemma UrlLineTokens()
    ensures Tokenize("\"url\" \"http:") == [Str("url")]
  {
    var kept := "\"url\" \"http:";
    assert QuoteEnd(kept, 11) == None;
    assert QuoteEnd(kept, 7) == None;
    assert TokensFrom(kept, 7) == [];
    assert TokensFrom(kept, 5) == [];
    assert QuoteEnd(kept, 1) == Some(4);
    assert kept[1..4] == "url";
  }

  // ---------------------------------------------------------------------------------------
  // Writing a tree as text and parsing it back

  /** A tree the text format can carry: strings and maps, unique keys, plain keys and strings. */
  predicate Renderable(v: Value) {
    match v
    case VStr(x) => PlainRaw(x)
    case VMap(e) => KeysUnique(e) && forall i :: 0 <= i < |e| ==> PlainRaw(e[i].0) && Renderable(e[i].1)
    case _ => false
  }

  /** The tokens of one entry: `"k" "x"` for a string, `"k" { ... }` for a map. */
  function EntryTokens(k: string, x: Value): seq<Token>
    decreases x, if x.VMap? then |x.entries| + 1 else 0
  {
    match x
    case VMap(e) => [Str(k), Open] + EntriesTokens(x, |e|) + [Close]
    case VStr(s) => [Str(k), Str(s)]
    case _ => []
  }

  /** The tokens of the first `n` entries of map `v`, in order. */
  function EntriesTokens(v: Value, n: nat): seq<Token>
    requires v.VMap? && n <= |v.entries|
    decreases v, n
  {
    if n == 0 then []
    else EntriesTokens(v, n - 1) + EntryTokens(v.entries[n - 1].0, v.entries[n - 1].1)
  }

  /** A map written as one line of text. */
  function Render(e: Entries): string {
    RenderTokens(EntriesTokens(VMap(e), |e|))
  }

  lemma {:induction false} EntryTokensPlain(k: string, x: Value)
    requires PlainRaw(k) && Renderable(x)
    ensures forall i :: 0 <= i < |EntryTokens(k, x)| ==> PlainToken(EntryTokens(k, x)[i])
    decreases x, if x.VMap? then |x.entries| + 1 else 0
  {
    if x.VMap? {
      EntriesTokensPlain(x, |x.entries|);
    }
  }

  /** Every string token written for a renderable map is plain. */
  lemma {:induction false} EntriesTokensPlain(v: Value, n: nat)
    requires v.VMap? && Renderable(v) && n <= |v.entries|
    ensures forall i :: 0 <= i < |EntriesTokens(v, n)| ==> PlainToken(EntriesTokens(v, n)[i])
    decreases v, n
  {
    if n > 0 {
      EntriesTokensPlain(v, n - 1);
      EntryTokensPlain(v.entries[n - 1].0, v.entries[n - 1].1);
    }
  }

  /** Overwriting the value of the last key, when it is new in the entries before it. */
  lemma {:induction false} AssignLast(c: Entries, k: string, v1: Value, v2: Value)
    requires !HasKey(c, k)
    ensures Assign(c + [(k, v1)], k, v2) == c + [(k, v2)]
  {
    if c != [] {
      assert c[0].0 != k;
      assert !HasKey(c[1..], k) by {
        forall i | 0 <= i < |c[1..]| ensures c[1..][i].0 != k {
          assert c[1..][i] == c[i + 1];
        }
      }
      AssignLast(c[1..], k, v1, v2);
      assert (c + [(k, v1)])[1..] == c[1..] + [(k, v1)];
    }
  }

  /** The parser inside the maps `frames`, holding `current`, ready for a key. */
  function AtKey(frames: seq<Frame>, current: Entries): State {
    State(frames, current, None, true)
  }

  /**
   * Reading one written entry appends it to the map being filled, when its key is new there;
   * the parser ends ready for the next key, inside the same maps.
   */
  lemma {:induction false} RunEntry(frames: seq<Frame>, c: Entries, k: string, x: Value)
    requires PlainRaw(k) && Renderable(x) && !HasKey(c, k)
    ensures Run(AtKey(frames, c), EntryTokens(k, x)) == Some(AtKey(frames, c + [(k, x)]))
    decreases x, if x.VMap? then |x.entries| + 1 else 0, 0
  {
    var st := AtKey(frames, c);
    UnescapePlain(k);
    match x
    case VStr(s) =>
      UnescapePlain(s);
      KeyThenValue(st, k, s);
      AssignNew(c, k, x);
    case VMap(e) =>
      var inner := frames + [Frame(Assign(c, k, VMap([])), k)];
      RunTwo(st, Str(k), Open);
      RunEntries(inner, x, |e|);
      assert e[..|e|] == e;
      RunThen(st, [Str(k), Open], EntriesTokens(x, |e|), AtKey(inner, []));
      RunThen(st, [Str(k), Open] + EntriesTokens(x, |e|), [Close], AtKey(inner, e));
      RunOne(AtKey(inner, e), Close);
      AssignNew(c, k, VMap([]));
      AssignLast(c, k, VMap([]), x);
  }

  /** Reading the first `n` written entries of `v` into an empty map gives those entries. */
  lemma {:induction false} RunEntries(frames: seq<Frame>, v: Value, n: nat)
    requires v.VMap? && Renderable(v) && n <= |v.entries|
    ensures Run(AtKey(frames, []), EntriesTokens(v, n)) == Some(AtKey(frames, v.entries[..n]))
    decreases v, n, 1
  {
    if n == 0 {
      assert v.entries[..0] == [];
    } else {
      RunEntries(frames, v, n - 1);
      RunEntriesStep(frames, v, n);
    }
  }

  /** One more entry, once the entries before it have been read. */
  lemma {:induction false} RunEntriesStep(frames: seq<Frame>, v: Value, n: nat)
    requires v.VMap? && Renderable(v) && 0 < n <= |v.entries|
    requires Run(AtKey(frames, []), EntriesTokens(v, n - 1)) == Some(AtKey(frames, v.entries[..n - 1]))
    ensures Run(AtKey(frames, []), EntriesTokens(v, n)) == Some(AtKey(frames, v.entries[..n]))
    decreases v, n, 0
  {
    var k, x := v.entries[n - 1].0, v.entries[n - 1].1;
    var before := v.entries[..n - 1];
    PrefixKeyNew(v.entries, n - 1);
    assert PlainRaw(k) && Renderable(x);
    RunEntry(frames, before, k, x);
    RunEntriesSnoc(frames, v, n, AtKey(frames, before));
    assert before + [(k, x)] == v.entries[..n];
  }

  /** The tokens of `n` entries are those of the first `n - 1` followed by those of entry `n - 1`. */
  lemma RunEntriesSnoc(frames: seq<Frame>, v: Value, n: nat, mid: State)
    requires v.VMap? && Renderable(v) && 0 < n <= |v.entries| && Valid(mid)
    requires Run(AtKey(frames, []), EntriesTokens(v, n - 1)) == Some(mid)
    ensures Run(AtKey(frames, []), EntriesTokens(v, n)) == Run(mid, EntryTokens(v.entries[n - 1].0, v.entries[n - 1].1))
  {
    RunThen(AtKey(frames, []), EntriesTokens(v, n - 1), EntryTokens(v.entries[n - 1].0, v.entries[n - 1].1), mid);
  }

  /** Running `a` and then `b` from where `a` ends is running `a + b`. */
  lemma RunThen(st: State, a: seq<Token>, b: seq<Token>, mid: State)
    requires Valid(st) && Run(st, a) == Some(mid)
    ensures Run(st, a + b) == Run(mid, b)
  {
    RunAppend(st, a, b);
  }

  /** With unique keys, the key of entry `m` is not among the entries before it. */
  lemma PrefixKeyNew(e: Entries, m: nat)
    requires m < |e| && KeysUnique(e)
    ensures !HasKey(e[..m], e[m].0) && e[..m] + [(e[m].0, e[m].1)] == e[..m + 1]
  {
  }

  /** Characters written for plain tokens are neither line breaks nor slashes. */
  lemma WrittenCharKind(c: char)
    requires WrittenChar(c)
    ensures !IsLineBreak(c) && c != '/'
  {
  }

  /** A written line is clean: no line break, no "//", nothing to trim at either end. */
  lemma WrittenLineClean(s: string)
    requires s != [] && forall i :: 0 <= i < |s| ==> WrittenChar(s[i])
    requires s[0] == '"' || s[0] == '{' || s[0] == '}'
    requires s[|s| - 1] == '"' || s[|s| - 1] == '{' || s[|s| - 1] == '}'
    ensures IsCleanLine(s)
  {
    forall i | 0 <= i < |s| ensures !IsLineBreak(s[i]) && s[i] != '/' {
      WrittenCharKind(s[i]);
    }
    StripFixed(s);
  }

  /** A written map is one clean line, so stripping comments leaves it as it is. */
  lemma StrippedRender(ts: seq<Token>)
    requires forall i :: 0 <= i < |ts| ==> PlainToken(ts[i])
    ensures Stripped(RenderTokens(ts)) == RenderTokens(ts)
  {
    var s := RenderTokens(ts);
    if ts == [] {
      assert SplitLines("") == [""];
      assert CleanLines([""]) == [];
    } else {
      RenderedChars(ts);
      RenderedEnds(ts);
      WrittenLineClean(s);
      CleanLineOfClean(s);
      StrippedOneLine(s);
    }
  }

  /**
   * A renderable map written as text is parsed back to the same map: the text parser reads what
   * the writer writes.
   */
  lemma ParseRender(e: Entries)
    requires Renderable(VMap(e))
    ensures Parsed(Render(e)) == Some(e)
  {
    var ts := EntriesTokens(VMap(e), |e|);
    EntriesTokensPlain(VMap(e), |e|);
    StrippedRender(ts);
    TokenizeRender(ts);
    RunEntries([], VMap(e), |e|);
    assert e[..|e|] == e;
  }
}
