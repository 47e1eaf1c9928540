/** Offset-to-line lookup of `scan_rust`: which line, and which line's symbol, a match belongs to. */
module LineLookup {
  import opened Options
  import opened RustLexer
  import opened RustLexerTheorems
  import opened RustLexerRegions
  import opened BlockOwnership

  /** Number of newlines in `text`. */
  function Newlines(text: string): nat {
    if text == "" then 0 else Newlines(text[..|text| - 1]) + (if text[|text| - 1] == '\n' then 1 else 0)
  }

  /** `_line_starts`: the offset of the first character of each line. */
  function Starts(text: string): seq<nat> {
    if text == "" then [0]
    else Starts(text[..|text| - 1]) + (if text[|text| - 1] == '\n' then [|text|] else [])
  }

  method LineStarts(text: string) returns (starts: seq<nat>)
    ensures starts == Starts(text)
  {
    starts := [0];
    for index := 0 to |text|
      invariant starts == Starts(text[..index])
    {
      assert text[..index + 1][..index] == text[..index];
      if text[index] == '\n' {
        starts := starts + [index + 1];
      }
    }
    assert text[..|text|] == text;
  }

  /** `bisect_right` on a sorted list: the number of elements not greater than `x`. */
  function BisectRight(xs: seq<nat>, x: nat): nat {
    if xs == [] then 0 else if xs[|xs| - 1] <= x then |xs| else BisectRight(xs[..|xs| - 1], x)
  }

  lemma {:induction false} StartsShape(text: string)
    ensures |Starts(text)| == Newlines(text) + 1 && Starts(text)[|Starts(text)| - 1] <= |text|
  {
    if text != "" { StartsShape(text[..|text| - 1]); }
  }

  /** The lookup returns the number of newlines before the offset. */
  lemma {:induction false} LookupCountsNewlines(text: string, pos: nat)
    requires pos <= |text|
    ensures BisectRight(Starts(text), pos) == Newlines(text[..pos]) + 1
  {
    StartsShape(text);
    if pos == |text| {
      assert text[..pos] == text;
    } else {
      var init := text[..|text| - 1];
      LookupCountsNewlines(init, pos);
      assert init[..pos] == text[..pos];
      if text[|text| - 1] == '\n' {
        assert Starts(text)[..|Starts(text)| - 1] == Starts(init);
      } else {
        assert Starts(text) == Starts(init);
      }
    }
  }

  lemma {:induction false} NewlinesConcat(a: string, b: string)
    ensures Newlines(a + b) == Newlines(a) + Newlines(b)
  {
    if b == "" {
      assert a + b == a;
    } else {
      var init := b[..|b| - 1];
      assert (a + b)[..|a + b| - 1] == a + init;
      NewlinesConcat(a, init);
    }
  }

  lemma {:induction false} NewlinesSame(a: string, b: string)
    requires Aligned(a, b)
    ensures Newlines(a) == Newlines(b)
  {
    if a != "" { NewlinesSame(a[..|a| - 1], b[..|b| - 1]); }
  }

  lemma {:induction false} NoNewlines(a: string)
    ensures Newlines(a) == 0 <==> '\n' !in a
  {
    if a != "" {
      NoNewlines(a[..|a| - 1]);
      assert a == a[..|a| - 1] + [a[|a| - 1]];
    }
  }

  // ---------------------------------------------------------------------------------------------
  // Lines
  // ---------------------------------------------------------------------------------------------

  /** `text.split("\n")`. */
  function Lines(text: string): (lines: seq<string>)
    ensures |lines| == Newlines(text) + 1
  {
    if text == "" then [""]
    else
      var init, c := Lines(text[..|text| - 1]), text[|text| - 1];
      if c == '\n' then init + [""] else init[|init| - 1 := init[|init| - 1] + [c]]
  }

  /** `"\n".join(lines)`. */
  function Joined(lines: seq<string>): string
    requires lines != []
  {
    if |lines| == 1 then lines[0] else Joined(lines[..|lines| - 1]) + "\n" + lines[|lines| - 1]
  }

  lemma JoinedLonger(lines: seq<string>, c: char)
    requires lines != []
    ensures Joined(lines[|lines| - 1 := lines[|lines| - 1] + [c]]) == Joined(lines) + [c]
  {
    var n := |lines| - 1;
    var longer := lines[n := lines[n] + [c]];
    assert longer[..n] == lines[..n];
    if n > 0 { assert Joined(lines[..n]) + "\n" + (lines[n] + [c]) == Joined(lines[..n]) + "\n" + lines[n] + [c]; }
  }

  /** Splitting cuts at every newline and loses nothing: no line holds one, and joined by them they are the text. */
  lemma {:induction false} LinesJoin(text: string)
    ensures Joined(Lines(text)) == text && forall i | 0 <= i < |Lines(text)| :: '\n' !in Lines(text)[i]
  {
    if text != "" {
      var init, c := text[..|text| - 1], text[|text| - 1];
      LinesJoin(init);
      assert text == init + [c];
      var lines := Lines(init);
      if c == '\n' {
        assert (lines + [""])[..|lines|] == lines && Joined(lines + [""]) == init + "\n" + "";
      } else {
        JoinedLonger(lines, c);
      }
    }
  }

  /**
   The offset `pos` lies on line `Newlines(text[..pos])`: the lines before it are complete there, and it has begun.
   */
  lemma {:induction false} LineOfOffset(text: string, pos: nat)
    requires pos <= |text|
    ensures var n, before, all := Newlines(text[..pos]), Lines(text[..pos]), Lines(text);
            && n < |all| && all[..n] == before[..n]
            && |before[n]| <= |all[n]| && all[n][..|before[n]|] == before[n]
  {
    if pos == |text| {
      assert text[..pos] == text;
    } else {
      LineOfOffset(text[..|text| - 1], pos);
      assert text[..|text| - 1][..pos] == text[..pos];
    }
  }

  // ---------------------------------------------------------------------------------------------
  // What the structural view hides
  // ---------------------------------------------------------------------------------------------

  /** Offset `p` lies inside a char literal, among the tokens from `i` on. */
  predicate InCharLiteral(text: string, i: nat, p: nat)
    decreases |text| - i
  {
    && i < |text| && i <= p && Classify(text, i).Ok?
    && var t := Classify(text, i).value;
       if p < t.end then t.kind.CharLiteral? else InCharLiteral(text, t.end, p)
  }

  /** A newline inside a char literal. */
  predicate HiddenNewline(text: string, p: nat)
    requires p < |text|
  {
    text[p] == '\n' && InCharLiteral(text, 0, p)
  }

  /** An offset is inside a char literal exactly when the region that holds it is one. */
  lemma {:induction false} InCharLiteralIff(text: string, i: nat, rs: seq<Region>, p: nat)
    requires i <= |text| + 1 && Regions(text, i, rs, |text|) && i <= p < |text|
    ensures InCharLiteral(text, i, p) <==> KindAt(rs, p).CharLiteral?
    decreases |text| + 1 - i
  {
    if rs != [] && rs[0].start == i {
      var r := rs[0];
      TokenIffRegion(text, i, r.kind, r.end);
      InLiteralStep(text, i, Token(r.kind, r.end), p);
      if p >= r.end { InCharLiteralIff(text, r.end, rs[1..], p); }
    } else {
      RegionsNext(text, i, rs, |text|);
      InLiteralStep(text, i, Token(Plain, i + 1), p);
      if p > i { InCharLiteralIff(text, i + 1, rs, p); } else { RegionsAhead(text, i + 1, rs, |text|, i); }
    }
  }

  /** How many newlines before `n` are inside char literals. */
  function HiddenBefore(text: string, n: nat): nat
    requires n <= |text|
  {
    if n == 0 then 0 else HiddenBefore(text, n - 1) + if HiddenNewline(text, n - 1) then 1 else 0
  }

  lemma BlankAt(chunk: string, k: nat)
    requires k < |chunk|
    ensures |Blank(chunk)| == |chunk| && (Blank(chunk)[k] == '\n' <==> chunk[k] == '\n')
  {
  }

  lemma TokenShows(text: string, i: nat, t: Token, p: nat)
    requires i < |text| && Classify(text, i) == Ok(t) && i <= p < |text| && p < t.end
    ensures p - i < |Structural(text, i, t)|
    ensures Structural(text, i, t)[p - i] == '\n' <==> text[p] == '\n' && !t.kind.CharLiteral?
  {
    var chunk := Chunk(text, i, t.end);
    assert chunk[p - i] == text[p];
    BlankAt(chunk, p - i);
  }

  /** `v`, which stands for the text from `i` on, shows offset `p` as a newline iff it is one outside char literals. */
  predicate ShowsNewline(v: string, text: string, i: nat, p: nat)
    requires i <= p < |text|
  {
    p - i < |v| && (v[p - i] == '\n' <==> text[p] == '\n' && !InCharLiteral(text, i, p))
  }

  lemma TokenThenRest(text: string, i: nat, t: Token, p: nat, rest: string)
    requires i < |text| && Classify(text, i) == Ok(t) && i <= p < |text|
    requires p >= t.end ==> ShowsNewline(rest, text, t.end, p)
    ensures ShowsNewline(Structural(text, i, t) + rest, text, i, p)
  {
    var head := Structural(text, i, t);
    InLiteralStep(text, i, t, p);
    if p < t.end { TokenShows(text, i, t, p); } else { TokenMasks(text, i, t); }
    ConcatAt(head, rest, p - i);
  }

  /** The structural view shows exactly the newlines that are not inside char literals. */
  lemma {:induction false} ShownNewlines(text: string, i: nat, p: nat)
    requires LexFrom(text, i).Ok? && i <= p < |text|
    ensures ShowsNewline(LexFrom(text, i).value.structural, text, i, p)
    decreases |text| - i
  {
    var t := Classify(text, i).value;
    StructuralSplits(text, i, t);
    if p >= t.end { ShownNewlines(text, t.end, p); }
    TokenThenRest(text, i, t, p, LexFrom(text, t.end).value.structural);
  }

  lemma ConcatAt(a: string, b: string, k: nat)
    requires k < |a| + |b|
    ensures (a + b)[k] == if k < |a| then a[k] else b[k - |a|]
  {
  }

  lemma InLiteralStep(text: string, i: nat, t: Token, p: nat)
    requires i < |text| && i <= p && Classify(text, i) == Ok(t)
    ensures InCharLiteral(text, i, p) <==> if p < t.end then t.kind.CharLiteral? else InCharLiteral(text, t.end, p)
  {
  }

  lemma StructuralSplits(text: string, i: nat, t: Token)
    requires i < |text| && LexFrom(text, i).Ok? && Classify(text, i) == Ok(t)
    ensures LexFrom(text, t.end).Ok?
    ensures LexFrom(text, i).value.structural == Structural(text, i, t) + LexFrom(text, t.end).value.structural
  {
  }

  lemma {:induction false} CountShown(v: string, text: string, n: nat)
    requires n <= |text| && n <= |v| && forall p: nat | p < n :: ShowsNewline(v, text, 0, p)
    ensures Newlines(v[..n]) + HiddenBefore(text, n) == Newlines(text[..n])
  {
    if n > 0 {
      CountShown(v, text, n - 1);
      assert ShowsNewline(v, text, 0, n - 1);
      assert v[..n][..n - 1] == v[..n - 1] && text[..n][..n - 1] == text[..n - 1];
    }
  }

  /** Counting: what the structural view shows and what it hides add up to the text's newlines. */
  lemma ShownAndHidden(text: string, n: nat)
    requires Lex(text).Ok? && n <= |text|
    ensures var v := Lex(text).value;
            n <= |v.structural| && Newlines(v.structural[..n]) + HiddenBefore(text, n) == Newlines(text[..n])
  {
    StructuralFrom(text, 0);
    forall p: nat | p < n ensures ShowsNewline(Lex(text).value.structural, text, 0, p) { ShownNewlines(text, 0, p); }
    CountShown(Lex(text).value.structural, text, n);
  }

  /** Blanks past the end of the text hold no newline. */
  lemma ShownInAll(text: string)
    requires Lex(text).Ok?
    ensures Newlines(Lex(text).value.structural) + HiddenBefore(text, |text|) == Newlines(text)
  {
    var v := Lex(text).value.structural;
    StructuralFrom(text, 0);
    ShownAndHidden(text, |text|);
    assert v == v[..|text|] + v[|text|..] && text[..|text|] == text;
    NewlinesConcat(v[..|text|], v[|text|..]);
    NoNewlines(v[|text|..]);
  }

  lemma {:induction false} NothingHiddenIff(text: string, n: nat)
    requires n <= |text|
    ensures HiddenBefore(text, n) == 0 <==> forall p | 0 <= p < n :: !HiddenNewline(text, p)
  {
    if n > 0 { NothingHiddenIff(text, n - 1); }
  }

  // ---------------------------------------------------------------------------------------------
  // The symbol of a match
  // ---------------------------------------------------------------------------------------------

  /** The symbol index that `scan_rust` computes for a match at `pos` of the scannable view. */
  function SymbolIndex(scannable: string, pos: nat): int {
    BisectRight(Starts(scannable), pos) - 1
  }

  /** The index is the line of the match in the source. */
  lemma IndexIsSourceLine(text: string, pos: nat)
    requires Lex(text).Ok? && pos <= |text|
    ensures SymbolIndex(Lex(text).value.scannable, pos) == Newlines(text[..pos])
  {
    var v := Lex(text).value;
    Alignment(text);
    LookupCountsNewlines(v.scannable, pos);
    NewlinesSame(v.scannable[..pos], text[..pos]);
  }

  /**
   Attribution of a match at `pos`: the symbol it is given is that of its own line of the structural view exactly
   when no newline before it is inside a char literal.
   */
  lemma LineAttribution(text: string, pos: nat)
    requires Lex(text).Ok? && pos < |text|
    ensures var v := Lex(text).value;
            && pos < |v.structural|
            && SymbolIndex(v.scannable, pos) == Newlines(text[..pos])
            && (SymbolIndex(v.scannable, pos) == Newlines(v.structural[..pos]) <==> forall p | 0 <= p < pos ::
                  !HiddenNewline(text, p))
  {
    IndexIsSourceLine(text, pos);
    ShownAndHidden(text, pos);
    StructuralFrom(text, 0);
    NothingHiddenIff(text, pos);
  }

  /** A match has a symbol exactly when its line number does not exceed the newlines shown. */
  lemma SymbolExistsIff(text: string, pos: nat)
    requires Lex(text).Ok? && pos < |text|
    ensures var v := Lex(text).value;
            SymbolIndex(v.scannable, pos) < |Lines(v.structural)| <==>
                Newlines(text[..pos]) + HiddenBefore(text, |text|) <= Newlines(text)
  {
    IndexIsSourceLine(text, pos);
    ShownInAll(text);
  }

  /**
   Every match of a non-empty text has a symbol exactly when at most one newline is hidden and the text then ends
   with a newline.
   */
  lemma EverySymbolExistsIff(text: string)
    requires Lex(text).Ok? && text != ""
    ensures var v := Lex(text).value;
            (forall pos | 0 <= pos < |text| :: SymbolIndex(v.scannable, pos) < |Lines(v.structural)|)
            <==> HiddenBefore(text, |text|) <= if text[|text| - 1] == '\n' then 1 else 0
  {
    var last := |text| - 1;
    SymbolExistsIff(text, last);
    assert Newlines(text) == Newlines(text[..last]) + if text[last] == '\n' then 1 else 0;
    forall pos | 0 <= pos < |text|
      ensures SymbolIndex(Lex(text).value.scannable, pos) < |Lines(Lex(text).value.structural)| <==>
              Newlines(text[..pos]) + HiddenBefore(text, |text|) <= Newlines(text)
      ensures Newlines(text[..pos]) <= Newlines(text[..last])
    {
      SymbolExistsIff(text, pos);
      NewlinesConcat(text[..pos], text[pos..last]);
      assert text[..last] == text[..pos] + text[pos..last];
    }
  }

  /** What a match gets: a symbol, the error of a file that cannot be parsed, or an index error. */
  datatype Attribution = Attributed(symbol: string) | Unparseable | OutOfRange

  /** `scan_rust` for one match, found at offset `pos` of the scannable view. */
  method AttributeMatch(m: Matchers, text: string, pos: nat) returns (r: Attribution)
    requires pos < |text|
    ensures r.Unparseable? <==> Lex(text).Err? || Events(m, Lines(Lex(text).value.structural)).Err?
    ensures r.OutOfRange? ==> Newlines(text[..pos]) + HiddenBefore(text, |text|) > Newlines(text)
    ensures r.Attributed? ==>
              && Newlines(text[..pos]) + HiddenBefore(text, |text|) <= Newlines(text)
              && var es := Events(m, Lines(Lex(text).value.structural)).value.0;
                 Newlines(text[..pos]) < |es| && r.symbol == Symbol(es, Newlines(text[..pos]))
  {
    var views := LexRust(text);
    if views.Err? {
      return Unparseable;
    }
    var symbols := RustSymbols(m, Lines(views.value.structural));
    if symbols.Err? {
      return Unparseable;
    }
    var starts := LineStarts(views.value.scannable);
    var index := BisectRight(starts, pos) - 1;
    IndexIsSourceLine(text, pos);
    SymbolExistsIff(text, pos);
    r := if index < |symbols.value| then Attributed(symbols.value[index]) else OutOfRange;
  }

  // ---------------------------------------------------------------------------------------------
  // Texts that go wrong
  // ---------------------------------------------------------------------------------------------

  lemma PlainAt(text: string, i: nat)
    requires i < |text| && (text[i] == 'x' || text[i] == '\n')
    ensures Classify(text, i) == Ok(Token(Plain, i + 1))
  {
  }

  /** Plain text ahead of text that lexes to itself. */
  lemma PlainStep(text: string, i: nat)
    requires i < |text| && (text[i] == 'x' || text[i] == '\n')
    requires LexFrom(text, i + 1) == Ok(Views(text[i + 1..], text[i + 1..]))
    ensures LexFrom(text, i) == Ok(Views(text[i..], text[i..]))
  {
    var t := Token(Plain, i + 1);
    PlainAt(text, i);
    LexFromToken(text, i, t);
    PlainViews(text, i);
    assert [text[i]] + text[i + 1..] == text[i..];
    PrependChar(LexFrom(text, i), LexFrom(text, i + 1), text[i], text[i + 1..], text[i..]);
  }

  lemma PrependChar(all: LexResult<Views>, later: LexResult<Views>, c: char, rest: string, whole: string)
    requires all == Prepend([c], [c], later) && later == Ok(Views(rest, rest)) && [c] + rest == whole
    ensures all == Ok(Views(whole, whole))
  {
  }

  /** A char literal made of an escaped newline hides it. */
  lemma EscapedNewline(text: string)
    requires |text| >= 4 && text[..4] == "'\\\n'"
    ensures Classify(text, 0) == Ok(Token(CharLiteral, 4))
  {
    assert text[0] == text[..4][0] && text[1] == text[..4][1] && text[2] == text[..4][2] && text[3] == text[..4][3];
    assert QuoteEnd(text, 3, '\'') == 4;
    assert QuoteEnd(text, 1, '\'') == 4;
  }

  lemma NoSymbolLexes()
    ensures Lex("'\\\n'x") == Ok(Views("'\\\n'x", "    x"))
  {
    var text := "'\\\n'x";
    EscapedNewline(text);
    assert text[5..] == "";
    PlainStep(text, 4);
    assert Spaces(4) + text[4..] == "    x" && Chunk(text, 0, 4) + text[4..] == text;
    LexFromToken(text, 0, Token(CharLiteral, 4));
  }

  /** The match at `x` has no symbol: the lookup is out of range. */
  lemma NoSymbolExample()
    ensures var text := "'\\\n'x";
            Lex(text) == Ok(Views(text, "    x")) && SymbolIndex(text, 4) == 1 && |Lines("    x")| == 1
  {
    NoSymbolLexes();
    IndexAfterEscape("'\\\n'x");
    NoNewlines("    x");
  }

  lemma IndexAfterEscape(text: string)
    requires |text| >= 4 && text[..4] == "'\\\n'"
    ensures SymbolIndex(text, 4) == 1
  {
    LookupCountsNewlines(text, 4);
    CountOne(text[..4]);
  }

  lemma CountOne(s: string)
    requires s == "'\\\n'"
    ensures Newlines(s) == 1
  {
    assert s == "'\\" + "\n" + "'";
    NewlinesConcat("'\\" + "\n", "'");
    NewlinesConcat("'\\", "\n");
    NoNewlines("'\\");
    NoNewlines("'");
    assert "\n"[..0] == "" && Newlines("\n") == 1;
  }

  lemma WrongSymbolLexes()
    ensures Lex("'\\\n'x\n") == Ok(Views("'\\\n'x\n", "    x\n"))
  {
    var text, structural := "'\\\n'x\n", "    x\n";
    EscapedNewline(text);
    assert text[6..] == "";
    PlainStep(text, 5);
    PlainStep(text, 4);
    assert Spaces(4) + text[4..] == structural && Chunk(text, 0, 4) + text[4..] == text;
    LexFromToken(text, 0, Token(CharLiteral, 4));
  }

  lemma WrongSymbolCounts(structural: string)
    requires structural == "    x\n"
    ensures Newlines(structural) == 1 && Newlines(structural[..4]) == 0
  {
    assert structural[..5] == "    x";
    NoNewlines("    x");
    NoNewlines(structural[..4]);
  }

  /** The match at `x`, on line 0 of the structural view, is silently given the symbol of line 1. */
  lemma WrongSymbolExample()
    ensures var text, structural := "'\\\n'x\n", "    x\n";
            && Lex(text) == Ok(Views(text, structural))
            && SymbolIndex(text, 4) == 1 && |Lines(structural)| == 2 && Newlines(structural[..4]) == 0
  {
    WrongSymbolLexes();
    WrongSymbolCounts("    x\n");
    IndexAfterEscape("'\\\n'x\n");
  }
}
