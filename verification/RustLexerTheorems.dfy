/** What the two views of the Rust lexer guarantee: alignment and both fixpoints. */
module RustLexerTheorems {
  import opened Options
  import opened RustLexer

  /** `view` at `p` shows the source character or a space in its place; newlines are never hidden. */
  predicate Shows(view: string, text: string, p: nat)
    requires p < |view| && p < |text|
  {
    view[p] == text[p] || (view[p] == ' ' && text[p] != '\n')
  }

  lemma LexFromToken(text: string, i: nat, t: Token)
    requires i < |text| && Classify(text, i) == Ok(t)
    ensures LexFrom(text, i) == Prepend(Scannable(text, i, t), Structural(text, i, t), LexFrom(text, t.end))
  {
  }

  lemma PlainViews(text: string, i: nat)
    requires i < |text|
    ensures Scannable(text, i, Token(Plain, i + 1)) == Structural(text, i, Token(Plain, i + 1)) == [text[i]]
  {
  }

  // ---------------------------------------------------------------------------------------------
  // Alignment
  // ---------------------------------------------------------------------------------------------

  /** `v` is as long as the text from `i` on, and shows it. */
  predicate ShowsRest(v: string, text: string, i: nat) {
    && |v| == (if i <= |text| then |text| - i else 0)
    && forall p | 0 <= p < |v| :: v[p] == text[i + p] || (v[p] == ' ' && text[i + p] != '\n')
  }

  lemma ConcatShows(head: string, rest: string, text: string, i: nat, end: nat)
    requires i < |text| && i < end <= |text| + 1 && ShowsRest(rest, text, end)
    requires |head| == (if end <= |text| then end else |text|) - i
    requires forall p | 0 <= p < |head| :: head[p] == text[i + p] || (head[p] == ' ' && text[i + p] != '\n')
    ensures ShowsRest(head + rest, text, i)
  {
    var v := head + rest;
    forall p | 0 <= p < |v| ensures v[p] == text[i + p] || (v[p] == ' ' && text[i + p] != '\n') {
      if p >= |head| { assert v[p] == rest[p - |head|]; }
    }
  }

  /** The scannable view is as long as the text and shows it, newlines included. */
  lemma {:induction false} ScannableFrom(text: string, i: nat)
    requires i <= |text| + 1 && LexFrom(text, i).Ok?
    ensures ShowsRest(LexFrom(text, i).value.scannable, text, i)
    decreases |text| + 1 - i
  {
    if i < |text| {
      var t := Classify(text, i).value;
      ScannableFrom(text, t.end);
      ConcatShows(Scannable(text, i, t), LexFrom(text, t.end).value.scannable, text, i, t.end);
    }
  }

  /** No char literal from `i` on spans a newline or runs past the end of the text. */
  predicate CharLiteralsClosed(text: string, i: nat)
    decreases |text| - i
  {
    i >= |text| ||
    match Classify(text, i)
    case Err(_) => true
    case Ok(t) =>
      && (t.kind.CharLiteral? ==> t.end <= |text| && '\n' !in text[i..t.end])
      && CharLiteralsClosed(text, t.end)
  }

  /** A view has the text's length and its newline positions. */
  predicate Aligned(view: string, text: string) {
    |view| == |text| && forall p | 0 <= p < |text| :: view[p] == '\n' <==> text[p] == '\n'
  }

  /** Every position of `v` shows the text from `i` on or a space, and no double quote is left. */
  predicate Masks(v: string, text: string, i: nat) {
    '"' !in v && forall p | 0 <= p < |v| :: v[p] == ' ' || (i + p < |text| && v[p] == text[i + p])
  }

  lemma ConcatMasks(head: string, rest: string, text: string, i: nat)
    requires Masks(head, text, i) && Masks(rest, text, i + |head|)
    ensures Masks(head + rest, text, i)
  {
    var v := head + rest;
    forall p | 0 <= p < |v| ensures v[p] == ' ' || (i + p < |text| && v[p] == text[i + p]) {
      if p >= |head| { assert v[p] == rest[p - |head|]; }
    }
  }

  lemma TokenMasks(text: string, i: nat, t: Token)
    requires i < |text| && Classify(text, i) == Ok(t)
    ensures Masks(Structural(text, i, t), text, i)
    ensures |Structural(text, i, t)| >= (if t.end <= |text| then t.end else |text|) - i
    ensures t.end <= |text| ==> |Structural(text, i, t)| == t.end - i
  {
  }

  lemma {:induction false} StructuralFrom(text: string, i: nat)
    requires i <= |text| + 1 && LexFrom(text, i).Ok?
    ensures Masks(LexFrom(text, i).value.structural, text, i) && |LexFrom(text, i).value.structural| >= |text| - i
    decreases |text| + 1 - i
  {
    if i < |text| {
      var t := Classify(text, i).value;
      StructuralFrom(text, t.end);
      TokenMasks(text, i, t);
      ConcatMasks(Structural(text, i, t), LexFrom(text, t.end).value.structural, text, i);
    }
  }

  /** The structural view is aligned exactly when every char literal is closed on its own line. */
  lemma {:induction false} StructuralAlignedFrom(text: string, i: nat)
    requires i <= |text| && LexFrom(text, i).Ok?
    ensures Aligned(LexFrom(text, i).value.structural, text[i..]) <==> CharLiteralsClosed(text, i)
    decreases |text| - i
  {
    if i < |text| {
      var t := Classify(text, i).value;
      var head, rest := Structural(text, i, t), LexFrom(text, t.end);
      if t.end > |text| {
        LastTokenAligned(text, i, t);
        assert head + rest.value.structural == head;
      } else {
        TokenMasks(text, i, t);
        StructuralAlignedFrom(text, t.end);
        assert text[i..] == text[i..t.end] + text[t.end..];
        AlignedParts(head, rest.value.structural, text[i..t.end], text[t.end..]);
        TokenAligned(text, i, t);
      }
    }
  }

  /** A token cut off by the end of the text: a char literal's blanks run past it. */
  lemma LastTokenAligned(text: string, i: nat, t: Token)
    requires i < |text| && Classify(text, i) == Ok(t) && t.end > |text|
    ensures Aligned(Structural(text, i, t), text[i..]) <==> !t.kind.CharLiteral?
  {
  }

  /** Only a char literal that spans a newline is out of line. */
  lemma TokenAligned(text: string, i: nat, t: Token)
    requires i < |text| && Classify(text, i) == Ok(t) && t.end <= |text|
    ensures Aligned(Structural(text, i, t), text[i..t.end]) <==> !(t.kind.CharLiteral? && '\n' in text[i..t.end])
  {
    var head := Structural(text, i, t);
    if t.kind.CharLiteral? && Aligned(head, text[i..t.end]) {
      assert forall p | 0 <= p < |head| :: text[i..t.end][p] != '\n';
    }
  }

  lemma AlignedParts(a: string, b: string, x: string, y: string)
    requires |a| == |x|
    ensures Aligned(a + b, x + y) <==> Aligned(a, x) && Aligned(b, y)
  {
    if Aligned(a + b, x + y) {
      forall p | 0 <= p < |x|
        ensures a[p] == '\n' <==> x[p] == '\n'
      {
        assert (a + b)[p] == a[p] && (x + y)[p] == x[p];
      }
      forall p | 0 <= p < |y| ensures b[p] == '\n' <==> y[p] == '\n' {
        assert (a + b)[|a| + p] == b[p] && (x + y)[|x| + p] == y[p];
      }
    }
  }

  /**
   Both views are aligned with the source and show only its characters or blanks: the scannable one
   always, the structural one exactly when no char literal spans a newline or the end of the text.
   */
  lemma Alignment(text: string)
    requires Lex(text).Ok?
    ensures var v := Lex(text).value;
            && Aligned(v.scannable, text) && (forall p | 0 <= p < |text| :: Shows(v.scannable, text, p))
            && (Aligned(v.structural, text) <==> CharLiteralsClosed(text, 0))
            && (Aligned(v.structural, text) ==> forall p | 0 <= p < |text| :: Shows(v.structural, text, p))
  {
    ScannableFrom(text, 0);
    StructuralFrom(text, 0);
    StructuralAlignedFrom(text, 0);
    assert text[0..] == text;
  }

  /** An escape at the very end makes the structural view longer than the text. */
  lemma MisalignedExample()
    ensures Lex("'\\") == Ok(Views("'\\", "   "))
  {
    var text := "'\\";
    assert IsCharLiteral(text, 0) && QuoteEnd(text, 1, '\'') == 3;
    assert Classify(text, 0) == Ok(Token(CharLiteral, 3));
    assert LexFrom(text, 3) == Ok(Views("", ""));
    assert Chunk(text, 0, 3) + "" == text && Spaces(3) + "" == "   ";
  }

  // ---------------------------------------------------------------------------------------------
  // The structural view is a fixpoint
  // ---------------------------------------------------------------------------------------------

  /** No comment, string or char-literal opener anywhere. */
  predicate Bare(v: string) {
    && '"' !in v
    && (forall p | 0 <= p < |v| && v[p] == '/' :: !At(v, p + 1, '/') && !At(v, p + 1, '*'))
    && (forall p | 0 <= p < |v| && v[p] == '\'' :: !At(v, p + 1, '\\') && !At(v, p + 2, '\''))
  }

  lemma BareIsPlain(v: string, p: nat)
    requires Bare(v) && p < |v|
    ensures Classify(v, p) == Ok(Token(Plain, p + 1))
  {
  }

  lemma {:induction false} BareLexes(v: string, i: nat)
    requires Bare(v) && i <= |v|
    ensures LexFrom(v, i) == Ok(Views(v[i..], v[i..]))
    decreases |v| - i
  {
    if i < |v| {
      BareIsPlain(v, i);
      BareLexes(v, i + 1);
      assert Chunk(v, i, i + 1) + v[i + 1..] == v[i..];
    }
  }

  lemma BareAfterBlanks(head: string, rest: string)
    requires Bare(rest) && forall p | 0 <= p < |head| :: head[p] == ' ' || head[p] == '\n'
    ensures Bare(head + rest)
  {
    var v := head + rest;
    assert forall p | |head| <= p < |v| :: v[p] == rest[p - |head|];
    forall p | 0 <= p < |v| && v[p] == '\'' ensures !At(v, p + 1, '\\') && !At(v, p + 2, '\'') {
      assert rest[p - |head|] == '\'';
    }
    forall p | 0 <= p < |v| && v[p] == '/' ensures !At(v, p + 1, '/') && !At(v, p + 1, '*') {
      assert rest[p - |head|] == '/';
    }
  }

  lemma BareAfterChar(c: char, rest: string)
    requires Bare(rest) && c != '"'
    requires c == '/' ==> !At(rest, 0, '/') && !At(rest, 0, '*')
    requires c == '\'' ==> !At(rest, 0, '\\') && !At(rest, 1, '\'')
    ensures Bare([c] + rest)
  {
    var v := [c] + rest;
    assert forall p | 1 <= p < |v| :: v[p] == rest[p - 1];
    forall p | 0 <= p < |v| && v[p] == '\'' ensures !At(v, p + 1, '\\') && !At(v, p + 2, '\'') {
      if p > 0 { assert rest[p - 1] == '\''; }
    }
    forall p | 0 <= p < |v| && v[p] == '/' ensures !At(v, p + 1, '/') && !At(v, p + 1, '*') {
      if p > 0 { assert rest[p - 1] == '/'; }
    }
  }

  /** A plain character does not form an opener with what the view shows after it. */
  lemma PlainNeighbours(text: string, i: nat, rest: string)
    requires i < |text| && Classify(text, i) == Ok(Token(Plain, i + 1))
    requires Masks(rest, text, i + 1)
    ensures text[i] != '"'
    ensures text[i] == '/' ==> !At(rest, 0, '/') && !At(rest, 0, '*')
    ensures text[i] == '\'' ==> !At(rest, 0, '\\') && !At(rest, 1, '\'')
  {
  }

  lemma BareAfterToken(text: string, i: nat, t: Token, rest: string)
    requires i < |text| && Classify(text, i) == Ok(t) && Bare(rest)
    requires Masks(rest, text, t.end)
    ensures Bare(Structural(text, i, t) + rest)
  {
    if t.kind.Plain? {
      PlainNeighbours(text, i, rest);
      assert Structural(text, i, t) == [text[i]];
      BareAfterChar(text[i], rest);
    } else {
      BareAfterBlanks(Structural(text, i, t), rest);
    }
  }

  lemma {:induction false} StructuralIsBare(text: string, i: nat)
    requires i <= |text| + 1 && LexFrom(text, i).Ok?
    ensures Bare(LexFrom(text, i).value.structural)
    decreases |text| + 1 - i
  {
    if i < |text| {
      var t := Classify(text, i).value;
      StructuralIsBare(text, t.end);
      StructuralFrom(text, t.end);
      BareAfterToken(text, i, t, LexFrom(text, t.end).value.structural);
    }
  }

  /** Lexing the structural view changes nothing: no opener of any kind is left in it. */
  lemma StructuralFixpoint(text: string)
    requires Lex(text).Ok?
    ensures var v := Lex(text).value.structural; Lex(v) == Ok(Views(v, v)) && Bare(v)
  {
    StructuralIsBare(text, 0);
    var v := Lex(text).value.structural;
    BareLexes(v, 0);
    assert v[0..] == v;
  }

  // ---------------------------------------------------------------------------------------------
  // The scannable view is a fixpoint
  // ---------------------------------------------------------------------------------------------

  /** From `i` on, `s` shows `text`. */
  predicate ShowsFrom(s: string, text: string, i: nat) {
    |s| == |text| && forall p | i <= p < |text| :: s[p] == text[p] || (s[p] == ' ' && text[p] != '\n')
  }

  lemma {:induction false} HashesShown(s: string, text: string, i: nat)
    requires ShowsFrom(s, text, i) && At(s, i + Hashes(s, i), '"')
    ensures Hashes(text, i) == Hashes(s, i)
    decreases |s| - i
  {
    if At(s, i, '#') { HashesShown(s, text, i + 1); }
  }

  /** Blanking cannot create an opener: plain text stays plain. */
  lemma PlainStaysPlain(s: string, text: string, i: nat)
    requires ShowsFrom(s, text, i) && i < |text| && Classify(text, i) == Ok(Token(Plain, i + 1))
    ensures Classify(s, i) == Ok(Token(Plain, i + 1))
  {
    var c := if At(s, i, 'b') then i + 1 else i;
    if RawOpener(s, i).Opener? {
      HashesShown(s, text, c + 1);
    }
  }

  lemma {:induction false} QuoteEndSame(s: string, text: string, i: nat, quote: char)
    requires |s| == |text| && i <= |text| + 1
    requires forall p | i <= p < |text| && p < QuoteEnd(text, i, quote) :: s[p] == text[p]
    ensures QuoteEnd(s, i, quote) == QuoteEnd(text, i, quote)
    decreases |text| + 1 - i
  {
    if i < |text| {
      if text[i] == '\\' { QuoteEndSame(s, text, i + 2, quote); }
      else if text[i] != quote { QuoteEndSame(s, text, i + 1, quote); }
    }
  }

  lemma {:induction false} HashesSame(s: string, text: string, i: nat, end: nat)
    requires |s| == |text| && i + Hashes(text, i) < end <= |text|
    requires forall p | i <= p < end :: s[p] == text[p]
    ensures Hashes(s, i) == Hashes(text, i)
    decreases |text| - i
  {
    if At(text, i, '#') { HashesSame(s, text, i + 1, end); }
  }

  lemma {:induction false} TerminatorSame(s: string, text: string, i: nat, hashes: nat)
    requires |s| == |text| && i <= |text| && FindTerminator(text, i, hashes).Ok?
    requires forall p | i <= p < FindTerminator(text, i, hashes).value + 1 + hashes :: s[p] == text[p]
    ensures FindTerminator(s, i, hashes) == FindTerminator(text, i, hashes)
    decreases |text| - i
  {
    if !Terminates(text, i, hashes) {
      TerminatorLocal(s, text, i, hashes, FindTerminator(text, i, hashes).value + 1 + hashes);
      TerminatorSame(s, text, i + 1, hashes);
    }
  }

  /** A terminator cannot start before the one that `find` returns. */
  lemma TerminatorLocal(s: string, text: string, i: nat, hashes: nat, end: nat)
    requires |s| == |text| && i + 1 + hashes < end <= |text| + 1 && !Terminates(text, i, hashes)
    requires forall p | i <= p < end && p < |text| :: s[p] == text[p]
    ensures !Terminates(s, i, hashes)
  {
  }

  lemma OpenerSame(s: string, text: string, i: nat, end: nat)
    requires |s| == |text| && RawOpener(text, i).Opener? && RawOpener(text, i).quote < end <= |text|
    requires forall p | i <= p < end :: s[p] == text[p]
    ensures RawOpener(s, i) == RawOpener(text, i)
  {
    var c := if At(text, i, 'b') then i + 1 else i;
    HashesSame(s, text, c + 1, end);
  }

  lemma RawSame(s: string, text: string, i: nat, end: nat)
    requires |s| == |text| && i < |text| && Classify(text, i) == Ok(Token(RawString, end))
    requires forall p | i <= p < end :: s[p] == text[p]
    ensures Classify(s, i) == Ok(Token(RawString, end))
  {
    var o := RawOpener(text, i);
    OpenerSame(s, text, i, end);
    TerminatorSame(s, text, o.quote + 1, o.hashes);
    RawTokenFrom(s, i, o, end);
  }

  lemma RawTokenFrom(s: string, i: nat, o: Opener, end: nat)
    requires i < |s| && RawOpener(s, i) == o && o.Opener?
    requires FindTerminator(s, o.quote + 1, o.hashes) == Ok(end - 1 - o.hashes)
    ensures Classify(s, i) == Ok(Token(RawString, end))
  {
  }

  /** A token that is kept is found again in the view. */
  lemma KeptTokenSame(s: string, text: string, i: nat, t: Token)
    requires ShowsFrom(s, text, i) && i < |text| && Classify(text, i) == Ok(t)
    requires t.kind.RawString? || t.kind.Quoted? || t.kind.CharLiteral?
    requires forall p | i <= p < t.end && p < |text| :: s[p] == text[p]
    requires At(text, t.end, '\'') ==> At(s, t.end, '\'')
    ensures Classify(s, i) == Ok(t)
  {
    if t.kind.RawString? {
      RawSame(s, text, i, t.end);
    } else {
      QuoteEndSame(s, text, i + 1, text[i]);
    }
  }

  lemma BlankIsPlain(s: string, i: nat)
    requires i < |s| && (s[i] == ' ' || s[i] == '\n')
    ensures Classify(s, i) == Ok(Token(Plain, i + 1))
  {
  }

  lemma PlainPrepends(s: string, i: nat)
    requires i < |s| && (s[i] == ' ' || s[i] == '\n')
    ensures LexFrom(s, i) == Prepend([s[i]], [s[i]], LexFrom(s, i + 1))
  {
    BlankIsPlain(s, i);
    assert Chunk(s, i, i + 1) == [s[i]];
  }

  lemma PrependBoth(all: LexResult<Views>, later: LexResult<Views>, rest: LexResult<Views>, a: string, b: string,
                    whole: string)
    requires all == Prepend(a, a, later) && later == Prepend(b, b, rest) && a + b == whole
    ensures all == Prepend(whole, whole, rest)
  {
    PrependAssoc(a, a, b, b, rest);
  }

  /** A run of blanks lexes to itself. */
  lemma {:induction false} BlanksLex(s: string, i: nat, end: nat)
    requires i <= end <= |s| && forall p | i <= p < end :: s[p] == ' ' || s[p] == '\n'
    ensures LexFrom(s, i) == Prepend(s[i..end], s[i..end], LexFrom(s, end))
    decreases end - i
  {
    if i == end {
      PrependNothing(LexFrom(s, end));
    } else {
      PlainPrepends(s, i);
      BlanksLex(s, i + 1, end);
      assert [s[i]] + s[i + 1..end] == s[i..end];
      PrependBoth(LexFrom(s, i), LexFrom(s, i + 1), LexFrom(s, end), [s[i]], s[i + 1..end], s[i..end]);
    }
  }

  /** The first character of a token that is no comment is kept. */
  lemma FirstKept(text: string, i: nat)
    requires i < |text| && LexFrom(text, i).Ok? && text[i] != '/'
    ensures LexFrom(text, i).value.scannable != "" && LexFrom(text, i).value.scannable[0] == text[i]
  {
    var t := Classify(text, i).value;
    assert Scannable(text, i, t)[0] == text[i];
  }

  /** `s` continues from `i` on as the scannable view of `text` does. */
  predicate Continues(s: string, text: string, i: nat) {
    && i <= |text| + 1 && |s| == |text| && LexFrom(text, i).Ok?
    && (i <= |text| ==> s[i..] == LexFrom(text, i).value.scannable)
  }

  /** The view splits where the token ends. */
  lemma ContinuesAfter(s: string, text: string, i: nat, t: Token)
    requires i < |text| && Continues(s, text, i) && Classify(text, i) == Ok(t)
    ensures Continues(s, text, t.end) && Chunk(s, i, t.end) == Scannable(text, i, t)
  {
    var head, rest := Scannable(text, i, t), LexFrom(text, t.end).value.scannable;
    assert |head| == |Chunk(s, i, t.end)|;
    assert s[i..] == head + rest;
    assert s[i..][..|head|] == head && s[i..][|head|..] == rest;
    if t.end <= |text| { assert s[t.end..] == s[i..][|head|..]; }
  }

  lemma {:induction false} ScannableRelexes(s: string, text: string, i: nat)
    requires Continues(s, text, i)
    ensures LexFrom(s, i) == LexFrom(text, i)
    decreases |text| + 1 - i
  {
    if i < |text| {
      var t := Classify(text, i).value;
      ContinuesAfter(s, text, i, t);
      ScannableRelexes(s, text, t.end);
      if t.kind.LineComment? || t.kind.BlockComment? {
        BlankedComment(s, text, i, t);
      } else {
        TokenFoundAgain(s, text, i, t);
      }
    }
  }

  lemma TokenFoundAgain(s: string, text: string, i: nat, t: Token)
    requires i < |text| && Continues(s, text, i) && Classify(text, i) == Ok(t)
    requires Continues(s, text, t.end) && Chunk(s, i, t.end) == Chunk(text, i, t.end)
    requires !t.kind.LineComment? && !t.kind.BlockComment?
    ensures Classify(s, i) == Ok(t)
  {
    ScannableFrom(text, i);
    assert ShowsFrom(s, text, i) by {
      forall p | i <= p < |text|
        ensures s[p] == text[p] || (s[p] == ' ' && text[p] != '\n')
      {
        assert s[p] == s[i..][p - i];
      }
    }
    if t.kind.Plain? {
      PlainStaysPlain(s, text, i);
    } else {
      forall p | i <= p < t.end && p < |text| ensures s[p] == text[p] {
        assert s[p] == Chunk(s, i, t.end)[p - i] && text[p] == Chunk(text, i, t.end)[p - i];
      }
      if At(text, t.end, '\'') { FirstKept(text, t.end); assert s[t.end] == s[t.end..][0]; }
      KeptTokenSame(s, text, i, t);
    }
  }

  lemma BlankedComment(s: string, text: string, i: nat, t: Token)
    requires i < |text| && |s| == |text| && Classify(text, i) == Ok(t) && (t.kind.LineComment? || t.kind.BlockComment?)
    requires t.end <= |text| && s[i..t.end] == Blank(text[i..t.end])
    ensures LexFrom(s, i) == Prepend(Scannable(text, i, t), Structural(text, i, t), LexFrom(s, t.end))
  {
    forall p | i <= p < t.end ensures s[p] == ' ' || s[p] == '\n' { assert s[p] == s[i..t.end][p - i]; }
    BlanksLex(s, i, t.end);
  }

  /** Lexing the scannable view returns it unchanged, with the same structural view. */
  lemma ScannableFixpoint(text: string)
    requires Lex(text).Ok?
    ensures Lex(Lex(text).value.scannable) == Lex(text)
  {
    var s := Lex(text).value.scannable;
    ScannableFrom(text, 0);
    assert s[0..] == s;
    ScannableRelexes(s, text, 0);
  }

  // ---------------------------------------------------------------------------------------------
  // What the end of a literal or comment means
  // ---------------------------------------------------------------------------------------------

  /** Length of the run of backslashes that ends just before `p`, not reaching back beyond `i`. */
  function Backslashes(text: string, i: nat, p: nat): nat
    requires i <= p <= |text|
  {
    if i < p && text[p - 1] == '\\' then 1 + Backslashes(text, i, p - 1) else 0
  }

  predicate Escaped(text: string, i: nat, p: nat)
    requires i <= p <= |text|
  {
    Backslashes(text, i, p) % 2 == 1
  }

  lemma {:induction false} BackslashesSkip(text: string, i: nat, p: nat)
    requires i + 2 <= p <= |text| && text[i] == '\\'
    ensures Escaped(text, i, p) == Escaped(text, i + 2, p)
  {
    if p == i + 2 {
      assert Backslashes(text, i, i + 1) == 1;
    } else if text[p - 1] == '\\' {
      BackslashesSkip(text, i, p - 1);
    }
  }

  lemma {:induction false} BackslashesNext(text: string, i: nat, p: nat)
    requires i < p <= |text| && text[i] != '\\'
    ensures Backslashes(text, i, p) == Backslashes(text, i + 1, p)
  {
    if p > i + 1 && text[p - 1] == '\\' { BackslashesNext(text, i, p - 1); }
  }

  /**
   `e` is just after the first quote from `i` on that is not escaped; if there is none, it is the end of the text, or
   one past it when the text ends in an escape.
   */
  predicate EndsQuoted(text: string, i: nat, e: nat, quote: char) {
    && i <= |text| && i <= e
    && (forall p | i <= p < |text| && p + 1 < e && text[p] == quote :: Escaped(text, i, p))
    && (|| (i < e <= |text| && text[e - 1] == quote && !Escaped(text, i, e - 1))
        || (e == |text| + (if Escaped(text, i, |text|) then 1 else 0) && NoneUnescaped(text, i, quote)))
  }

  predicate NoneUnescaped(text: string, i: nat, quote: char)
    requires i <= |text|
  {
    forall p | i <= p < |text| && text[p] == quote :: Escaped(text, i, p)
  }

  /** A string or char literal ends at the first quote that an odd run of backslashes does not escape. */
  lemma {:induction false} QuoteEndIsFirstUnescaped(text: string, i: nat, quote: char)
    requires i <= |text| && quote != '\\'
    ensures EndsQuoted(text, i, QuoteEnd(text, i, quote), quote)
    decreases |text| - i
  {
    if i + 1 == |text| && text[i] == '\\' {
      assert Backslashes(text, i, |text|) == 1;
    } else if i < |text| {
      if text[i] == '\\' {
        QuoteEndIsFirstUnescaped(text, i + 2, quote);
        forall p | i + 2 <= p <= |text|
          ensures Escaped(text, i, p) == Escaped(text, i + 2, p)
        {
          BackslashesSkip(text, i, p);
        }
        assert Backslashes(text, i, i + 1) == 1;
      } else if text[i] != quote {
        QuoteEndIsFirstUnescaped(text, i + 1, quote);
        forall p | i < p <= |text|
          ensures Escaped(text, i, p) == Escaped(text, i + 1, p)
        {
          BackslashesNext(text, i, p);
        }
      }
    }
  }

  /** Comment markers met from `i` to `e`, openers minus closers, read left to right without overlap. */
  function NetDepth(text: string, i: nat, e: nat): int
    decreases e - i
  {
    if e <= i then 0
    else if Pair(text, i, '/', '*') then 1 + NetDepth(text, i + 2, e)
    else if Pair(text, i, '*', '/') then NetDepth(text, i + 2, e) - 1
    else NetDepth(text, i + 1, e)
  }

  /** From `i`, with `depth` comments open, the markers first balance at `e`, just after a closer, or never. */
  predicate Balances(text: string, i: nat, depth: nat, e: nat) {
    && i <= e <= |text|
    && (forall q | i <= q < e - 1 :: depth + NetDepth(text, i, q) >= 1)
    && (e < |text| ==> depth + NetDepth(text, i, e) == 0 && 2 <= e && Pair(text, e - 2, '*', '/'))
  }

  /** Balance is unaffected by a step that leaves a comment open. */
  lemma BalancesAfter(text: string, i: nat, depth: nat, e: nat, k: nat, delta: int)
    requires 1 <= k <= 2 && i + k <= |text| && depth >= 1 && depth + delta >= 1
    requires forall q | i < q :: NetDepth(text, i, q) == delta + NetDepth(text, i + k, q)
    ensures Balances(text, i, depth, e) <==> Balances(text, i + k, depth + delta, e)
  {
    assert NetDepth(text, i, i) == 0 && NetDepth(text, i + k, i + k) == 0 && NetDepth(text, i + k, i + 1) == 0;
    if Balances(text, i, depth, e) {
      assert NetDepth(text, i, e) == if e == i then 0 else delta + NetDepth(text, i + k, e);
      assert i + k <= e;
      var j := i + k;
      forall q | j <= q < e - 1 ensures depth + delta + NetDepth(text, j, q) >= 1 {
        assert depth + NetDepth(text, i, q) >= 1;
      }
    }
    if Balances(text, i + k, depth + delta, e) {
      forall q | i <= q < e - 1 ensures depth + NetDepth(text, i, q) >= 1 {
        if q >= i + k { assert depth + delta + NetDepth(text, i + k, q) >= 1; }
      }
    }
  }

  /** Where the last closer stands, and only there, the markers balance. */
  lemma BalancesHere(text: string, i: nat, e: nat)
    requires Pair(text, i, '*', '/')
    ensures Balances(text, i, 1, e) <==> e == i + 2
  {
    assert NetDepth(text, i, i) == 0 && NetDepth(text, i, i + 1) == -1 && NetDepth(text, i, i + 2) == -1;
  }

  /** A block comment ends where its openers and closers first balance, or with the text, and nowhere else. */
  lemma {:induction false} BlockEndBalances(text: string, i: nat, depth: nat, e: nat)
    requires i <= |text| && depth >= 1
    ensures Balances(text, i, depth, e) <==> e == BlockEnd(text, i, depth)
    decreases |text| - i
  {
    if i < |text| {
      if Pair(text, i, '/', '*') {
        BlockEndBalances(text, i + 2, depth + 1, e);
        BalancesAfter(text, i, depth, e, 2, 1);
      } else if Pair(text, i, '*', '/') {
        if depth == 1 {
          BalancesHere(text, i, e);
        } else {
          BlockEndBalances(text, i + 2, depth - 1, e);
          BalancesAfter(text, i, depth, e, 2, -1);
        }
      } else {
        BlockEndBalances(text, i + 1, depth, e);
        BalancesAfter(text, i, depth, e, 1, 0);
      }
    }
  }
}
