/**
 The views of `lex_rust` stated on the text alone: where its comments, strings and char literals lie, and what each
 view shows inside and outside of them.
 */
module RustLexerRegions {
  import opened Options
  import opened RustLexer
  import opened RustLexerTheorems

  /** A comment, string or char literal; an escape at the end of the text can put `end` one past it. */
  datatype Region = Region(kind: Kind, start: nat, end: nat)

  // ---------------------------------------------------------------------------------------------
  // What the regions are
  // ---------------------------------------------------------------------------------------------

  /** From `//` to the next newline, or to the end of the text. */
  predicate IsLineComment(text: string, i: nat, e: nat) {
    && Pair(text, i, '/', '/')
    && i < e <= |text| && '\n' !in text[i..e] && (e < |text| ==> text[e] == '\n')
  }

  /** From an opening marker to the closing one that first balances it, or to the end of the text. */
  predicate IsBlockComment(text: string, i: nat, e: nat) {
    Pair(text, i, '/', '*') && Balances(text, i + 2, 1, e)
  }

  /** A raw string with `h` hashes opens at `i`, its quote at `q`: an optional `b`, an `r`, the hashes, the quote. */
  predicate OpensRaw(text: string, i: nat, q: nat, h: nat) {
    && q < |text| && text[q] == '"'
    && q == (if At(text, i, 'b') then i + 2 else i + 1) + h
    && text[q - h - 1] == 'r' && (forall j | q - h <= j < q :: text[j] == '#')
  }

  /** A quote and `h` hashes stand at `j`. */
  predicate ClosesRaw(text: string, j: nat, h: nat) {
    j + 1 + h <= |text| && text[j..j + 1 + h] == ['"'] + seq(h, _ => '#')
  }

  /** The raw string ends with the first quote that as many hashes follow. */
  predicate EndsRaw(text: string, q: nat, h: nat, e: nat) {
    && q + 1 + h < e && ClosesRaw(text, e - 1 - h, h)
    && (forall j | q < j < e - 1 - h :: !ClosesRaw(text, j, h))
  }

  ghost predicate IsRawString(text: string, i: nat, e: nat) {
    exists q, h :: OpensRaw(text, i, q, h) && EndsRaw(text, q, h, e)
  }

  predicate IsString(text: string, i: nat, e: nat) {
    At(text, i, '"') && EndsQuoted(text, i + 1, e, '"')
  }

  /** A quote that an escape follows, or a quote two characters on; every other one starts a lifetime. */
  predicate OpensChar(text: string, i: nat) {
    At(text, i, '\'') && (At(text, i + 1, '\\') || At(text, i + 2, '\''))
  }

  predicate IsCharRegion(text: string, i: nat, e: nat) {
    OpensChar(text, i) && EndsQuoted(text, i + 1, e, '\'')
  }

  ghost predicate IsRegion(text: string, r: Region) {
    match r.kind
    case LineComment => IsLineComment(text, r.start, r.end)
    case BlockComment => IsBlockComment(text, r.start, r.end)
    case RawString => IsRawString(text, r.start, r.end)
    case Quoted => IsString(text, r.start, r.end)
    case CharLiteral => IsCharRegion(text, r.start, r.end)
    case Plain => false
  }

  /** Something opens at `i`. */
  ghost predicate Opens(text: string, i: nat) {
    || Pair(text, i, '/', '/') || Pair(text, i, '/', '*') || At(text, i, '"') || OpensChar(text, i)
    || exists q, h :: OpensRaw(text, i, q, h)
  }

  /** A raw string that nothing ends. */
  ghost predicate Unterminated(text: string, i: nat) {
    exists q, h :: OpensRaw(text, i, q, h) && forall j | q < j :: !ClosesRaw(text, j, h)
  }

  /** From `i` on nothing opens before `n`. */
  ghost predicate Clear(text: string, i: nat, n: nat) {
    forall j | i <= j < n :: !Opens(text, j)
  }

  /** `rs` are the regions from `i` up to `n`: each starts at the first opener after the one before it. */
  ghost predicate Regions(text: string, i: nat, rs: seq<Region>, n: nat)
    decreases |rs|
  {
    if rs == [] then Clear(text, i, n)
    else
      && i <= rs[0].start < |text| && Clear(text, i, rs[0].start) && IsRegion(text, rs[0])
      && Regions(text, rs[0].end, rs[1..], n)
  }

  // ---------------------------------------------------------------------------------------------
  // What the views show
  // ---------------------------------------------------------------------------------------------

  /** The kind of the region that holds offset `p`. */
  function KindAt(rs: seq<Region>, p: nat): Kind {
    if rs == [] then Plain else if rs[0].start <= p < rs[0].end then rs[0].kind else KindAt(rs[1..], p)
  }

  function BlankChar(c: char): char {
    if c == '\n' then '\n' else ' '
  }

  /** The scannable view blanks comments. */
  function ScannableChar(kind: Kind, c: char): char {
    if kind.LineComment? || kind.BlockComment? then BlankChar(c) else c
  }

  /** The structural view blanks every region, and newlines as well in char literals. */
  function StructuralChar(kind: Kind, c: char): char {
    if kind.Plain? then c else if kind.CharLiteral? then ' ' else BlankChar(c)
  }

  /** How far a char literal reaches past the text. */
  function Excess(text: string, rs: seq<Region>): nat {
    if rs == [] then 0
    else if rs[0].kind.CharLiteral? && rs[0].end > |text| then rs[0].end - |text|
    else Excess(text, rs[1..])
  }

  /** `v` shows the text from `i` on, given its regions. */
  ghost predicate ShowsRegions(v: Views, text: string, i: nat, rs: seq<Region>) {
    && |v.scannable| == (if i <= |text| then |text| - i else 0)
    && |v.structural| == |v.scannable| + Excess(text, rs)
    && (forall p | i <= p < |text| :: v.scannable[p - i] == ScannableChar(KindAt(rs, p), text[p]))
    && (forall p | i <= p < |text| :: v.structural[p - i] == StructuralChar(KindAt(rs, p), text[p]))
    && (forall p | |v.scannable| <= p < |v.structural| :: v.structural[p] == ' ')
  }

  // ---------------------------------------------------------------------------------------------
  // Tokens are regions
  // ---------------------------------------------------------------------------------------------

  lemma LineEndUnique(text: string, i: nat, e: nat)
    requires IsLineComment(text, i, e)
    ensures e == LineEnd(text, i + 1)
  {
    var e' := LineEnd(text, i + 1);
    assert forall p | i <= p < e :: text[p] == text[i..e][p - i];
    assert forall p | i < p < e' :: text[p] == text[i + 1..e'][p - i - 1];
  }

  lemma LineEndIs(text: string, i: nat)
    requires Pair(text, i, '/', '/')
    ensures IsLineComment(text, i, LineEnd(text, i + 1))
  {
    var e := LineEnd(text, i + 1);
    assert text[i..e] == [text[i]] + text[i + 1..e];
  }

  lemma QuoteEndUnique(text: string, i: nat, e: nat, quote: char)
    requires EndsQuoted(text, i, e, quote) && quote != '\\'
    ensures e == QuoteEnd(text, i, quote)
  {
    QuoteEndIsFirstUnescaped(text, i, quote);
    QuoteEndsAgree(text, i, e, QuoteEnd(text, i, quote), quote);
    QuoteEndsAgree(text, i, QuoteEnd(text, i, quote), e, quote);
  }

  lemma QuoteEndsAgree(text: string, i: nat, e: nat, e': nat, quote: char)
    requires EndsQuoted(text, i, e, quote) && EndsQuoted(text, i, e', quote)
    ensures e' <= e
  {
  }

  lemma {:induction false} HashesAre(text: string, i: nat, h: nat)
    requires i + h < |text| && text[i + h] != '#' && forall j | i <= j < i + h :: text[j] == '#'
    ensures Hashes(text, i) == h
    decreases h
  {
    if h > 0 { HashesAre(text, i + 1, h - 1); }
  }

  lemma {:induction false} HashesRun(text: string, i: nat)
    ensures forall j | i <= j < i + Hashes(text, i) :: At(text, j, '#')
    decreases |text| - i
  {
    if At(text, i, '#') { HashesRun(text, i + 1); }
  }

  /** The opener of a raw string is where and what the scan finds. */
  lemma RawOpenerIff(text: string, i: nat, q: nat, h: nat)
    ensures RawOpener(text, i) == Opener(q, h) <==> OpensRaw(text, i, q, h)
  {
    var c := if At(text, i, 'b') then i + 1 else i;
    if OpensRaw(text, i, q, h) { HashesAre(text, c + 1, h); }
    if RawOpener(text, i) == Opener(q, h) {
      HashesRun(text, c + 1);
      forall j | q - h <= j < q ensures text[j] == '#' { assert At(text, j, '#'); }
    }
  }

  lemma NoRawOpenerIff(text: string, i: nat)
    ensures RawOpener(text, i).NoOpener? <==> !exists q, h :: OpensRaw(text, i, q, h)
  {
    var o := RawOpener(text, i);
    if o.Opener? { RawOpenerIff(text, i, o.quote, o.hashes); }
    if q, h :| OpensRaw(text, i, q, h) { RawOpenerIff(text, i, q, h); }
  }

  lemma ClosesIff(text: string, j: nat, h: nat)
    ensures ClosesRaw(text, j, h) <==> Terminates(text, j, h)
  {
    if j + 1 + h <= |text| {
      var chunk, close := text[j..j + 1 + h], ['"'] + seq(h, _ => '#');
      assert forall k | 0 <= k <= h :: chunk[k] == text[j + k];
      if ClosesRaw(text, j, h) {
        forall k | j < k <= j + h ensures text[k] == '#' { assert chunk[k - j] == close[k - j]; }
        assert chunk[0] == close[0];
      }
    }
  }

  /** Where a raw string whose quote is at `q` ends, if anywhere. */
  lemma RawEndIff(text: string, q: nat, h: nat, e: nat)
    requires q < |text|
    ensures EndsRaw(text, q, h, e) <==> e >= 1 + h && FindTerminator(text, q + 1, h) == Ok(e - 1 - h)
    ensures (forall j | q < j :: !ClosesRaw(text, j, h)) <==> FindTerminator(text, q + 1, h).Err?
  {
    forall j: nat ensures ClosesRaw(text, j, h) <==> Terminates(text, j, h) { ClosesIff(text, j, h); }
  }

  lemma RawIff(text: string, i: nat, e: nat)
    requires i < |text| && RawOpener(text, i).Opener?
    ensures IsRawString(text, i, e) <==> Classify(text, i) == Ok(Token(RawString, e))
    ensures Unterminated(text, i) <==> Classify(text, i) == Err(i)
    ensures Classify(text, i).Err? ==> Classify(text, i) == Err(i)
  {
    var o := RawOpener(text, i);
    RawOpenerIff(text, i, o.quote, o.hashes);
    forall q, h | OpensRaw(text, i, q, h) ensures q == o.quote && h == o.hashes { RawOpenerIff(text, i, q, h); }
    RawEndIff(text, o.quote, o.hashes, e);
    RawToken(text, i, o);
  }

  lemma RawToken(text: string, i: nat, o: Opener)
    requires i < |text| && RawOpener(text, i) == o && o.Opener?
    ensures match FindTerminator(text, o.quote + 1, o.hashes)
            case Ok(t) => Classify(text, i) == Ok(Token(RawString, t + 1 + o.hashes))
            case Err(_) => Classify(text, i) == Err(i)
  {
  }

  lemma OtherIff(text: string, i: nat, kind: Kind, e: nat)
    requires i < |text| && RawOpener(text, i).NoOpener? && !kind.Plain?
    ensures IsRegion(text, Region(kind, i, e)) <==> Classify(text, i) == Ok(Token(kind, e))
  {
    NoRawOpenerIff(text, i);
    match kind
    case LineComment =>
      if Pair(text, i, '/', '/') { LineEndIs(text, i); }
      if IsLineComment(text, i, e) { LineEndUnique(text, i, e); }
    case BlockComment =>
      if Pair(text, i, '/', '*') { BlockEndBalances(text, i + 2, 1, e); }
    case RawString =>
    case Quoted =>
      if At(text, i, '"') { QuoteEndIsFirstUnescaped(text, i + 1, '"'); }
      if IsString(text, i, e) { QuoteEndUnique(text, i + 1, e, '"'); }
    case CharLiteral =>
      if OpensChar(text, i) { QuoteEndIsFirstUnescaped(text, i + 1, '\''); }
      if IsCharRegion(text, i, e) { QuoteEndUnique(text, i + 1, e, '\''); }
  }

  lemma PlainIff(text: string, i: nat)
    requires i < |text|
    ensures Classify(text, i) == Ok(Token(Plain, i + 1)) <==> !Opens(text, i)
    ensures Unterminated(text, i) ==> Classify(text, i) == Err(i)
    ensures Classify(text, i).Err? ==> Classify(text, i) == Err(i) && Unterminated(text, i)
  {
    NoRawOpenerIff(text, i);
    if RawOpener(text, i).Opener? { RawIff(text, i, 0); }
  }

  /** A token that is no plain character is exactly a region. */
  lemma TokenIffRegion(text: string, i: nat, kind: Kind, e: nat)
    requires i < |text| && !kind.Plain?
    ensures IsRegion(text, Region(kind, i, e)) <==> Classify(text, i) == Ok(Token(kind, e))
  {
    if RawOpener(text, i).NoOpener? {
      OtherIff(text, i, kind, e);
    } else {
      RawIff(text, i, e);
      if !kind.RawString? { RawStartsNoOther(text, i, kind, e); }
    }
  }

  lemma RawStartsNoOther(text: string, i: nat, kind: Kind, e: nat)
    requires i < |text| && RawOpener(text, i).Opener? && !kind.RawString? && !kind.Plain?
    ensures !IsRegion(text, Region(kind, i, e)) && Classify(text, i) != Ok(Token(kind, e))
  {
  }

  // ---------------------------------------------------------------------------------------------
  // The views
  // ---------------------------------------------------------------------------------------------

  /** Nothing is held by regions that are all ahead. */
  lemma {:induction false} RegionsAhead(text: string, i: nat, rs: seq<Region>, n: nat, p: nat)
    requires Regions(text, i, rs, n) && p < i
    ensures KindAt(rs, p).Plain?
    decreases |rs|
  {
    if rs != [] { RegionsAhead(text, rs[0].end, rs[1..], n, p); }
  }

  lemma PlainThenRegions(v: Views, text: string, i: nat, rs: seq<Region>)
    requires i < |text| && ShowsRegions(v, text, i + 1, rs) && KindAt(rs, i).Plain?
    ensures ShowsRegions(Views([text[i]] + v.scannable, [text[i]] + v.structural), text, i, rs)
  {
  }

  /** What a token shows of its own region. */
  lemma TokenShowsRegion(text: string, i: nat, t: Token)
    requires i < |text| && i < t.end <= |text| + 1 && !t.kind.Plain?
    ensures var chunk := Chunk(text, i, t.end);
            && |Scannable(text, i, t)| == |chunk|
            && |Structural(text, i, t)| == (if t.kind.CharLiteral? then t.end - i else |chunk|)
            && (forall p | i <= p < t.end && p < |text| ::
                  Scannable(text, i, t)[p - i] == ScannableChar(t.kind, text[p]))
            && (forall p | i <= p < t.end && p < |text| ::
                  Structural(text, i, t)[p - i] == StructuralChar(t.kind, text[p]))
  {
    var chunk := Chunk(text, i, t.end);
    forall p | i <= p < t.end && p < |text|
      ensures chunk[p - i] == text[p] && Blank(chunk)[p - i] == BlankChar(text[p])
    {
    }
  }

  lemma KindInRest(r: Region, rest: seq<Region>, p: nat)
    requires p >= r.end
    ensures KindAt([r] + rest, p) == KindAt(rest, p)
  {
    assert ([r] + rest)[1..] == rest;
  }

  lemma ExcessOfRest(text: string, r: Region, rest: seq<Region>)
    ensures Excess(text, [r] + rest) ==
            if r.kind.CharLiteral? && r.end > |text| then r.end - |text| else Excess(text, rest)
  {
    assert ([r] + rest)[1..] == rest;
  }

  /** One view: what the token shows of its region, then what `rest` shows. */
  lemma ShownAfter(head: string, tail: string, text: string, r: Region, rest: seq<Region>, shows: (Kind, char) -> char)
    requires r.start < r.end && (r.end <= |text| ==> |head| == r.end - r.start)
    requires |head| >= (if r.end <= |text| then r.end else |text|) - r.start
    requires forall p | r.start <= p < r.end && p < |text| :: head[p - r.start] == shows(r.kind, text[p])
    requires |tail| >= |text| - r.end
    requires forall p | r.end <= p < |text| :: tail[p - r.end] == shows(KindAt(rest, p), text[p])
    ensures forall p | r.start <= p < |text| ::
              p - r.start < |head + tail| && (head + tail)[p - r.start] == shows(KindAt([r] + rest, p), text[p])
  {
    forall p | r.start <= p < |text|
      ensures p - r.start < |head + tail| && (head + tail)[p - r.start] == shows(KindAt([r] + rest, p), text[p])
    {
      if p >= r.end {
        KindInRest(r, rest, p);
        assert tail[p - r.end] == shows(KindAt(rest, p), text[p]);
      }
    }
  }

  lemma RegionThenRegions(v: Views, text: string, r: Region, rest: seq<Region>)
    requires r.start < |text| && r.start < r.end <= |text| + 1 && !r.kind.Plain?
    requires r.end > |text| ==> rest == []
    requires ShowsRegions(v, text, r.end, rest)
    ensures var t := Token(r.kind, r.end);
            ShowsRegions(Views(Scannable(text, r.start, t) + v.scannable, Structural(text, r.start, t) + v.structural),
                         text, r.start, [r] + rest)
  {
    var t := Token(r.kind, r.end);
    TokenShowsRegion(text, r.start, t);
    ExcessOfRest(text, r, rest);
    ShownAfter(Scannable(text, r.start, t), v.scannable, text, r, rest, ScannableChar);
    ShownAfter(Structural(text, r.start, t), v.structural, text, r, rest, StructuralChar);
  }

  lemma TokenViews(text: string, i: nat, t: Token, v: Views)
    requires i < |text| && Classify(text, i) == Ok(t) && LexFrom(text, t.end) == Ok(v)
    ensures LexFrom(text, i) ==
            Ok(Views(Scannable(text, i, t) + v.scannable, Structural(text, i, t) + v.structural))
  {
    LexFromToken(text, i, t);
  }

  /** Lexing from `i` on succeeds and shows the regions. */
  ghost predicate Shown(text: string, i: nat, rs: seq<Region>) {
    LexFrom(text, i).Ok? && ShowsRegions(LexFrom(text, i).value, text, i, rs)
  }

  lemma ShownFromRegion(text: string, rs: seq<Region>)
    requires rs != [] && rs[0].start < |text| && Classify(text, rs[0].start) == Ok(Token(rs[0].kind, rs[0].end))
    requires !rs[0].kind.Plain? && (rs[0].end > |text| ==> rs[1..] == []) && Shown(text, rs[0].end, rs[1..])
    ensures Shown(text, rs[0].start, rs)
  {
    var r, v := rs[0], LexFrom(text, rs[0].end).value;
    TokenViews(text, r.start, Token(r.kind, r.end), v);
    RegionThenRegions(v, text, r, rs[1..]);
    assert rs == [r] + rs[1..];
  }

  lemma ShownFromPlain(text: string, i: nat, rs: seq<Region>)
    requires i < |text| && Classify(text, i) == Ok(Token(Plain, i + 1)) && KindAt(rs, i).Plain?
    requires Shown(text, i + 1, rs)
    ensures Shown(text, i, rs)
  {
    var v := LexFrom(text, i + 1).value;
    PlainViews(text, i);
    TokenViews(text, i, Token(Plain, i + 1), v);
    PlainThenRegions(v, text, i, rs);
  }

  lemma ShownAtEnd(text: string, i: nat, rs: seq<Region>)
    requires i >= |text| && Regions(text, i, rs, |text|)
    ensures Shown(text, i, rs)
  {
    assert rs == [];
  }

  /** The first region, where it starts, is the token there; the regions after it follow. */
  lemma RegionsHead(text: string, i: nat, rs: seq<Region>)
    requires i < |text| && Regions(text, i, rs, |text|) && rs != [] && rs[0].start == i
    ensures Classify(text, i) == Ok(Token(rs[0].kind, rs[0].end)) && !rs[0].kind.Plain? && i < rs[0].end <= |text| + 1
    ensures Regions(text, rs[0].end, rs[1..], |text|) && (rs[0].end > |text| ==> rs[1..] == [])
  {
    TokenIffRegion(text, i, rs[0].kind, rs[0].end);
  }

  /** The views show exactly the regions of the text. */
  lemma {:induction false} LexShows(text: string, i: nat, rs: seq<Region>)
    requires i <= |text| + 1 && Regions(text, i, rs, |text|)
    ensures Shown(text, i, rs)
    decreases |text| + 1 - i, 1
  {
    if i >= |text| {
      ShownAtEnd(text, i, rs);
    } else if rs != [] && rs[0].start == i {
      LexShowsRegion(text, rs);
    } else {
      LexShowsPlain(text, i, rs);
    }
  }

  lemma {:induction false} LexShowsRegion(text: string, rs: seq<Region>)
    requires rs != [] && rs[0].start < |text| && Regions(text, rs[0].start, rs, |text|)
    ensures Shown(text, rs[0].start, rs)
    decreases |text| + 1 - rs[0].start, 0
  {
    RegionsHead(text, rs[0].start, rs);
    LexShows(text, rs[0].end, rs[1..]);
    ShownFromRegion(text, rs);
  }

  lemma {:induction false} LexShowsPlain(text: string, i: nat, rs: seq<Region>)
    requires i < |text| && Regions(text, i, rs, |text|) && (rs != [] ==> rs[0].start != i)
    ensures Shown(text, i, rs)
    decreases |text| + 1 - i, 0
  {
    RegionsNext(text, i, rs, |text|);
    LexShows(text, i + 1, rs);
    RegionsAhead(text, i + 1, rs, |text|, i);
    ShownFromPlain(text, i, rs);
  }

  /** Where nothing opens, the regions are those after it. */
  lemma RegionsNext(text: string, i: nat, rs: seq<Region>, n: nat)
    requires i < |text| && i < n && Regions(text, i, rs, n) && (rs != [] ==> rs[0].start != i)
    ensures Regions(text, i + 1, rs, n) && Classify(text, i) == Ok(Token(Plain, i + 1))
  {
    PlainIff(text, i);
  }

  function EndOf(i: nat, rs: seq<Region>): nat
    decreases |rs|
  {
    if rs == [] then i else EndOf(rs[0].end, rs[1..])
  }

  /** The regions up to `o`, where a raw string opens that nothing ends. */
  ghost predicate FailsAt(text: string, i: nat, rs: seq<Region>, o: nat) {
    EndOf(i, rs) <= o < |text| && Regions(text, i, rs, o) && Unterminated(text, o)
  }

  lemma {:induction false} EndGrows(text: string, i: nat, rs: seq<Region>, n: nat)
    requires Regions(text, i, rs, n)
    ensures i <= EndOf(i, rs)
    decreases |rs|
  {
    if rs != [] { EndGrows(text, rs[0].end, rs[1..], n); }
  }

  lemma {:induction false} LexFails(text: string, i: nat, rs: seq<Region>, o: nat)
    requires i <= |text| + 1 && FailsAt(text, i, rs, o)
    ensures LexFrom(text, i) == Err(o)
    decreases |text| + 1 - i
  {
    EndGrows(text, i, rs, o);
    if rs != [] && rs[0].start == i {
      TokenIffRegion(text, i, rs[0].kind, rs[0].end);
      LexFails(text, rs[0].end, rs[1..], o);
    } else if i == o {
      PlainIff(text, i);
    } else {
      RegionsNext(text, i, rs, o);
      LexFails(text, i + 1, rs, o);
    }
  }

  /** `rs` are the regions that lead to the outcome of lexing from `i` on. */
  ghost predicate Explains(text: string, i: nat, r: LexResult<Views>, rs: seq<Region>) {
    match r
    case Ok(_) => Regions(text, i, rs, |text|)
    case Err(o) => FailsAt(text, i, rs, o)
  }

  lemma SameOutcome(text: string, i: nat, t: Token)
    requires i < |text| && Classify(text, i) == Ok(t)
    ensures LexFrom(text, i).Ok? == LexFrom(text, t.end).Ok?
    ensures LexFrom(text, i).Err? ==> LexFrom(text, i) == LexFrom(text, t.end)
  {
  }

  lemma ExplainsPlain(text: string, i: nat, r: LexResult<Views>, r': LexResult<Views>, rs: seq<Region>)
    requires i < |text| && !Opens(text, i) && Explains(text, i + 1, r, rs)
    requires r.Ok? == r'.Ok? && (r'.Err? ==> r' == r)
    ensures Explains(text, i, r', rs)
  {
    if r.Err? { EndGrows(text, i + 1, rs, r.error); }
  }

  lemma ExplainsRegion(text: string, r: LexResult<Views>, r': LexResult<Views>, g: Region, rest: seq<Region>)
    requires g.start < |text| && IsRegion(text, g) && Explains(text, g.end, r, rest)
    requires r.Ok? == r'.Ok? && (r'.Err? ==> r' == r)
    ensures Explains(text, g.start, r', [g] + rest)
  {
    assert ([g] + rest)[1..] == rest;
  }

  /** Every outcome of the lexer comes with the regions it has found. */
  lemma {:induction false} Explain(text: string, i: nat) returns (rs: seq<Region>)
    requires i <= |text| + 1
    ensures Explains(text, i, LexFrom(text, i), rs)
    decreases |text| + 1 - i
  {
    rs := [];
    if i < |text| {
      PlainIff(text, i);
      if Classify(text, i).Ok? {
        var t := Classify(text, i).value;
        SameOutcome(text, i, t);
        rs := Explain(text, t.end);
        if t.kind.Plain? {
          ExplainsPlain(text, i, LexFrom(text, t.end), LexFrom(text, i), rs);
        } else {
          TokenIffRegion(text, i, t.kind, t.end);
          ExplainsRegion(text, LexFrom(text, t.end), LexFrom(text, i), Region(t.kind, i, t.end), rs);
          rs := [Region(t.kind, i, t.end)] + rs;
        }
      }
    }
  }

  /** The text can be cut into regions and what lies between them. */
  ghost predicate HasRegions(text: string) {
    exists rs :: Regions(text, 0, rs, |text|)
  }

  /** The lexer succeeds exactly when the text can be cut into regions. */
  lemma LexesIff(text: string)
    ensures Lex(text).Ok? <==> HasRegions(text)
  {
    if Lex(text).Ok? {
      var rs := Explain(text, 0);
      assert Regions(text, 0, rs, |text|);
    }
    if rs :| Regions(text, 0, rs, |text|) { LexShows(text, 0, rs); }
  }

  /** Each view is blank exactly inside the regions it hides and shows the text everywhere else. */
  lemma ViewsShowRegions(text: string, rs: seq<Region>)
    requires Regions(text, 0, rs, |text|)
    ensures Lex(text).Ok? && ShowsRegions(Lex(text).value, text, 0, rs)
  {
    LexShows(text, 0, rs);
  }

  /** The lexer fails at `o` exactly when a raw string opens there, outside every earlier region, and never ends. */
  lemma LexFailsIff(text: string, o: nat)
    ensures Lex(text) == Err(o) <==> exists rs :: FailsAt(text, 0, rs, o)
  {
    if Lex(text) == Err(o) {
      var rs := Explain(text, 0);
      assert FailsAt(text, 0, rs, o);
    }
    if rs :| FailsAt(text, 0, rs, o) { LexFails(text, 0, rs, o); }
  }
}
