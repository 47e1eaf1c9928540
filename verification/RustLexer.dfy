/**
 `lex_rust` of `scripts/pytokio_removal_census.py`: a whole-file lexer that produces two views of a Rust
 source, `scannable` (comments blanked) and `structural` (literals blanked too).
 */
module RustLexer {
  import opened Options

  datatype Kind = LineComment | BlockComment | RawString | Quoted | CharLiteral | Plain

  /** A token and the offset after it; an escape at the end of the text can put `end` past the text. */
  datatype Token = Token(kind: Kind, end: nat)

  datatype Views = Views(scannable: string, structural: string)

  /** The error is the offset of a raw string that never closes (the `CensusError`). */
  type LexResult<T> = Result<T, nat>

  predicate At(text: string, i: nat, c: char) {
    i < |text| && text[i] == c
  }

  predicate Pair(text: string, i: nat, c: char, d: char) {
    At(text, i, c) && At(text, i + 1, d)
  }

  // ---------------------------------------------------------------------------------------------
  // Where each kind of token ends
  // ---------------------------------------------------------------------------------------------

  /** End of a line comment: the next newline, or the end of the text. */
  function LineEnd(text: string, i: nat): (e: nat)
    requires i <= |text|
    ensures i <= e <= |text|
    ensures '\n' !in text[i..e] && (e < |text| ==> text[e] == '\n')
    decreases |text| - i
  {
    if i == |text| || text[i] == '\n' then i else LineEnd(text, i + 1)
  }

  /** End of a nested block comment, scanning from `i` with `depth` comments open. */
  function BlockEnd(text: string, i: nat, depth: int): (e: nat)
    requires i <= |text|
    ensures i <= e <= |text|
    decreases |text| - i
  {
    if i == |text| then i
    else if Pair(text, i, '/', '*') then BlockEnd(text, i + 2, depth + 1)
    else if Pair(text, i, '*', '/') then if depth == 1 then i + 2 else BlockEnd(text, i + 2, depth - 1)
    else BlockEnd(text, i + 1, depth)
  }

  /** End of a quoted literal, scanning from `i`; a backslash always skips one character. */
  function QuoteEnd(text: string, i: nat, quote: char): (e: nat)
    requires i <= |text| + 1
    ensures i <= e <= |text| + 1
    decreases |text| + 1 - i
  {
    if i >= |text| then i
    else if text[i] == '\\' then QuoteEnd(text, i + 2, quote)
    else if text[i] == quote then i + 1
    else QuoteEnd(text, i + 1, quote)
  }

  /** Number of `#` from `i` on. */
  function Hashes(text: string, i: nat): (h: nat)
    ensures i + h <= |text| || h == 0
    decreases |text| - i
  {
    if At(text, i, '#') then 1 + Hashes(text, i + 1) else 0
  }

  datatype Opener = NoOpener | Opener(quote: nat, hashes: nat)

  /** The opener `b? r #* "` at `i`, if there is one, as the offset of its quote and its hash count. */
  function RawOpener(text: string, i: nat): (o: Opener)
    ensures o.Opener? ==> i < o.quote < |text| && text[o.quote] == '"'
  {
    var c := if At(text, i, 'b') then i + 1 else i;
    if !At(text, c, 'r') then NoOpener
    else
      var h := Hashes(text, c + 1);
      if At(text, c + 1 + h, '"') then Opener(c + 1 + h, h) else NoOpener
  }

  /** The terminator of a raw string with `hashes` hashes stands at `i`. */
  predicate Terminates(text: string, i: nat, hashes: nat) {
    i + 1 + hashes <= |text| && text[i] == '"' && forall j | i < j <= i + hashes :: text[j] == '#'
  }

  /** `text.find(terminator, i)`, or `None`. */
  function FindTerminator(text: string, i: nat, hashes: nat): (r: LexResult<nat>)
    requires i <= |text|
    ensures r.Ok? ==> i <= r.value && Terminates(text, r.value, hashes)
    ensures forall j | i <= j < (if r.Ok? then r.value else |text|) :: !Terminates(text, j, hashes)
    decreases |text| - i
  {
    if i == |text| then Err(i)
    else if Terminates(text, i, hashes) then Ok(i)
    else FindTerminator(text, i + 1, hashes)
  }

  /** `_is_char_literal`: whether the quote at `i` opens a char literal rather than a lifetime. */
  predicate IsCharLiteral(text: string, i: nat) {
    i + 1 < |text| && (text[i + 1] == '\\' || At(text, i + 2, '\''))
  }

  /** The token that starts at `i`, in the order in which the loop tests for it. */
  function Classify(text: string, i: nat): (r: LexResult<Token>)
    requires i < |text|
    ensures r.Ok? ==> i < r.value.end <= |text| + 1
    ensures r.Ok? && r.value.end > |text| ==> r.value.kind.Quoted? || r.value.kind.CharLiteral?
  {
    if Pair(text, i, '/', '/') then Ok(Token(LineComment, LineEnd(text, i + 1)))
    else if Pair(text, i, '/', '*') then Ok(Token(BlockComment, BlockEnd(text, i + 2, 1)))
    else
      var o := RawOpener(text, i);
      if o.Opener? then
        var t := FindTerminator(text, o.quote + 1, o.hashes);
        if t.Ok? then Ok(Token(RawString, t.value + 1 + o.hashes)) else Err(i)
      else if text[i] == '"' then Ok(Token(Quoted, QuoteEnd(text, i + 1, '"')))
      else if text[i] == '\'' && IsCharLiteral(text, i) then Ok(Token(CharLiteral, QuoteEnd(text, i + 1, '\'')))
      else Ok(Token(Plain, i + 1))
  }

  // ---------------------------------------------------------------------------------------------
  // The two views
  // ---------------------------------------------------------------------------------------------

  function Blank(chunk: string): string {
    seq(|chunk|, i requires 0 <= i < |chunk| => if chunk[i] == '\n' then '\n' else ' ')
  }

  function Spaces(n: nat): string {
    seq(n, _ => ' ')
  }

  /** The source characters of a token: Python slices stop at the end of the text. */
  function Chunk(text: string, i: nat, end: nat): string
    requires i <= |text| && i <= end
  {
    text[i..if end <= |text| then end else |text|]
  }

  function Scannable(text: string, i: nat, t: Token): string
    requires i <= |text| && i <= t.end
  {
    if t.kind.LineComment? || t.kind.BlockComment? then Blank(Chunk(text, i, t.end)) else Chunk(text, i, t.end)
  }

  function Structural(text: string, i: nat, t: Token): string
    requires i <= |text| && i <= t.end
  {
    if t.kind.Plain? then Chunk(text, i, t.end)
    else if t.kind.CharLiteral? then Spaces(t.end - i)
    else Blank(Chunk(text, i, t.end))
  }

  function Prepend(scan: string, struct: string, rest: LexResult<Views>): LexResult<Views> {
    match rest
    case Ok(v) => Ok(Views(scan + v.scannable, struct + v.structural))
    case Err(o) => Err(o)
  }

  /** The views of the text from offset `i` on. */
  function LexFrom(text: string, i: nat): LexResult<Views>
    decreases |text| - i
  {
    if i >= |text| then Ok(Views("", ""))
    else
      match Classify(text, i)
      case Err(o) => Err(o)
      case Ok(t) => Prepend(Scannable(text, i, t), Structural(text, i, t), LexFrom(text, t.end))
  }

  function Lex(text: string): LexResult<Views> {
    LexFrom(text, 0)
  }

  // ---------------------------------------------------------------------------------------------
  // The loops
  // ---------------------------------------------------------------------------------------------

  /** The inner loop for `/* ... */`. */
  method SkipBlockComment(text: string, index: nat) returns (end: nat)
    requires Pair(text, index, '/', '*')
    ensures end == BlockEnd(text, index + 2, 1)
  {
    var depth := 0;
    end := index;
    while end < |text|
      invariant index <= end <= |text| && 0 <= depth && (depth == 0 ==> end == index)
      invariant BlockEnd(text, end, depth) == BlockEnd(text, index, 0)
    {
      if Pair(text, end, '/', '*') {
        depth := depth + 1;
        end := end + 2;
      } else if Pair(text, end, '*', '/') {
        depth := depth - 1;
        end := end + 2;
        if depth == 0 { break; }
      } else {
        end := end + 1;
      }
    }
  }

  /** The inner loop for string and char literals. */
  method SkipQuoted(text: string, index: nat, quote: char) returns (end: nat)
    requires index < |text|
    ensures end == QuoteEnd(text, index + 1, quote)
  {
    end := index + 1;
    while end < |text|
      invariant index < end <= |text| + 1
      invariant QuoteEnd(text, end, quote) == QuoteEnd(text, index + 1, quote)
    {
      if text[end] == '\\' {
        end := end + 2;
      } else if text[end] == quote {
        end := end + 1;
        break;
      } else {
        end := end + 1;
      }
    }
  }

  /** `_raw_string_span`: the end of a raw string at `index`, `None` as 0, or the error. */
  method RawStringSpan(text: string, index: nat) returns (r: LexResult<nat>)
    requires index < |text|
    ensures RawOpener(text, index).NoOpener? ==> r == Ok(0)
    ensures RawOpener(text, index).Opener? ==>
              var o := RawOpener(text, index);
              match FindTerminator(text, o.quote + 1, o.hashes)
              case Ok(e) => r == Ok(e + 1 + o.hashes)
              case Err(_) => r == Err(index)
  {
    var cursor := index;
    if text[cursor] == 'b' { cursor := cursor + 1; }
    if cursor >= |text| || text[cursor] != 'r' { return Ok(0); }
    cursor := cursor + 1;
    var start, hashes := cursor, 0;
    while cursor < |text| && text[cursor] == '#'
      invariant cursor == start + hashes && cursor <= |text|
      invariant hashes + Hashes(text, cursor) == Hashes(text, start)
    {
      hashes := hashes + 1;
      cursor := cursor + 1;
    }
    if cursor >= |text| || text[cursor] != '"' { return Ok(0); }
    match FindTerminator(text, cursor + 1, hashes)
    case Ok(e) => r := Ok(e + 1 + hashes);
    case Err(_) => r := Err(index);
  }

  /** One round of the main loop: the token at `index`. */
  method NextToken(text: string, index: nat) returns (r: LexResult<Token>)
    requires index < |text|
    ensures r == Classify(text, index)
  {
    if Pair(text, index, '/', '/') {
      return Ok(Token(LineComment, LineEnd(text, index)));
    }
    if Pair(text, index, '/', '*') {
      var end := SkipBlockComment(text, index);
      return Ok(Token(BlockComment, end));
    }
    var raw := RawStringSpan(text, index);
    if raw.Err? {
      return Err(raw.error);
    }
    if raw.value != 0 {
      return Ok(Token(RawString, raw.value));
    }
    if text[index] == '"' {
      var end := SkipQuoted(text, index, '"');
      return Ok(Token(Quoted, end));
    }
    if text[index] == '\'' && IsCharLiteral(text, index) {
      var end := SkipQuoted(text, index, '\'');
      return Ok(Token(CharLiteral, end));
    }
    return Ok(Token(Plain, index + 1));
  }

  /** `lex_rust`. */
  method LexRust(text: string) returns (r: LexResult<Views>)
    ensures r == Lex(text)
  {
    var scannable, structural, index := "", "", 0;
    PrependNothing(Lex(text));
    while index < |text|
      invariant Prepend(scannable, structural, LexFrom(text, index)) == Lex(text)
      decreases |text| - index
    {
      var token := NextToken(text, index);
      if token.Err? {
        return Err(token.error);
      }
      var t := token.value;
      PrependAssoc(scannable, structural, Scannable(text, index, t), Structural(text, index, t), LexFrom(text, t.end));
      scannable := scannable + Scannable(text, index, t);
      structural := structural + Structural(text, index, t);
      index := t.end;
    }
    r := Ok(Views(scannable, structural));
    assert scannable + "" == scannable && structural + "" == structural;
  }

  lemma PrependNothing(rest: LexResult<Views>)
    ensures Prepend("", "", rest) == rest
  {
    if rest.Ok? {
      assert "" + rest.value.scannable == rest.value.scannable && "" + rest.value.structural == rest.value.structural;
    }
  }

  lemma PrependAssoc(a: string, b: string, c: string, d: string, rest: LexResult<Views>)
    ensures Prepend(a, b, Prepend(c, d, rest)) == Prepend(a + c, b + d, rest)
  {
    if rest.Ok? {
      assert a + (c + rest.value.scannable) == (a + c) + rest.value.scannable;
      assert b + (d + rest.value.structural) == (b + d) + rest.value.structural;
    }
  }
}
