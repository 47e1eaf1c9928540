/**
 `rust_symbols` of `scripts/pytokio_removal_census.py`: a brace-depth stack machine that names the
 enclosing `impl` or `trait` block, and the function, of every line.

 The regular expressions and the header parsers are parameters (`Matchers`): what is proved holds for
 any of them.
 */
module BlockOwnership {
  import opened Options

  /** The error is a `CensusError`. */
  type SymbolResult<T> = Result<T, ()>

  datatype HeaderKind = Impl | Trait

  datatype Matchers = Matchers(
    isSpace: char -> bool,
    starts: (HeaderKind, string) -> bool,           // IMPL_START, TRAIT_START
    fnName: string -> string,                       // FN_RE, "" for no match
    parse: (HeaderKind, string) -> Option<string>)  // parse_impl_header, parse_trait_header; None raises

  // ---------------------------------------------------------------------------------------------
  // String helpers
  // ---------------------------------------------------------------------------------------------

  function RStrip(m: Matchers, s: string): string {
    if s != "" && m.isSpace(s[|s| - 1]) then RStrip(m, s[..|s| - 1]) else s
  }

  function LStrip(m: Matchers, s: string): string {
    if s != "" && m.isSpace(s[0]) then LStrip(m, s[1..]) else s
  }

  function Strip(m: Matchers, s: string): string {
    LStrip(m, RStrip(m, s))
  }

  predicate EndsDeclaration(m: Matchers, s: string) {
    var r := RStrip(m, s); r != "" && r[|r| - 1] == ';'
  }

  function Count(s: string, c: char): nat {
    if s == "" then 0 else Count(s[..|s| - 1], c) + (if s[|s| - 1] == c then 1 else 0)
  }

  // ---------------------------------------------------------------------------------------------
  // Headers and depths, without the stack
  // ---------------------------------------------------------------------------------------------

  /** What a line contributes: the depth at its start, the block header completed on it, its function. */
  datatype Event = Event(depth: int, header: Option<string>, fn: string)

  /** The part of the loop state that decides headers: depth and the header still accumulating. */
  datatype Front = Front(depth: int, pending: string, kind: HeaderKind)

  /** A header found on a line, a pending one, or neither. */
  datatype Found = Header(kind: HeaderKind, text: string) | Pending(kind: HeaderKind, text: string) | Nothing | Refused

  /** The header logic of one line. */
  function FindHeader(m: Matchers, f: Front, line: string): Found {
    if f.pending != "" then
      var joined := f.pending + " " + Strip(m, line);
      if '{' in line then Header(f.kind, joined)
      else if EndsDeclaration(m, line) || |joined| > 2000 then Refused
      else Pending(f.kind, joined)
    else if m.starts(Impl, line) then StartHeader(m, Impl, line)
    else if m.starts(Trait, line) then StartHeader(m, Trait, line)
    else Nothing
  }

  function StartHeader(m: Matchers, kind: HeaderKind, line: string): Found {
    if '{' in line then Header(kind, line)
    else if EndsDeclaration(m, line) then Nothing
    else Pending(kind, Strip(m, line))
  }

  function Braces(line: string): int {
    Count(line, '{') - Count(line, '}')
  }

  /** The event of one line and the state after it. */
  function LineEvent(m: Matchers, f: Front, line: string): SymbolResult<(Event, Front)> {
    match FindHeader(m, f, line)
    case Refused => Err(())
    case Header(kind, text) =>
      var q := m.parse(kind, text);
      if q.None? then Err(())
      else Ok((Event(f.depth, q, m.fnName(line)), Front(f.depth + Braces(line), "", kind)))
    case Pending(kind, text) =>
      Ok((Event(f.depth, None, m.fnName(line)),
          if text != "" then Front(f.depth, text, kind) else Front(f.depth + Braces(line), "", kind)))
    case Nothing => Ok((Event(f.depth, None, m.fnName(line)), Front(f.depth + Braces(line), "", f.kind)))
  }

  /** The events of all lines, in order. */
  function Events(m: Matchers, lines: seq<string>): (r: SymbolResult<(seq<Event>, Front)>)
    ensures r.Ok? ==> |r.value.0| == |lines|
  {
    if lines == [] then Ok(([], Front(0, "", Impl)))
    else
      match Events(m, lines[..|lines| - 1])
      case Err(_) => Err(())
      case Ok((es, f)) =>
        match LineEvent(m, f, lines[|lines| - 1])
        case Err(_) => Err(())
        case Ok((e, f')) => Ok((es + [e], f'))
  }

  // ---------------------------------------------------------------------------------------------
  // Which lines are refused, without the loop
  // ---------------------------------------------------------------------------------------------

  predicate StartsHeader(m: Matchers, line: string) {
    m.starts(Impl, line) || m.starts(Trait, line)
  }

  function KindOf(m: Matchers, line: string): HeaderKind {
    if m.starts(Impl, line) then Impl else Trait
  }

  /** A header begins on line `h` and its brace is on a later line. */
  ghost predicate Begins(m: Matchers, lines: seq<string>, h: nat)
    requires h < |lines|
    decreases h, 3
  {
    && StartsHeader(m, lines[h]) && '{' !in lines[h] && !EndsDeclaration(m, lines[h]) && Strip(m, lines[h]) != ""
    && !InHeader(m, lines, h)
  }

  /** Line `n` continues a header that began on line `h`: no brace has come since. */
  ghost predicate ContinuesFrom(m: Matchers, lines: seq<string>, h: nat, n: nat)
    requires n <= |lines|
    decreases n, 1
  {
    h < n && Begins(m, lines, h) && forall i | h < i < n :: '{' !in lines[i]
  }

  ghost predicate InHeader(m: Matchers, lines: seq<string>, n: nat)
    requires n <= |lines|
    decreases n, 2
  {
    exists h | 0 <= h < n :: ContinuesFrom(m, lines, h, n)
  }

  /** Lines `h` up to `n`, stripped and joined by spaces. */
  function HeaderText(m: Matchers, lines: seq<string>, h: nat, n: nat): string
    requires h < n <= |lines|
    decreases n
  {
    if n == h + 1 then Strip(m, lines[h]) else HeaderText(m, lines, h, n - 1) + " " + Strip(m, lines[n - 1])
  }

  /**
   Line `n` is refused: it completes a header, begun on line `h` or on itself, that does not parse; or it ends as a
   declaration, or makes the header too long, before any brace.
   */
  ghost predicate Refuses(m: Matchers, lines: seq<string>, n: nat)
    requires n < |lines|
  {
    if InHeader(m, lines, n) then exists h | 0 <= h < n :: ContinuesFrom(m, lines, h, n) && RefusedAfter(m, lines, h, n)
    else StartsHeader(m, lines[n]) && '{' in lines[n] && m.parse(KindOf(m, lines[n]), lines[n]).None?
  }

  predicate RefusedAfter(m: Matchers, lines: seq<string>, h: nat, n: nat)
    requires h < n < |lines|
  {
    var text := HeaderText(m, lines, h, n + 1);
    if '{' in lines[n] then m.parse(KindOf(m, lines[h]), text).None? else EndsDeclaration(m, lines[n]) || |text| > 2000
  }

  /** Every line between a header's start and a line that continues it is inside the header. */
  lemma Between(m: Matchers, lines: seq<string>, h: nat, g: nat, n: nat)
    requires n <= |lines| && ContinuesFrom(m, lines, h, n) && h < g < n
    ensures InHeader(m, lines, g)
  {
    assert ContinuesFrom(m, lines, h, g);
  }

  /** A line continues at most one header. */
  lemma ContinuesOne(m: Matchers, lines: seq<string>, h: nat, g: nat, n: nat)
    requires n <= |lines| && ContinuesFrom(m, lines, h, n) && ContinuesFrom(m, lines, g, n)
    ensures h == g
  {
    if h < g { Between(m, lines, h, g, n); }
    if g < h { Between(m, lines, g, h, n); }
  }

  /** The pending header of the loop is the one that line `n` continues. */
  ghost predicate FrontMeans(m: Matchers, lines: seq<string>, n: nat, f: Front)
    requires n <= |lines|
  {
    if f.pending == "" then !InHeader(m, lines, n)
    else exists h | 0 <= h < n ::
      ContinuesFrom(m, lines, h, n) && f.pending == HeaderText(m, lines, h, n) && f.kind == KindOf(m, lines[h])
  }

  lemma NotInHeaderNext(m: Matchers, lines: seq<string>, n: nat)
    requires n < |lines| && !Begins(m, lines, n) && (InHeader(m, lines, n) ==> '{' in lines[n])
    ensures !InHeader(m, lines, n + 1)
  {
    if InHeader(m, lines, n + 1) {
      var h :| 0 <= h < n + 1 && ContinuesFrom(m, lines, h, n + 1);
      HeaderBefore(m, lines, h, n);
    }
  }

  /** A header that reaches past line `n` began on it, or reaches it without a brace. */
  lemma HeaderBefore(m: Matchers, lines: seq<string>, h: nat, n: nat)
    requires n < |lines| && ContinuesFrom(m, lines, h, n + 1)
    ensures h == n || (InHeader(m, lines, n) && '{' !in lines[n])
  {
    if h < n { assert ContinuesFrom(m, lines, h, n); }
  }

  /** One line: refused exactly as the loop refuses it, and the front keeps its meaning. */
  lemma FrontNext(m: Matchers, lines: seq<string>, n: nat, f: Front)
    requires n < |lines| && FrontMeans(m, lines, n, f)
    ensures LineEvent(m, f, lines[n]).Err? <==> Refuses(m, lines, n)
    ensures LineEvent(m, f, lines[n]).Ok? ==> FrontMeans(m, lines, n + 1, LineEvent(m, f, lines[n]).value.1)
  {
    if f.pending == "" { FrontNextFree(m, lines, n, f); } else { FrontNextPending(m, lines, n, f); }
  }

  lemma FrontNextFree(m: Matchers, lines: seq<string>, n: nat, f: Front)
    requires n < |lines| && f.pending == "" && !InHeader(m, lines, n)
    ensures LineEvent(m, f, lines[n]).Err? <==> Refuses(m, lines, n)
    ensures LineEvent(m, f, lines[n]).Ok? ==> FrontMeans(m, lines, n + 1, LineEvent(m, f, lines[n]).value.1)
  {
    if Begins(m, lines, n) {
      assert ContinuesFrom(m, lines, n, n + 1);
    } else {
      NotInHeaderNext(m, lines, n);
    }
  }

  lemma FrontNextPending(m: Matchers, lines: seq<string>, n: nat, f: Front)
    requires n < |lines| && f.pending != "" && FrontMeans(m, lines, n, f)
    ensures LineEvent(m, f, lines[n]).Err? <==> Refuses(m, lines, n)
    ensures LineEvent(m, f, lines[n]).Ok? ==> FrontMeans(m, lines, n + 1, LineEvent(m, f, lines[n]).value.1)
  {
    var h :| 0 <= h < n && ContinuesFrom(m, lines, h, n) && f.pending == HeaderText(m, lines, h, n)
        && f.kind == KindOf(m, lines[h]);
    forall g | 0 <= g < n && ContinuesFrom(m, lines, g, n) ensures g == h { ContinuesOne(m, lines, h, g, n); }
    assert Refuses(m, lines, n) <==> RefusedAfter(m, lines, h, n);
    assert HeaderText(m, lines, h, n + 1) == f.pending + " " + Strip(m, lines[n]);
    if '{' in lines[n] { NotInHeaderNext(m, lines, n); } else { assert ContinuesFrom(m, lines, h, n + 1); }
  }

  /** The loop fails exactly when some line is refused. */
  lemma {:induction false} EventsFailIff(m: Matchers, lines: seq<string>, n: nat)
    requires n <= |lines|
    ensures Events(m, lines[..n]).Err? <==> exists i | 0 <= i < n :: Refuses(m, lines, i)
    ensures Events(m, lines[..n]).Ok? ==> FrontMeans(m, lines, n, Events(m, lines[..n]).value.1)
  {
    if n > 0 {
      EventsFailIff(m, lines, n - 1);
      assert lines[..n][..n - 1] == lines[..n - 1];
      var before := Events(m, lines[..n - 1]);
      if before.Ok? { FrontNext(m, lines, n - 1, before.value.1); }
    }
  }

  // ---------------------------------------------------------------------------------------------
  // What each event says, without the loop
  // ---------------------------------------------------------------------------------------------

  /** Braces opened minus braces closed on the lines before `n` that do not leave a header pending. */
  ghost function DepthBefore(m: Matchers, lines: seq<string>, n: nat): int
    requires n <= |lines|
  {
    if n == 0 then 0
    else DepthBefore(m, lines, n - 1) + if InHeader(m, lines, n) then 0 else NetBraces(lines[n - 1])
  }

  function NetBraces(line: string): int {
    multiset(line)['{'] as int - multiset(line)['}'] as int
  }

  /** The header completed on line `n`: begun on line `h` and joined, or complete on the line itself. */
  ghost predicate HeaderMeans(m: Matchers, lines: seq<string>, n: nat, header: Option<string>)
    requires n < |lines|
  {
    if '{' !in lines[n] then header == None
    else if InHeader(m, lines, n) then exists h | 0 <= h < n ::
      ContinuesFrom(m, lines, h, n) && header == m.parse(KindOf(m, lines[h]), HeaderText(m, lines, h, n + 1))
    else header == if StartsHeader(m, lines[n]) then m.parse(KindOf(m, lines[n]), lines[n]) else None
  }

  ghost predicate EventMeans(m: Matchers, lines: seq<string>, n: nat, e: Event)
    requires n < |lines|
  {
    e.depth == DepthBefore(m, lines, n) && HeaderMeans(m, lines, n, e.header) && e.fn == m.fnName(lines[n])
  }

  lemma {:induction false} CountIsMultiplicity(s: string, c: char)
    ensures Count(s, c) == multiset(s)[c]
  {
    if s != "" {
      CountIsMultiplicity(s[..|s| - 1], c);
      assert s == s[..|s| - 1] + [s[|s| - 1]];
    }
  }

  lemma BracesAreCounts(line: string)
    ensures Braces(line) == NetBraces(line)
  {
    CountIsMultiplicity(line, '{');
    CountIsMultiplicity(line, '}');
  }

  /** One line keeps the depth and states the header that the declarative meaning gives. */
  lemma EventNext(m: Matchers, lines: seq<string>, n: nat, f: Front)
    requires n < |lines| && FrontMeans(m, lines, n, f) && f.depth == DepthBefore(m, lines, n)
    requires LineEvent(m, f, lines[n]).Ok?
    ensures var (e, f') := LineEvent(m, f, lines[n]).value;
            EventMeans(m, lines, n, e) && FrontMeans(m, lines, n + 1, f') && f'.depth == DepthBefore(m, lines, n + 1)
  {
    FrontNext(m, lines, n, f);
    BracesAreCounts(lines[n]);
    if f.pending != "" {
      var h :| 0 <= h < n && ContinuesFrom(m, lines, h, n) && f.pending == HeaderText(m, lines, h, n)
        && f.kind == KindOf(m, lines[h]);
      assert HeaderText(m, lines, h, n + 1) == f.pending + " " + Strip(m, lines[n]);
      assert InHeader(m, lines, n);
    }
  }

  lemma {:induction false} EventsMean(m: Matchers, lines: seq<string>, n: nat)
    requires n <= |lines| && Events(m, lines[..n]).Ok?
    ensures var (es, f) := Events(m, lines[..n]).value;
            && (forall j | 0 <= j < n :: EventMeans(m, lines, j, es[j]))
            && FrontMeans(m, lines, n, f) && f.depth == DepthBefore(m, lines, n)
  {
    if n > 0 {
      assert lines[..n][..n - 1] == lines[..n - 1];
      EventsMean(m, lines, n - 1);
      EventNext(m, lines, n - 1, Events(m, lines[..n - 1]).value.1);
    }
  }

  /** What is stripped is white space, and what is left neither begins nor ends with any. */
  lemma StripKeeps(m: Matchers, s: string) returns (a: nat, b: nat)
    ensures a <= b <= |s| && Strip(m, s) == s[a..b]
    ensures (forall p | 0 <= p < a :: m.isSpace(s[p])) && (forall p | b <= p < |s| :: m.isSpace(s[p]))
    ensures a < b ==> !m.isSpace(s[a]) && !m.isSpace(s[b - 1])
  {
    b := RStripKeeps(m, s);
    a := LStripKeeps(m, s[..b]);
    var left := s[..b];
    assert left[a..] == s[a..b];
    forall p | 0 <= p < a ensures m.isSpace(s[p]) { assert left[p] == s[p]; }
    if a < b { assert left[a] == s[a]; }
  }

  lemma {:induction false} RStripKeeps(m: Matchers, s: string) returns (b: nat)
    ensures b <= |s| && RStrip(m, s) == s[..b]
    ensures (forall p | b <= p < |s| :: m.isSpace(s[p])) && (b > 0 ==> !m.isSpace(s[b - 1]))
  {
    b := |s|;
    if s != "" && m.isSpace(s[|s| - 1]) {
      var init := s[..|s| - 1];
      b := RStripKeeps(m, init);
      assert init[..b] == s[..b];
    }
  }

  lemma {:induction false} LStripKeeps(m: Matchers, s: string) returns (a: nat)
    ensures a <= |s| && LStrip(m, s) == s[a..]
    ensures (forall p | 0 <= p < a :: m.isSpace(s[p])) && (a < |s| ==> !m.isSpace(s[a]))
  {
    a := 0;
    if s != "" && m.isSpace(s[0]) {
      var t := LStripKeeps(m, s[1..]);
      a := t + 1;
      assert s[1..][t..] == s[a..];
      assert forall p | 0 < p < a :: s[p] == s[1..][p - 1];
    }
  }

  /** A line ends as a declaration when its last character that is no white space is a semicolon. */
  lemma EndsDeclarationIff(m: Matchers, s: string)
    ensures EndsDeclaration(m, s) <==> exists p | 0 <= p < |s| ::
              s[p] == ';' && !m.isSpace(';') && forall q | p < q < |s| :: m.isSpace(s[q])
  {
    var b := RStripKeeps(m, s);
  }

  // ---------------------------------------------------------------------------------------------
  // The declarative meaning
  // ---------------------------------------------------------------------------------------------

  /** The block whose header is on line `h` is open on line `j`: the depth never fell below its own since. */
  predicate Open(es: seq<Event>, h: nat, j: nat)
    requires j < |es|
  {
    h <= j && es[h].header.Some? && forall i | h < i <= j :: es[i].depth >= es[h].depth + 1
  }

  /** The innermost block open on line `j` among those that start before line `n`. */
  function Innermost(es: seq<Event>, j: nat, n: nat): (r: Option<nat>)
    requires j < |es| && n <= j + 1
    ensures r.Some? ==> r.value < n && Open(es, r.value, j) && forall h | r.value < h < n :: !Open(es, h, j)
    ensures r.None? ==> forall h | 0 <= h < n :: !Open(es, h, j)
  {
    if n == 0 then None else if Open(es, n - 1, j) then Some(n - 1) else Innermost(es, j, n - 1)
  }

  /** A block closed on entry to line `j`, or opened on it: the function name starts afresh. */
  ghost predicate Changed(es: seq<Event>, j: nat)
    requires j < |es|
  {
    es[j].header.Some? || exists h | 0 <= h < j :: Open(es, h, j - 1) && !Open(es, h, j)
  }

  /** The last function named since the innermost block last changed. */
  ghost function CurrentFn(es: seq<Event>, j: nat): string
    requires j < |es|
  {
    if es[j].fn != "" then es[j].fn
    else if j == 0 || Changed(es, j) then ""
    else CurrentFn(es, j - 1)
  }

  /** The qualifier of the innermost open block, empty outside all blocks. */
  ghost function Qualifier(es: seq<Event>, j: nat): string
    requires j < |es|
  {
    match Innermost(es, j, j + 1) case Some(h) => es[h].header.value case None => ""
  }

  /** `<module>` without a function, else the function, after the qualifier if there is one. */
  function Named(qualifier: string, fn: string): string {
    if fn == "" then "<module>" else if qualifier == "" then fn else qualifier + "::" + fn
  }

  ghost function Symbol(es: seq<Event>, j: nat): string
    requires j < |es|
  {
    Named(Qualifier(es, j), CurrentFn(es, j))
  }

  // ---------------------------------------------------------------------------------------------
  // The stack machine
  // ---------------------------------------------------------------------------------------------

  datatype Block = Block(entry: int, qualifier: string)

  /** `impls` lists, outermost first and by strictly increasing depth, the blocks whose headers are on lines `open`. */
  ghost predicate StackOf(impls: seq<Block>, open: seq<nat>, es: seq<Event>) {
    && |impls| == |open|
    && (forall a | 0 <= a < |open| :: open[a] < |es| && es[open[a]].header.Some?
          && impls[a] == Block(es[open[a]].depth + 1, es[open[a]].header.value))
    && (forall a, b | 0 <= a < b < |open| :: open[a] < open[b] && impls[a].entry < impls[b].entry)
  }

  /** `open` is exactly the blocks open on the last line of `es`. */
  ghost predicate ExactlyOpen(open: seq<nat>, es: seq<Event>) {
    if es == [] then open == []
    else forall h: nat :: h in open <==> h < |es| && Open(es, h, |es| - 1)
  }

  /** The `while` loop at the head of each line: drop the blocks deeper than `depth`. */
  method PopClosed(impls: seq<Block>, depth: int, ghost open: seq<nat>, ghost es: seq<Event>)
    returns (left: seq<Block>, popped: bool)
    requires StackOf(impls, open, es)
    ensures |left| <= |impls| && left == impls[..|left|] && (popped <==> |left| < |impls|)
    ensures forall a | 0 <= a < |left| :: left[a].entry <= depth
    ensures forall a | |left| <= a < |impls| :: impls[a].entry > depth
  {
    left, popped := impls, false;
    while left != [] && depth < left[|left| - 1].entry
      invariant |left| <= |impls| && left == impls[..|left|] && (popped <==> |left| < |impls|)
      invariant forall a | |left| <= a < |impls| :: impls[a].entry > depth
    {
      left := left[..|left| - 1];
      popped := true;
    }
  }

  lemma OpenNext(es: seq<Event>, e: Event, h: nat)
    requires h < |es|
    ensures Open(es + [e], h, |es| - 1) == Open(es, h, |es| - 1)
    ensures Open(es + [e], h, |es|) <==> Open(es, h, |es| - 1) && e.depth >= es[h].depth + 1
  {
    var es', n := es + [e], |es|;
    assert forall i | 0 <= i < n :: es'[i] == es[i];
    assert es'[n] == e;
    if Open(es, h, n - 1) && e.depth >= es[h].depth + 1 {
      forall i | h < i <= n ensures es'[i].depth >= es'[h].depth + 1 { assert i < n ==> es'[i] == es[i]; }
    }
    if Open(es', h, n) {
      forall i | h < i <= n - 1 ensures es[i].depth >= es[h].depth + 1 { assert es'[i] == es[i]; }
    }
  }

  /** The stack after a line: the first `n` blocks stay, and the line's header is pushed. */
  ghost function NextOpen(open: seq<nat>, n: nat, es: seq<Event>, e: Event): seq<nat>
    requires n <= |open|
  {
    open[..n] + if e.header.Some? then [|es|] else []
  }

  function NextImpls(left: seq<Block>, e: Event): seq<Block> {
    left + if e.header.Some? then [Block(e.depth + 1, e.header.value)] else []
  }

  /** Popping keeps exactly the blocks that are still deep enough. */
  lemma PopMeaning(open: seq<nat>, impls: seq<Block>, es: seq<Event>, e: Event, n: nat, h: nat)
    requires StackOf(impls, open, es) && ExactlyOpen(open, es) && n <= |open| && h < |es|
    requires forall a | 0 <= a < n :: impls[a].entry <= e.depth
    requires forall a | n <= a < |open| :: impls[a].entry > e.depth
    ensures h in open[..n] <==> Open(es + [e], h, |es|)
  {
    OpenNext(es, e, h);
    if h in open[..n] {
      var a :| 0 <= a < n && open[..n][a] == h;
      assert open[a] == h && h in open;
    }
    if Open(es + [e], h, |es|) {
      assert h in open;
      var a :| 0 <= a < |open| && open[a] == h;
      assert a < n;
      assert open[..n][a] == h;
    }
  }

  lemma NextStack(open: seq<nat>, impls: seq<Block>, es: seq<Event>, e: Event, n: nat)
    requires StackOf(impls, open, es) && ExactlyOpen(open, es) && n <= |open|
    requires forall a | 0 <= a < n :: impls[a].entry <= e.depth
    requires forall a | n <= a < |open| :: impls[a].entry > e.depth
    ensures StackOf(NextImpls(impls[..n], e), NextOpen(open, n, es, e), es + [e])
    ensures ExactlyOpen(NextOpen(open, n, es, e), es + [e])
  {
    var es', open' := es + [e], NextOpen(open, n, es, e);
    forall h: nat ensures h in open' <==> h < |es'| && Open(es', h, |es|) {
      if h < |es| { PopMeaning(open, impls, es, e, n, h); }
      assert h in open' <==> h in open[..n] || (e.header.Some? && h == |es|);
      if h in open[..n] { var a :| 0 <= a < n && open[..n][a] == h; assert open[a] == h; }
    }
  }

  /** A block closes on entry to the new line exactly when something is popped. */
  lemma PoppedMeansChanged(open: seq<nat>, impls: seq<Block>, es: seq<Event>, e: Event, n: nat)
    requires es != [] && StackOf(impls, open, es) && ExactlyOpen(open, es) && n <= |open|
    requires forall a | 0 <= a < n :: impls[a].entry <= e.depth
    requires forall a | n <= a < |open| :: impls[a].entry > e.depth
    ensures Changed(es + [e], |es|) <==> n < |open| || e.header.Some?
  {
    var es' := es + [e];
    if n < |open| {
      var h := open[n];
      assert h in open;
      OpenNext(es, e, h);
      assert Open(es', h, |es| - 1) && !Open(es', h, |es|);
    }
    if Changed(es', |es|) && e.header.None? {
      var h :| 0 <= h < |es| && Open(es', h, |es| - 1) && !Open(es', h, |es|);
      OpenNext(es, e, h);
      PopMeaning(open, impls, es, e, n, h);
      assert h in open && h !in open[..n];
    }
  }

  /** The top of the stack is the innermost open block. */
  lemma TopIsInnermost(open: seq<nat>, impls: seq<Block>, es: seq<Event>)
    requires es != [] && StackOf(impls, open, es) && ExactlyOpen(open, es)
    ensures Innermost(es, |es| - 1, |es|) == if open == [] then None else Some(open[|open| - 1])
  {
    var r := Innermost(es, |es| - 1, |es|);
    assert forall h | h in open :: Open(es, h, |es| - 1);
    assert r.Some? ==> r.value in open;
    if open != [] {
      var top := open[|open| - 1];
      assert top in open && r.Some?;
      var a :| 0 <= a < |open| && open[a] == r.value;
    }
  }

  /** Earlier lines mean the same when lines are added. */
  lemma SymbolsStay(es: seq<Event>, e: Event, j: nat)
    requires j < |es|
    ensures Symbol(es + [e], j) == Symbol(es, j) && CurrentFn(es + [e], j) == CurrentFn(es, j)
  {
    InnermostStays(es, e, j, j + 1);
    FnStays(es, e, j);
  }

  lemma ChangedStays(es: seq<Event>, e: Event, j: nat)
    requires 0 < j < |es|
    ensures Changed(es + [e], j) == Changed(es, j)
  {
    OpenStays(es, e, j);
    OpenStays(es, e, j - 1);
  }

  lemma {:induction false} FnStays(es: seq<Event>, e: Event, j: nat)
    requires j < |es|
    ensures CurrentFn(es + [e], j) == CurrentFn(es, j)
  {
    if es[j].fn == "" && j > 0 {
      ChangedStays(es, e, j);
      FnStays(es, e, j - 1);
    }
  }

  lemma OpenStays(es: seq<Event>, e: Event, j: nat)
    requires j < |es|
    ensures forall h: nat :: Open(es + [e], h, j) == Open(es, h, j)
  {
    var es' := es + [e];
    forall h: nat ensures Open(es', h, j) == Open(es, h, j) {
      assert forall i | 0 <= i <= j :: es'[i] == es[i];
    }
  }

  lemma {:induction false} InnermostStays(es: seq<Event>, e: Event, j: nat, n: nat)
    requires j < |es| && n <= j + 1
    ensures Innermost(es + [e], j, n) == Innermost(es, j, n)
  {
    OpenStays(es, e, j);
    if n > 0 { InnermostStays(es, e, j, n - 1); }
  }

  /** The function name after a line, given the one before it. */
  function NextFn(currentFn: string, popped: bool, e: Event): string {
    if e.fn != "" then e.fn else if popped || e.header.Some? then "" else currentFn
  }

  lemma FnFirst(es: seq<Event>, e: Event, popped: bool)
    requires es == []
    ensures CurrentFn(es + [e], |es|) == NextFn("", popped, e)
  {
  }

  lemma FnNext(es: seq<Event>, e: Event, popped: bool)
    requires es != [] && (Changed(es + [e], |es|) <==> popped || e.header.Some?)
    ensures CurrentFn(es + [e], |es|) == NextFn(CurrentFn(es, |es| - 1), popped, e)
  {
    FnStays(es, e, |es| - 1);
    assert (es + [e])[|es|] == e;
  }

  lemma NextFnMeaning(es: seq<Event>, e: Event, popped: bool, fn: string)
    requires fn == if es == [] then "" else CurrentFn(es, |es| - 1)
    requires es != [] ==> (Changed(es + [e], |es|) <==> popped || e.header.Some?)
    ensures CurrentFn(es + [e], |es|) == NextFn(fn, popped, e)
  {
    if es == [] { FnFirst(es, e, popped); } else { FnNext(es, e, popped); }
  }

  /** The loop invariant: stack, current function and symbols so far mean what the events say. */
  ghost predicate Tracks(impls: seq<Block>, open: seq<nat>, es: seq<Event>, fn: string, out: seq<string>) {
    && StackOf(impls, open, es) && ExactlyOpen(open, es)
    && fn == (if es == [] then "" else CurrentFn(es, |es| - 1))
    && |out| == |es| && forall j | 0 <= j < |es| :: out[j] == Symbol(es, j)
  }

  function Render(qualifier: string, fn: string): string {
    if fn != "" && qualifier != "" then qualifier + "::" + fn
    else if fn != "" then fn
    else "<module>"
  }

  function TopSymbol(impls: seq<Block>, fn: string): string {
    Render(if impls != [] then impls[|impls| - 1].qualifier else "", fn)
  }

  lemma NextTracks(impls: seq<Block>, open: seq<nat>, es: seq<Event>, fn: string, out: seq<string>, e: Event, n: nat)
    requires Tracks(impls, open, es, fn, out) && n <= |open|
    requires forall a | 0 <= a < n :: impls[a].entry <= e.depth
    requires forall a | n <= a < |open| :: impls[a].entry > e.depth
    ensures var impls', fn' := NextImpls(impls[..n], e), NextFn(fn, n < |open|, e);
            Tracks(impls', NextOpen(open, n, es, e), es + [e], fn', out + [TopSymbol(impls', fn')])
  {
    NextStack(open, impls, es, e, n);
    if es != [] { PoppedMeansChanged(open, impls, es, e, n); }
    NextFnMeaning(es, e, n < |open|, fn);
    LastSymbol(NextOpen(open, n, es, e), NextImpls(impls[..n], e), es + [e]);
    AllSymbols(es, e, out, TopSymbol(NextImpls(impls[..n], e), NextFn(fn, n < |open|, e)));
  }

  lemma AllSymbols(es: seq<Event>, e: Event, out: seq<string>, last: string)
    requires |out| == |es| && (forall j | 0 <= j < |es| :: out[j] == Symbol(es, j)) && last == Symbol(es + [e], |es|)
    ensures forall j | 0 <= j < |es + [e]| :: (out + [last])[j] == Symbol(es + [e], j)
  {
    forall j | 0 <= j < |es| ensures out[j] == Symbol(es + [e], j) { SymbolsStay(es, e, j); }
  }

  /** The top of the stack and the current function give the symbol of the last line. */
  lemma LastSymbol(open: seq<nat>, impls: seq<Block>, es: seq<Event>)
    requires es != [] && StackOf(impls, open, es) && ExactlyOpen(open, es)
    ensures Symbol(es, |es| - 1) == TopSymbol(impls, CurrentFn(es, |es| - 1))
  {
    TopQualifier(open, impls, es);
    RenderIsNamed(Qualifier(es, |es| - 1), CurrentFn(es, |es| - 1));
  }

  lemma TopQualifier(open: seq<nat>, impls: seq<Block>, es: seq<Event>)
    requires es != [] && StackOf(impls, open, es) && ExactlyOpen(open, es)
    ensures Qualifier(es, |es| - 1) == if impls != [] then impls[|impls| - 1].qualifier else ""
  {
    TopIsInnermost(open, impls, es);
  }

  lemma RenderIsNamed(qualifier: string, fn: string)
    ensures Render(qualifier, fn) == Named(qualifier, fn)
  {
  }

  lemma EventsNext(m: Matchers, lines: seq<string>, n: nat, es: seq<Event>, front: Front)
    requires n < |lines| && Events(m, lines[..n]) == Ok((es, front))
    ensures var r := LineEvent(m, front, lines[n]);
            if r.Err? then Events(m, lines).Err?
            else r.value.0.depth == front.depth && Events(m, lines[..n + 1]) == Ok((es + [r.value.0], r.value.1))
  {
    assert lines[..n + 1][..n] == lines[..n];
    if LineEvent(m, front, lines[n]).Err? { FailsForGood(m, lines, n + 1); }
  }

  /** `rust_symbols`: one symbol per line, the one the declarative meaning gives. */
  method RustSymbols(m: Matchers, lines: seq<string>) returns (r: SymbolResult<seq<string>>)
    ensures r.Err? <==> exists n | 0 <= n < |lines| :: Refuses(m, lines, n)
    ensures r.Ok? <==> Events(m, lines).Ok?
    ensures r.Ok? ==> |r.value| == |lines| && forall j | 0 <= j < |lines| ::
            var es := Events(m, lines).value.0;
            var qualifier, fn := Qualifier(es, j), CurrentFn(es, j);
            && r.value[j] == (if fn == "" then "<module>" else if qualifier == "" then fn else qualifier + "::" + fn)
            && EventMeans(m, lines, j, es[j])
  {
    var out: seq<string> := [];
    var impls: seq<Block> := [];
    var currentFn, front := "", Front(0, "", Impl);
    ghost var open: seq<nat>, es: seq<Event> := [], [];
    EventsFailIff(m, lines, |lines|);
    assert lines[..|lines|] == lines;
    for index := 0 to |lines|
      invariant Events(m, lines[..index]) == Ok((es, front)) && |es| == |out| == index
      invariant Tracks(impls, open, es, currentFn, out)
    {
      EventsNext(m, lines, index, es, front);
      var line := LineEvent(m, front, lines[index]);
      if line.Err? {
        return Err(());
      }
      impls, currentFn, open := EnterLine(line.value.0, impls, currentFn, out, open, es);
      es := es + [line.value.0];
      out := out + [TopSymbol(impls, currentFn)];
      front := line.value.1;
    }
    assert lines[..|lines|] == lines;
    EventsMean(m, lines, |lines|);
    r := Ok(out);
  }

  /** One line: pop the blocks it has closed, then push the header and the function it starts. */
  method EnterLine(e: Event, impls: seq<Block>, fn: string, ghost out: seq<string>, ghost open: seq<nat>,
                   ghost es: seq<Event>)
    returns (impls': seq<Block>, fn': string, ghost open': seq<nat>)
    requires Tracks(impls, open, es, fn, out)
    ensures Tracks(impls', open', es + [e], fn', out + [TopSymbol(impls', fn')])
  {
    var left, popped := PopClosed(impls, e.depth, open, es);
    NextTracks(impls, open, es, fn, out, e, |left|);
    open' := NextOpen(open, |left|, es, e);
    impls' := NextImpls(left, e);
    fn' := NextFn(fn, popped, e);
  }

  lemma {:induction false} FailsForGood(m: Matchers, lines: seq<string>, n: nat)
    requires n <= |lines| && Events(m, lines[..n]).Err?
    ensures Events(m, lines).Err?
    decreases |lines| - n
  {
    if n == |lines| {
      assert lines[..n] == lines;
    } else {
      assert lines[..n + 1][..n] == lines[..n];
      FailsForGood(m, lines, n + 1);
    }
  }
}
