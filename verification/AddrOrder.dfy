/**
 Addresses of `hyperactor/src/addr.rs` and identities of `hyperactor/src/id.rs`: the comparison `Ord for Addr`
 and the prefix relation that routing rests on. Equality and comparison ignore the display label of an instance,
 so neither is equality of values. Names, channel addresses and ports are integers with their own order.
 */
module AddrOrder {
  import opened Options

  datatype Ordering = Less | Equal | Greater {
    function Reverse(): Ordering {
      match this case Less => Greater case Equal => Equal case Greater => Less
    }

    function Then(next: Ordering): Ordering {
      if this == Equal then next else this
    }
  }

  function IntCmp(a: int, b: int): Ordering {
    if a < b then Less else if a == b then Equal else Greater
  }

  datatype Uid = Singleton(name: int) | Instance(id: int, tag: Option<int>)

  datatype Location = Terminal(channel: int) | Via(uid: Uid, inner: Location)

  datatype ProcAddr = ProcAddr(uid: Uid, location: Location)

  datatype Addr =
    | Proc(proc: ProcAddr)
    | Actor(proc: ProcAddr, uid: Uid)
    | Port(proc: ProcAddr, uid: Uid, port: int)

  // ---------------------------------------------------------------------------------------------
  // Equality
  // ---------------------------------------------------------------------------------------------

  predicate UidEq(a: Uid, b: Uid) {
    if a.Singleton? && b.Singleton? then a.name == b.name
    else a.Instance? && b.Instance? && a.id == b.id
  }

  predicate LocationEq(a: Location, b: Location) {
    if a.Terminal? && b.Terminal? then a.channel == b.channel
    else a.Via? && b.Via? && UidEq(a.uid, b.uid) && LocationEq(a.inner, b.inner)
  }

  predicate ProcEq(a: ProcAddr, b: ProcAddr) {
    UidEq(a.uid, b.uid) && LocationEq(a.location, b.location)
  }

  predicate Eq(a: Addr, b: Addr) {
    && ProcEq(a.proc, b.proc)
    && (if a.Proc? || b.Proc? then a.Proc? && b.Proc?
        else UidEq(a.uid, b.uid) && (if a.Port? && b.Port? then a.port == b.port else a.Actor? && b.Actor?))
  }

  // ---------------------------------------------------------------------------------------------
  // Comparison
  // ---------------------------------------------------------------------------------------------

  function UidCmp(a: Uid, b: Uid): Ordering {
    match (a, b)
    case (Singleton(x), Singleton(y)) => IntCmp(x, y)
    case (Singleton(_), Instance(_, _)) => Less
    case (Instance(_, _), Singleton(_)) => Greater
    case (Instance(x, _), Instance(y, _)) => IntCmp(x, y)
  }

  function LocationCmp(a: Location, b: Location): Ordering {
    match (a, b)
    case (Terminal(x), Terminal(y)) => IntCmp(x, y)
    case (Terminal(_), Via(_, _)) => Less
    case (Via(_, _), Terminal(_)) => Greater
    case (Via(u, i), Via(v, j)) => UidCmp(u, v).Then(LocationCmp(i, j))
  }

  function ProcCmp(a: ProcAddr, b: ProcAddr): Ordering {
    UidCmp(a.uid, b.uid).Then(LocationCmp(a.location, b.location))
  }

  function ActorUid(a: Addr): Option<Uid> {
    match a case Proc(_) => None case Actor(_, u) => Some(u) case Port(_, u, _) => Some(u)
  }

  function PortOf(a: Addr): Option<int> {
    if a.Port? then Some(a.port) else None
  }

  function OptionCmp<T>(cmp: (T, T) -> Ordering, a: Option<T>, b: Option<T>): Ordering {
    match (a, b)
    case (None, None) => Equal
    case (None, Some(_)) => Less
    case (Some(_), None) => Greater
    case (Some(x), Some(y)) => cmp(x, y)
  }

  /** `Ord for Addr`: proc, then actor uid, then port; absent before present. */
  function Cmp(a: Addr, b: Addr): Ordering {
    var proc := ProcCmp(a.proc, b.proc);
    if proc != Equal then proc
    else
      var actor := OptionCmp(UidCmp, ActorUid(a), ActorUid(b));
      if actor != Equal then actor else OptionCmp(IntCmp, PortOf(a), PortOf(b))
  }

  predicate Le(a: Addr, b: Addr) {
    Cmp(a, b) != Greater
  }

  /** `Addr::is_prefix_of`. */
  predicate IsPrefixOf(a: Addr, b: Addr) {
    match (a, b)
    case (Proc(p), Actor(q, _)) => ProcEq(p, q)
    case (Proc(p), Port(q, _, _)) => ProcEq(p, q)
    case (Actor(p, u), Port(q, v, _)) => UidEq(u, v) && ProcEq(p, q)
    case (Proc(p), Proc(q)) => ProcEq(p, q)
    case (Actor(p, u), Actor(q, v)) => UidEq(u, v) && ProcEq(p, q)
    case (Port(p, u, x), Port(q, v, y)) => UidEq(u, v) && ProcEq(p, q) && x == y
    case _ => false
  }

  // ---------------------------------------------------------------------------------------------
  // A comparison that agrees with an equality: enough to compose lexicographically
  // ---------------------------------------------------------------------------------------------

  lemma {:induction false} LocationLaws(a: Location, b: Location)
    ensures LocationCmp(b, a) == LocationCmp(a, b).Reverse()
    ensures LocationCmp(a, b) == Equal <==> LocationEq(a, b)
  {
    if a.Via? && b.Via? { LocationLaws(a.inner, b.inner); }
  }

  lemma {:induction false} LocationTransitive(a: Location, b: Location, c: Location)
    requires LocationCmp(a, b) != Greater && LocationCmp(b, c) != Greater
    ensures LocationCmp(a, c) == LocationCmp(a, b).Then(LocationCmp(b, c))
  {
    if a.Via? && b.Via? && c.Via? {
      if UidCmp(a.uid, b.uid) == Equal && UidCmp(b.uid, c.uid) == Equal {
        LocationTransitive(a.inner, b.inner, c.inner);
      }
    }
  }

  lemma ProcLaws(a: ProcAddr, b: ProcAddr)
    ensures ProcCmp(b, a) == ProcCmp(a, b).Reverse()
    ensures ProcCmp(a, b) == Equal <==> ProcEq(a, b)
  {
    LocationLaws(a.location, b.location);
  }

  lemma ProcTransitive(a: ProcAddr, b: ProcAddr, c: ProcAddr)
    requires ProcCmp(a, b) != Greater && ProcCmp(b, c) != Greater
    ensures ProcCmp(a, c) == ProcCmp(a, b).Then(ProcCmp(b, c))
  {
    if LocationCmp(a.location, b.location) != Greater && LocationCmp(b.location, c.location) != Greater {
      LocationTransitive(a.location, b.location, c.location);
    }
  }

  // ---------------------------------------------------------------------------------------------
  // The order on addresses
  // ---------------------------------------------------------------------------------------------

  /** `cmp` is antisymmetric, total, and `Equal` exactly on equal addresses. */
  lemma CmpAgreesWithEq(a: Addr, b: Addr)
    ensures Cmp(b, a) == Cmp(a, b).Reverse()
    ensures Cmp(a, b) == Equal <==> Eq(a, b)
    ensures Le(a, b) || Le(b, a)
  {
    ProcLaws(a.proc, b.proc);
  }

  /** `cmp` is transitive, strictly so as soon as one of the two steps is strict. */
  lemma CmpTransitive(a: Addr, b: Addr, c: Addr)
    requires Le(a, b) && Le(b, c)
    ensures Cmp(a, c) == Cmp(a, b).Then(Cmp(b, c))
  {
    ProcTransitive(a.proc, b.proc, c.proc);
  }

  /** Lexicographic comparison. */
  function SeqCmp(a: seq<int>, b: seq<int>): Ordering {
    if a == [] && b == [] then Equal
    else if a == [] then Less
    else if b == [] then Greater
    else IntCmp(a[0], b[0]).Then(SeqCmp(a[1..], b[1..]))
  }

  /** A singleton's name or an instance's number, after a mark that puts singletons first. */
  function UidKey(u: Uid): seq<int> {
    if u.Singleton? then [0, u.name] else [1, u.id]
  }

  /** The hops from the outermost in, each after a mark that puts fewer hops first; then the channel. */
  function LocationKey(l: Location): seq<int> {
    if l.Terminal? then [0, l.channel] else [1] + (UidKey(l.uid) + LocationKey(l.inner))
  }

  /** The actor's uid, if any, and its port, if any; absent before present. */
  function ActorKey(a: Addr): seq<int> {
    match a
    case Proc(_) => [0]
    case Actor(_, u) => [1] + (UidKey(u) + [0])
    case Port(_, u, port) => [1] + (UidKey(u) + [1, port])
  }

  /** The parts of an address in order of significance: proc uid, location, actor uid, port. */
  function AddrKey(a: Addr): seq<int> {
    UidKey(a.proc.uid) + (LocationKey(a.proc.location) + ActorKey(a))
  }

  lemma SeqCmpHead(x: int, y: int, a: seq<int>, b: seq<int>)
    ensures SeqCmp([x] + a, [y] + b) == IntCmp(x, y).Then(SeqCmp(a, b))
  {
    assert ([x] + a)[1..] == a && ([y] + b)[1..] == b;
  }

  lemma UidKeyCmp(u: Uid, v: Uid, a: seq<int>, b: seq<int>)
    ensures SeqCmp(UidKey(u) + a, UidKey(v) + b) == UidCmp(u, v).Then(SeqCmp(a, b))
  {
    var x, y := UidKey(u), UidKey(v);
    assert x + a == [x[0]] + ([x[1]] + a) && y + b == [y[0]] + ([y[1]] + b);
    SeqCmpHead(x[0], y[0], [x[1]] + a, [y[1]] + b);
    SeqCmpHead(x[1], y[1], a, b);
  }

  lemma {:induction false} LocationKeyCmp(l: Location, k: Location, a: seq<int>, b: seq<int>)
    ensures SeqCmp(LocationKey(l) + a, LocationKey(k) + b) == LocationCmp(l, k).Then(SeqCmp(a, b))
  {
    var x, y := LocationKey(l), LocationKey(k);
    assert x + a == [x[0]] + (x[1..] + a) && y + b == [y[0]] + (y[1..] + b);
    SeqCmpHead(x[0], y[0], x[1..] + a, y[1..] + b);
    if l.Terminal? && k.Terminal? {
      SeqCmpHead(l.channel, k.channel, a, b);
    } else if l.Via? && k.Via? {
      LocationKeyCmp(l.inner, k.inner, a, b);
      ViaKeyCmp(l, k, a, b);
    }
  }

  lemma ViaKeyCmp(l: Location, k: Location, a: seq<int>, b: seq<int>)
    requires l.Via? && k.Via?
    ensures SeqCmp(LocationKey(l)[1..] + a, LocationKey(k)[1..] + b) ==
            UidCmp(l.uid, k.uid).Then(SeqCmp(LocationKey(l.inner) + a, LocationKey(k.inner) + b))
  {
    var i, j := LocationKey(l.inner), LocationKey(k.inner);
    assert LocationKey(l)[1..] + a == UidKey(l.uid) + (i + a) && LocationKey(k)[1..] + b == UidKey(k.uid) + (j + b);
    UidKeyCmp(l.uid, k.uid, i + a, j + b);
  }

  lemma ActorKeyCmp(a: Addr, b: Addr)
    ensures SeqCmp(ActorKey(a), ActorKey(b)) ==
            OptionCmp(UidCmp, ActorUid(a), ActorUid(b)).Then(OptionCmp(IntCmp, PortOf(a), PortOf(b)))
  {
    var x, y := ActorKey(a), ActorKey(b);
    assert x == [x[0]] + x[1..] && y == [y[0]] + y[1..];
    SeqCmpHead(x[0], y[0], x[1..], y[1..]);
    if !a.Proc? && !b.Proc? {
      var u, v := if a.Port? then [1, a.port] else [0], if b.Port? then [1, b.port] else [0];
      UidKeyCmp(a.uid, b.uid, u, v);
      assert u == [u[0]] + u[1..] && v == [v[0]] + v[1..];
      SeqCmpHead(u[0], v[0], u[1..], v[1..]);
    }
  }

  /** `cmp` is the lexicographic order of the parts of an address. */
  lemma CmpIsLexicographic(a: Addr, b: Addr)
    ensures Cmp(a, b) == SeqCmp(AddrKey(a), AddrKey(b))
  {
    var x, y := LocationKey(a.proc.location) + ActorKey(a), LocationKey(b.proc.location) + ActorKey(b);
    UidKeyCmp(a.proc.uid, b.proc.uid, x, y);
    LocationKeyCmp(a.proc.location, b.proc.location, ActorKey(a), ActorKey(b));
    ActorKeyCmp(a, b);
  }

  lemma EqIsEquivalence(a: Addr, b: Addr, c: Addr)
    ensures Eq(a, a) && (Eq(a, b) <==> Eq(b, a)) && (Eq(a, b) && Eq(b, c) ==> Eq(a, c))
  {
    CmpAgreesWithEq(a, a);
    CmpAgreesWithEq(a, b);
    CmpAgreesWithEq(b, a);
    CmpAgreesWithEq(b, c);
    CmpAgreesWithEq(a, c);
    if Eq(a, b) && Eq(b, c) { CmpTransitive(a, b, c); }
  }

  lemma ProcEqIsEquivalence(a: ProcAddr, b: ProcAddr, c: ProcAddr)
    ensures ProcEq(a, a) && (ProcEq(a, b) <==> ProcEq(b, a)) && (ProcEq(a, b) && ProcEq(b, c) ==> ProcEq(a, c))
  {
    ProcLaws(a, a);
    ProcLaws(a, b);
    ProcLaws(b, a);
    ProcLaws(b, c);
    ProcLaws(a, c);
    if ProcEq(a, b) && ProcEq(b, c) { ProcTransitive(a, b, c); }
  }

  /** `is_prefix_of` is a partial order, up to the equality of addresses. */
  lemma PrefixIsPartialOrder(a: Addr, b: Addr, c: Addr)
    ensures IsPrefixOf(a, a)
    ensures IsPrefixOf(a, b) && IsPrefixOf(b, a) <==> Eq(a, b)
    ensures IsPrefixOf(a, b) && IsPrefixOf(b, c) ==> IsPrefixOf(a, c)
  {
    ProcEqIsEquivalence(a.proc, b.proc, c.proc);
  }

  /** The parts of an address that all its extensions share. */
  function SharedKey(a: Addr): seq<int> {
    UidKey(a.proc.uid) + (LocationKey(a.proc.location) + SharedActorKey(a))
  }

  function SharedActorKey(a: Addr): seq<int> {
    match a
    case Proc(_) => []
    case Actor(_, u) => [1] + UidKey(u)
    case Port(_, u, port) => [1] + (UidKey(u) + [1, port])
  }

  lemma HeadPrefix(x: int, y: int, a: seq<int>, b: seq<int>)
    ensures [x] + a <= [y] + b <==> x == y && a <= b
  {
    var xs, ys := [x] + a, [y] + b;
    assert xs[0] == x && ys[0] == y && xs[1..] == a && ys[1..] == b;
    if xs <= ys { assert a == ys[..|xs|][1..] == b[..|a|]; }
    if x == y && a <= b { assert xs == ys[..|xs|]; }
  }

  lemma UidKeyPrefix(u: Uid, v: Uid, a: seq<int>, b: seq<int>)
    ensures UidKey(u) + a <= UidKey(v) + b <==> UidEq(u, v) && a <= b
  {
    var x, y := UidKey(u), UidKey(v);
    assert x + a == [x[0]] + ([x[1]] + a) && y + b == [y[0]] + ([y[1]] + b);
    HeadPrefix(x[0], y[0], [x[1]] + a, [y[1]] + b);
    HeadPrefix(x[1], y[1], a, b);
  }

  lemma {:induction false} LocationKeyPrefix(l: Location, k: Location, a: seq<int>, b: seq<int>)
    ensures LocationKey(l) + a <= LocationKey(k) + b <==> LocationEq(l, k) && a <= b
  {
    var x, y := LocationKey(l), LocationKey(k);
    assert x + a == [x[0]] + (x[1..] + a) && y + b == [y[0]] + (y[1..] + b);
    HeadPrefix(x[0], y[0], x[1..] + a, y[1..] + b);
    if l.Terminal? && k.Terminal? {
      HeadPrefix(l.channel, k.channel, a, b);
    } else if l.Via? && k.Via? {
      var i, j := LocationKey(l.inner), LocationKey(k.inner);
      assert x[1..] + a == UidKey(l.uid) + (i + a) && y[1..] + b == UidKey(k.uid) + (j + b);
      UidKeyPrefix(l.uid, k.uid, i + a, j + b);
      LocationKeyPrefix(l.inner, k.inner, a, b);
    }
  }

  lemma ActorKeyPrefix(a: Addr, b: Addr)
    requires ProcEq(a.proc, b.proc)
    ensures SharedActorKey(a) <= ActorKey(b) <==> IsPrefixOf(a, b)
  {
    if !a.Proc? {
      var x, y := SharedActorKey(a), ActorKey(b);
      assert x == [x[0]] + x[1..] && y == [y[0]] + y[1..];
      HeadPrefix(x[0], y[0], x[1..], y[1..]);
      if !b.Proc? {
        var u, v := if a.Port? then [1, a.port] else [], if b.Port? then [1, b.port] else [0];
        assert x[1..] == UidKey(a.uid) + u && y[1..] == UidKey(b.uid) + v;
        UidKeyPrefix(a.uid, b.uid, u, v);
        if a.Port? && b.Port? {
          assert u == [1] + ([a.port] + []) && v == [1] + ([b.port] + []);
          HeadPrefix(1, 1, [a.port] + [], [b.port] + []);
          HeadPrefix(a.port, b.port, [], []);
        }
      }
    }
  }

  /** `is_prefix_of` is exactly the prefix relation on the parts of the two addresses. */
  lemma PrefixIsKeyPrefix(a: Addr, b: Addr)
    ensures IsPrefixOf(a, b) <==> SharedKey(a) <= AddrKey(b)
  {
    var x, y := LocationKey(a.proc.location) + SharedActorKey(a), LocationKey(b.proc.location) + ActorKey(b);
    UidKeyPrefix(a.proc.uid, b.proc.uid, x, y);
    LocationKeyPrefix(a.proc.location, b.proc.location, SharedActorKey(a), ActorKey(b));
    if ProcEq(a.proc, b.proc) { ActorKeyPrefix(a, b); }
  }

  /** A prefix is the least of its extensions. */
  lemma PrefixIsLeast(p: Addr, x: Addr)
    requires IsPrefixOf(p, x)
    ensures Le(p, x)
  {
    ProcLaws(p.proc, x.proc);
  }

  /** The extensions of an address form an interval: whatever lies between it and an extension is one too. */
  lemma ExtensionsAreAnInterval(p: Addr, y: Addr, x: Addr)
    requires IsPrefixOf(p, x) && Le(p, y) && Le(y, x)
    ensures IsPrefixOf(p, y)
  {
    ProcLaws(p.proc, x.proc);
    ProcTransitive(p.proc, y.proc, x.proc);
    ProcLaws(p.proc, y.proc);
  }

  // ---------------------------------------------------------------------------------------------
  // Via hops
  // ---------------------------------------------------------------------------------------------

  function Hops(l: Location): seq<Uid> {
    if l.Terminal? then [] else [l.uid] + Hops(l.inner)
  }

  /** `Location::addr`. */
  function Channel(l: Location): int {
    if l.Terminal? then l.channel else Channel(l.inner)
  }

  function WithVia(l: Location, uid: Uid): Location {
    Via(uid, l)
  }

  function AppendVia(l: Location, uid: Uid): Location {
    match l
    case Terminal(_) => WithVia(l, uid)
    case Via(outer, inner) => Via(outer, AppendVia(inner, uid))
  }

  function PopVia(l: Location): Option<(Uid, Location)> {
    if l.Via? then Some((l.uid, l.inner)) else None
  }

  /** A location is its hops and its channel; pushing, appending and popping work on the hops as on a list. */
  lemma {:induction false} ViasAreAList(l: Location, uid: Uid)
    ensures Hops(WithVia(l, uid)) == [uid] + Hops(l) && Hops(AppendVia(l, uid)) == Hops(l) + [uid]
    ensures Channel(WithVia(l, uid)) == Channel(AppendVia(l, uid)) == Channel(l)
    ensures PopVia(WithVia(l, uid)) == Some((uid, l))
    ensures l.Via? ==> PopVia(AppendVia(l, uid)) == Some((l.uid, AppendVia(l.inner, uid)))
    ensures PopVia(l) == None <==> Hops(l) == []
  {
    if l.Via? { ViasAreAList(l.inner, uid); }
  }

  lemma {:induction false} HopsDetermineLocation(a: Location, b: Location)
    requires Hops(a) == Hops(b) && Channel(a) == Channel(b)
    ensures a == b
  {
    if a.Via? {
      assert b.Via? && a.uid == Hops(a)[0] == Hops(b)[0] == b.uid;
      assert Hops(a.inner) == Hops(a)[1..] == Hops(b)[1..] == Hops(b.inner);
      HopsDetermineLocation(a.inner, b.inner);
    }
  }
}
