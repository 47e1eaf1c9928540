/** Parsing a printed channel address: exactly which addresses come back. */
module ChannelUrlTheorems {
  import opened Options
  import opened ChannelUrl

  // ---------------------------------------------------------------------------------------------
  // Text
  // ---------------------------------------------------------------------------------------------

  lemma {:induction false} DigitsOfDecimal(n: nat)
    ensures Digits(Decimal(n)) == Some(n)
  {
    var s := Decimal(n);
    if n >= 10 {
      DigitsOfDecimal(n / 10);
      assert s[..|s| - 1] == Decimal(n / 10);
    } else {
      assert s[..|s| - 1] == [];
    }
  }

  lemma ParseOfDecimal(n: nat, bound: nat)
    requires n < bound
    ensures ParseUnsigned(Decimal(n), bound) == Some(n)
  {
    DigitsOfDecimal(n);
    assert '0' <= Decimal(n)[0] <= '9';
  }

  lemma LastColon(host: string, p: string)
    requires ':' !in p
    ensures var s := host + ":" + p; FindLast(s, ':') == Some(|host|) && s[..|host|] == host && s[|host| + 1..] == p
  {
    var s := host + ":" + p;
    assert s[|host|] == ':';
    assert forall j | |host| < j < |s| :: s[j] == p[j - |host| - 1];
  }

  lemma NumericPort(address: string, i: nat, port: nat)
    requires FindLast(address, ':') == Some(i) && ParseUnsigned(address[i + 1..], U16) == Some(port)
    requires !StartsWith(address[i + 1..], "fd")
    ensures ParseHostPort(address) == HasPort(address[..i], port)
  {
  }

  /** A printed port never reads as a descriptor, and the host is whatever precedes the last colon. */
  lemma HostPortRoundTrip(host: string, port: nat)
    requires port < U16
    ensures ParseHostPort(HostPort(host, port)) == HasPort(host, port)
  {
    var p := Decimal(port);
    assert forall i | 0 <= i < |p| :: '0' <= p[i] <= '9';
    assert ':' !in p;
    LastColon(host, p);
    NoDescriptor(p);
    ParseOfDecimal(port, U16);
    NumericPort(HostPort(host, port), |host|, port);
  }

  lemma NoDescriptor(p: string)
    requires p != [] && p[0] <= '9'
    ensures !StartsWith(p, "fd")
  {
    var fd := "fd";
    assert fd[0] == 'f';
  }

  /** The scheme is what precedes the first "://". */
  lemma SchemeRoundTrip(scheme: string, rest: string)
    requires ':' !in scheme
    ensures var url := scheme + "://" + rest;
            Find(url, "://") == Some(|scheme|) && url[..|scheme|] == scheme && url[|scheme| + 3..] == rest
  {
    var url := scheme + "://" + rest;
    assert At(url, |scheme|, "://");
    forall j: nat | j < |scheme| ensures !At(url, j, "://") {
      assert url[j] == scheme[j];
    }
  }

  lemma NoneAt(s: string, c: char)
    requires c !in s
    ensures Find(s, [c]) == None
  {
    assert forall j: nat :: At(s, j, [c]) ==> s[j..j + 1][0] == c;
  }

  /** The first `@` of `d + "@" + b` when `d` has none. */
  lemma FirstAt(d: string, b: string)
    requires '@' !in d
    ensures var url := d + "@" + b;
            Find(url, "@") == Some(|d|) && url[..|d|] == d && url[|d| + 1..] == b
  {
    var url := d + "@" + b;
    assert At(url, |d|, "@");
    forall j: nat | j < |d| ensures !At(url, j, "@") {
      assert url[j] == d[j];
    }
  }

  lemma PlainWhenNotTcp(c: Codecs, url: string)
    requires !StartsWith(url, "tcp://")
    ensures FromZmqUrl(c, url) == ParsePlain(c, url) && !(ParsePlain(c, url).Parsed? && ParsePlain(c, url).addr.Alias?)
  {
    var at := Find(url, "@");
    assert at.Some? && at.value >= 6 ==> url[..6] == url[..at.value][..6];
  }

  lemma PlainWhenNoAt(c: Codecs, url: string)
    requires '@' !in url
    ensures FromZmqUrl(c, url) == ParsePlain(c, url) && !(ParsePlain(c, url).Parsed? && ParsePlain(c, url).addr.Alias?)
  {
    NoneAt(url, '@');
  }

  // ---------------------------------------------------------------------------------------------
  // Tcp
  // ---------------------------------------------------------------------------------------------

  predicate TcpUrlChar(ch: char) {
    IpChar(ch) || ch == '[' || ch == ']' || ch == '%'
  }

  lemma HostTextChars(c: Codecs, s: SocketAddr)
    requires IpCodecOk(c)
    ensures forall ch | ch in HostText(c, s) :: TcpUrlChar(ch)
    ensures HostText(c, s) != "*"
  {
    var t := c.printIp(s.ip);
    assert IpText(t);
    assert forall ch | ch in t :: IpChar(ch);
    var d := Decimal(s.scope);
    assert forall ch | ch in d :: IpChar(ch);
    var star := "*";
    assert star[0] == '*' && !TcpUrlChar('*');
  }

  /** A printed host reads back as its IP address, unless a scope was printed with it. */
  lemma HostTextParses(c: Codecs, s: SocketAddr)
    requires IpCodecOk(c) && (s.ip.V4? ==> s.scope == 0)
    ensures c.parseIp(StripBrackets(HostText(c, s))) == if s.scope == 0 then Some(s.ip) else None
  {
    var t, h := c.printIp(s.ip), HostText(c, s);
    assert c.parseIp(t) == Some(s.ip) && IpText(t);
    if s.ip.V4? {
      assert |h| > 0 ==> IpChar(h[0]);
    } else if s.scope == 0 {
      assert h[1..|h| - 1] == t;
    } else {
      var inside := t + "%" + Decimal(s.scope);
      assert h[1..|h| - 1] == inside;
      assert inside[|t|] == '%' && !IpText(inside);
    }
  }

  lemma TcpUrl(c: Codecs, s: SocketAddr)
    requires IpCodecOk(c) && InRange(Tcp(s))
    ensures var url := ToZmqUrl(c, Tcp(s));
            && '@' !in url && StartsWith(url, "tcp://")
            && FromZmqUrl(c, url) == Resolve(c, HostText(c, s), s.port)
  {
    var h, p, url := HostText(c, s), Decimal(s.port), ToZmqUrl(c, Tcp(s));
    HostTextChars(c, s);
    assert forall ch | ch in p :: '0' <= ch <= '9';
    assert forall ch | ch in HostPort(h, s.port) :: ch in h || ch == ':' || ch in p;
    assert url == "tcp" + "://" + HostPort(h, s.port);
    PlainWhenNoAt(c, url);
    SchemeRoundTrip("tcp", HostPort(h, s.port));
    HostPortRoundTrip(h, s.port);
  }

  // ---------------------------------------------------------------------------------------------
  // Tls, MetaTls, Quic, MetaQuic
  // ---------------------------------------------------------------------------------------------

  lemma NormalizeIsIdempotent(c: Codecs, host: string)
    requires IpCodecOk(c)
    ensures NormalizeHost(c, NormalizeHost(c, host)) == NormalizeHost(c, host)
  {
    var ip := c.parseIp(StripBrackets(host));
    if ip.Some? { NormalizeOfPrinted(c, ip.value); }
  }

  /** A host that is an IP literal, bare or in brackets, becomes its canonical text; any other stays as it is. */
  lemma NormalizeMeans(c: Codecs, host: string)
    requires IpCodecOk(c)
    ensures c.parseIp(host).Some? ==> NormalizeHost(c, host) == c.printIp(c.parseIp(host).value)
    ensures c.parseIp(host).Some? ==> NormalizeHost(c, "[" + host + "]") == c.printIp(c.parseIp(host).value)
    ensures NormalizeHost(c, host) != host ==> exists t :: (host == t || host == "[" + t + "]") && c.parseIp(t).Some?
  {
    if c.parseIp(host).Some? {
      assert IpText(host);
      assert |host| > 0 ==> IpChar(host[0]);
      assert StripBrackets(host) == host;
      var bracketed := "[" + host + "]";
      assert bracketed[1..|bracketed| - 1] == host;
      assert StripBrackets(bracketed) == host;
    }
    var t := StripBrackets(host);
    assert host == t || host == "[" + t + "]";
  }

  lemma NormalizeOfPrinted(c: Codecs, ip: Ip)
    requires IpCodecOk(c)
    ensures NormalizeHost(c, c.printIp(ip)) == c.printIp(ip) && c.printIp(ip) != "*"
  {
    var t := c.printIp(ip);
    assert IpText(t);
    assert |t| > 0 ==> IpChar(t[0]);
    assert StripBrackets(t) == t;
  }

  lemma SecureUrl(c: Codecs, kind: TlsKind, t: TlsAddr)
    requires IpCodecOk(c) && t.port < U16
    ensures var host := if t.hostname == "*" then c.printIp(Unspecified) else t.hostname;
            FromZmqUrl(c, ToZmqUrl(c, Secure(kind, t))) == Parsed(Secure(kind, NewTlsAddr(c, host, t.port)))
    ensures !StartsWith(ToZmqUrl(c, Secure(kind, t)), "tcp://")
  {
    var scheme, address := Scheme(kind), HostPort(t.hostname, t.port);
    var url := ToZmqUrl(c, Secure(kind, t));
    NotTcp(scheme, "://" + address);
    assert url == scheme + "://" + address == scheme + ("://" + address);
    PlainWhenNotTcp(c, url);
    SchemeRoundTrip(scheme, address);
    SecureScheme(c, kind, address);
    HostPortRoundTrip(t.hostname, t.port);
  }

  lemma SecureScheme(c: Codecs, kind: TlsKind, address: string)
    ensures ParseAs(c, Scheme(kind), address) == ParseSecure(c, kind, address)
  {
    SchemesDiffer();
  }

  lemma SchemesDiffer()
    ensures "tls" != "tcp" && "tls" != "inproc" && "tls" != "ipc"
    ensures forall kind :: Scheme(kind) != "tcp" && Scheme(kind) != "inproc" && Scheme(kind) != "ipc"
    ensures forall kind, other :: Scheme(kind) == Scheme(other) ==> kind == other
  {
    var tls, tcp, ipc := "tls", "tcp", "ipc";
    assert tls[1] == 'l' && tcp[1] == 'c' && tls[0] == 't' && ipc[0] == 'i';
    assert |"metatls"| == 7 && |"quic"| == 4 && |"metaquic"| == 8 && |"inproc"| == 6;
  }

  lemma NotTcp(scheme: string, rest: string)
    requires |scheme| >= 2 && (scheme[0] != 't' || scheme[1] != 'c')
    ensures !StartsWith(scheme + rest, "tcp://")
  {
    var url := scheme + rest;
    assert url[0] == scheme[0] && url[1] == scheme[1];
    var p := "tcp://";
    assert p[0] == 't' && p[1] == 'c';
  }

  // ---------------------------------------------------------------------------------------------
  // The round trip
  // ---------------------------------------------------------------------------------------------

  /** The addresses the parser recovers. */
  predicate Recoverable(c: Codecs, a: ChannelAddr) {
    match a
    case Tcp(s) => s.scope == 0 && s.flow == 0
    case Secure(_, t) => t.hostname != "*" && NormalizeHost(c, t.hostname) == t.hostname
    case Local(_) => true
    case Unix(name) => c.parseUnix(c.printUnix(name)) == Some(name)
    case Alias(d, b) => d.Tcp? && Recoverable(c, d) && (b.Tcp? || b.Alias?) && Recoverable(c, b)
  }

  lemma PlainUrl(c: Codecs, a: ChannelAddr)
    requires IpCodecOk(c) && InRange(a) && (a.Local? || a.Unix?)
    ensures FromZmqUrl(c, ToZmqUrl(c, a)) == Parsed(a) <==> Recoverable(c, a)
    ensures !StartsWith(ToZmqUrl(c, a), "tcp://")
  {
    var scheme := if a.Local? then "inproc" else "ipc";
    var address := if a.Local? then Decimal(a.index) else c.printUnix(a.name);
    var url := ToZmqUrl(c, a);
    assert url == scheme + "://" + address == scheme + ("://" + address);
    NotTcp(scheme, "://" + address);
    PlainWhenNotTcp(c, url);
    SchemeRoundTrip(scheme, address);
    if a.Local? { ParseOfDecimal(a.index, U64); }
  }

  /** Parsing the printed form returns the same address exactly for the recoverable addresses. */
  lemma {:induction false} RoundTripIff(c: Codecs, a: ChannelAddr)
    requires IpCodecOk(c) && InRange(a)
    ensures FromZmqUrl(c, ToZmqUrl(c, a)) == Parsed(a) <==> Recoverable(c, a)
  {
    match a
    case Tcp(s) =>
      TcpUrl(c, s);
      HostTextParses(c, s);
    case Secure(kind, t) =>
      SecureUrl(c, kind, t);
      NormalizeOfPrinted(c, Unspecified);
    case Local(_) => PlainUrl(c, a);
    case Unix(_) => PlainUrl(c, a);
    case Alias(d, b) =>
      RoundTripIff(c, b);
      if d.Tcp? {
        RoundTripIff(c, d);
        AliasOfTcp(c, d, b);
      } else {
        AliasOfOther(c, d, b);
      }
  }

  /** Which addresses print "tcp://" first. */
  lemma StartsWithTcp(c: Codecs, a: ChannelAddr)
    requires IpCodecOk(c) && InRange(a)
    ensures Recoverable(c, a) && (a.Tcp? || a.Alias?) ==> StartsWith(ToZmqUrl(c, a), "tcp://")
    ensures StartsWith(ToZmqUrl(c, a), "tcp://") ==> a.Tcp? || a.Alias?
  {
    match a
    case Tcp(s) => TcpUrl(c, s);
    case Secure(kind, t) => SecureUrl(c, kind, t);
    case Local(_) => PlainUrl(c, a);
    case Unix(_) => PlainUrl(c, a);
    case Alias(d, b) => if d.Tcp? { TcpUrl(c, d.socket); PrefixOfPrefix(ToZmqUrl(c, d), "@" + ToZmqUrl(c, b)); }
  }

  lemma PrefixOfPrefix(s: string, rest: string)
    requires StartsWith(s, "tcp://")
    ensures StartsWith(s + rest, "tcp://")
  {
    assert (s + rest)[..6] == s[..6];
  }

  lemma AliasOfTcp(c: Codecs, d: ChannelAddr, b: ChannelAddr)
    requires IpCodecOk(c) && InRange(d) && InRange(b) && d.Tcp?
    requires FromZmqUrl(c, ToZmqUrl(c, d)) == Parsed(d) <==> Recoverable(c, d)
    requires FromZmqUrl(c, ToZmqUrl(c, b)) == Parsed(b) <==> Recoverable(c, b)
    ensures FromZmqUrl(c, ToZmqUrl(c, Alias(d, b))) == Parsed(Alias(d, b)) <==> Recoverable(c, Alias(d, b))
  {
    var ud, ub := ToZmqUrl(c, d), ToZmqUrl(c, b);
    TcpUrl(c, d.socket);
    FirstAt(ud, ub);
    StartsWithTcp(c, b);
  }

  /** An alias whose dial address is not Tcp never comes back: its first `@` does not separate the two halves. */
  lemma AliasOfOther(c: Codecs, d: ChannelAddr, b: ChannelAddr)
    requires IpCodecOk(c) && InRange(d) && InRange(b) && !d.Tcp?
    ensures FromZmqUrl(c, ToZmqUrl(c, Alias(d, b))) != Parsed(Alias(d, b))
  {
    var url := ToZmqUrl(c, Alias(d, b));
    if !d.Alias? { OtherPrefix(c, d, "@" + ToZmqUrl(c, b)); assert url == ToZmqUrl(c, d) + ("@" + ToZmqUrl(c, b)); }
    if StartsWith(url, "tcp://") { DialIsPlain(c, url); } else { PlainWhenNotTcp(c, url); }
  }

  /** What the two halves of an alias url lead to. */
  lemma FromHalves(c: Codecs, url: string, at: nat)
    requires Find(url, "@") == Some(at) && StartsWith(url[..at], "tcp://")
    ensures FromZmqUrl(c, url) == if !StartsWith(url[at + 1..], "tcp://") then Failed
                                  else BothHalves(FromZmqUrl(c, url[..at]), FromZmqUrl(c, url[at + 1..]))
  {
  }

  /** The dial address of a parsed alias is never an alias itself. */
  lemma DialIsPlain(c: Codecs, url: string)
    ensures var p := FromZmqUrl(c, url); p.Parsed? && p.addr.Alias? ==> !p.addr.dialTo.Alias?
  {
    var at := Find(url, "@");
    if at.None? {
      PlainWhenUnsplit(c, url);
    } else if !StartsWith(url[..at.value], "tcp://") {
      PlainWhenUnsplit(c, url);
    } else {
      FromHalves(c, url, at.value);
      BeforeFirstAt(url, at.value);
      PlainWhenNoAt(c, url[..at.value]);
    }
  }

  lemma PlainWhenUnsplit(c: Codecs, url: string)
    requires Find(url, "@").None? || !StartsWith(url[..Find(url, "@").value], "tcp://")
    ensures FromZmqUrl(c, url) == ParsePlain(c, url) && !(ParsePlain(c, url).Parsed? && ParsePlain(c, url).addr.Alias?)
  {
  }

  lemma BeforeFirstAt(url: string, at: nat)
    requires Find(url, "@") == Some(at)
    ensures '@' !in url[..at]
  {
    forall j: nat | j < at ensures url[j] != '@' {
      if url[j] == '@' { assert At(url, j, "@"); }
    }
  }

  /** An address that is neither Tcp nor an alias does not print "tcp://" first. */
  lemma OtherPrefix(c: Codecs, a: ChannelAddr, rest: string)
    requires !a.Tcp? && !a.Alias?
    ensures !StartsWith(ToZmqUrl(c, a) + rest, "tcp://")
  {
    match a
    case Secure(kind, t) => NotTcp(Scheme(kind), "://" + HostPort(t.hostname, t.port) + rest);
      assert ToZmqUrl(c, a) + rest == Scheme(kind) + ("://" + HostPort(t.hostname, t.port) + rest);
    case Local(index) => NotTcp("inproc://", Decimal(index) + rest);
      assert ToZmqUrl(c, a) + rest == "inproc://" + (Decimal(index) + rest);
    case Unix(name) => NotTcp("ipc://", c.printUnix(name) + rest);
      assert ToZmqUrl(c, a) + rest == "ipc://" + (c.printUnix(name) + rest);
  }

  // ---------------------------------------------------------------------------------------------
  // The texts themselves
  // ---------------------------------------------------------------------------------------------

  function PowerOfTen(n: nat): nat {
    if n == 0 then 1 else 10 * PowerOfTen(n - 1)
  }

  predicate IsDigits(s: string) {
    forall i | 0 <= i < |s| :: '0' <= s[i] <= '9'
  }

  /** The number a numeral denotes, most significant digit first. */
  function PlaceValue(s: string): nat
    requires IsDigits(s)
  {
    if s == [] then 0 else (s[0] - '0') as nat * PowerOfTen(|s| - 1) + PlaceValue(s[1..])
  }

  lemma {:induction false} PlaceValueLast(s: string, c: char)
    requires IsDigits(s) && '0' <= c <= '9'
    ensures IsDigits(s + [c]) && PlaceValue(s + [c]) == 10 * PlaceValue(s) + (c - '0') as nat
  {
    if s == [] {
      assert ([] + [c])[1..] == [] && PowerOfTen(0) == 1;
    } else {
      PlaceValueLast(s[1..], c);
      assert (s + [c])[1..] == s[1..] + [c] && (s + [c])[0] == s[0];
      Tenfold((s[0] - '0') as nat, PowerOfTen(|s| - 1));
    }
  }

  lemma Tenfold(d: nat, p: nat)
    ensures d * (10 * p) == 10 * (d * p)
  {
  }

  /** `str::parse` reads exactly the non-empty decimal numerals, after an optional plus sign, below the bound. */
  lemma {:induction false} DigitsArePlaceValue(s: string)
    ensures Digits(s) == if IsDigits(s) then Some(PlaceValue(s)) else None
  {
    if s != [] {
      var init, c := s[..|s| - 1], s[|s| - 1];
      assert s == init + [c];
      DigitsArePlaceValue(init);
      if IsDigits(s) { assert IsDigits(init); PlaceValueLast(init, c); }
      else if IsDigits(init) { assert c < '0' || c > '9'; }
    }
  }

  /** `str::parse` for an unsigned type: a non-empty numeral, after an optional plus sign, below the bound. */
  lemma ParseUnsignedIff(s: string, bound: nat, n: nat)
    ensures ParseUnsigned(s, bound) == Some(n) <==>
            exists digits :: (s == digits || s == "+" + digits) && digits != [] && IsDigits(digits)
                             && PlaceValue(digits) == n && n < bound
  {
    var signed := |s| > 1 && s[0] == '+';
    var digits := if signed then s[1..] else s;
    DigitsArePlaceValue(digits);
    assert signed ==> s == "+" + digits;
    forall d | (s == d || s == "+" + d) && d != [] && IsDigits(d) ensures d == digits {
      assert '0' <= d[0] <= '9';
      assert s == "+" + d ==> s[1..] == d;
    }
  }

  /** `str::parse` for `i32`, by the sign and the numeral after it. */
  lemma ParseI32Iff(s: string, n: int)
    ensures |s| > 1 && s[0] == '-' ==>
              (ParseI32(s) == Some(n) <==> IsDigits(s[1..]) && n + PlaceValue(s[1..]) == 0 && n >= -0x8000_0000)
    ensures !(|s| > 1 && s[0] == '-') ==>
              (ParseI32(s) == Some(n) <==> n >= 0 && ParseUnsigned(s, 0x8000_0000) == Some(n))
  {
    if |s| > 1 { DigitsArePlaceValue(s[1..]); }
  }

  /** The printer writes each kind of address in this form; numerals denote their numbers. */
  lemma PrintedText(c: Codecs, a: ChannelAddr)
    ensures a.Tcp? && a.socket.ip.V4? ==>
              ToZmqUrl(c, a) == "tcp://" + (c.printIp(a.socket.ip) + ":" + Decimal(a.socket.port))
    ensures a.Tcp? && a.socket.ip.V6? && a.socket.scope == 0 ==>
              ToZmqUrl(c, a) == "tcp://" + ("[" + c.printIp(a.socket.ip) + "]" + ":" + Decimal(a.socket.port))
    ensures a.Tcp? && a.socket.ip.V6? && a.socket.scope != 0 ==>
              ToZmqUrl(c, a) == "tcp://" + ("[" + c.printIp(a.socket.ip) + "%" + Decimal(a.socket.scope) + "]" + ":"
                + Decimal(a.socket.port))
    ensures a.Secure? && a.kind.Tls? ==> ToZmqUrl(c, a) == "tls://" + (a.tls.hostname + ":" + Decimal(a.tls.port))
    ensures a.Secure? && a.kind.MetaTls? ==>
              ToZmqUrl(c, a) == "metatls://" + (a.tls.hostname + ":" + Decimal(a.tls.port))
    ensures a.Secure? && a.kind.Quic? ==> ToZmqUrl(c, a) == "quic://" + (a.tls.hostname + ":" + Decimal(a.tls.port))
    ensures a.Secure? && a.kind.MetaQuic? ==>
              ToZmqUrl(c, a) == "metaquic://" + (a.tls.hostname + ":" + Decimal(a.tls.port))
    ensures a.Local? ==> ToZmqUrl(c, a) == "inproc://" + Decimal(a.index)
    ensures a.Unix? ==> ToZmqUrl(c, a) == "ipc://" + c.printUnix(a.name)
    ensures a.Alias? ==> ToZmqUrl(c, a) == ToZmqUrl(c, a.dialTo) + "@" + ToZmqUrl(c, a.bindTo)
    ensures forall n: nat :: IsDigits(Decimal(n)) && PlaceValue(Decimal(n)) == n
  {
    forall n: nat ensures IsDigits(Decimal(n)) && PlaceValue(Decimal(n)) == n {
      DigitsOfDecimal(n);
      DigitsArePlaceValue(Decimal(n));
    }
    if a.Secure? {
      var rest := a.tls.hostname + ":" + Decimal(a.tls.port);
      match a.kind
      case Tls => assert "tls" + "://" == "tls://";
      case MetaTls => assert "metatls" + "://" == "metatls://";
      case Quic => assert "quic" + "://" == "quic://";
      case MetaQuic => assert "metaquic" + "://" == "metaquic://";
    }
  }

  /** The text is a host, a colon and a port. */
  predicate HostPortText(text: string, host: string, digits: string, port: nat) {
    text == host + ":" + digits && ':' !in digits && ParseUnsigned(digits, U16) == Some(port)
  }

  /** The host stands for the IP address: a wildcard, or a literal with or without brackets. */
  predicate HostMeans(c: Codecs, host: string, ip: Ip) {
    if host == "*" then ip == V6(0) else c.parseIp(StripBrackets(host)) == Some(ip)
  }

  /** The text after the scheme spells the address. */
  ghost predicate Spells(c: Codecs, scheme: string, text: string, a: ChannelAddr) {
    match a
    case Tcp(s) => scheme == "tcp" && s.flow == 0 && s.scope == 0 &&
      exists host, digits :: HostPortText(text, host, digits, s.port) && HostMeans(c, host, s.ip)
    case Secure(kind, t) => scheme == (match kind
        case Tls => "tls" case MetaTls => "metatls" case Quic => "quic" case MetaQuic => "metaquic") &&
      exists host, digits :: HostPortText(text, host, digits, t.port)
        && t.hostname == NormalizeHost(c, if host == "*" then c.printIp(V6(0)) else host)
    case Local(index) => scheme == "inproc" && ParseUnsigned(text, U64) == Some(index)
    case Unix(name) => scheme == "ipc" && c.parseUnix(text) == Some(name)
    case Alias(_, _) => false
  }

  lemma UnsignedIsNoDescriptor(digits: string)
    requires ParseUnsigned(digits, U16).Some?
    ensures !StartsWith(digits, "fd")
  {
    DigitsArePlaceValue(digits);
    if |digits| > 1 && digits[0] == '+' { assert "fd"[0] == 'f'; } else { NoDescriptor(digits); }
  }

  /** A host and a port are read where the text is split at its last colon. */
  lemma HasPortIff(text: string, host: string, port: nat)
    ensures ParseHostPort(text) == HasPort(host, port) <==> exists digits :: HostPortText(text, host, digits, port)
  {
    if ParseHostPort(text) == HasPort(host, port) {
      var i := FindLast(text, ':').value;
      assert text == host + ":" + text[i + 1..];
      assert HostPortText(text, host, text[i + 1..], port);
    }
    if digits :| HostPortText(text, host, digits, port) {
      LastColon(host, digits);
      UnsignedIsNoDescriptor(digits);
      NumericPort(text, |host|, port);
    }
  }

  /** The text is a host, a colon and a descriptor. */
  predicate DescriptorText(text: string, number: string, fd: int) {
    && ':' !in number && ParseI32(number) == Some(fd)
    && |text| >= 3 + |number| && text[|text| - |number| - 3..] == ":fd" + number
  }

  /** A descriptor is read exactly where `fd` and a number follow the last colon. */
  lemma HasFdIff(text: string, fd: int)
    ensures ParseHostPort(text) == HasFd(fd) <==> exists number :: DescriptorText(text, number, fd)
  {
    if ParseHostPort(text) == HasFd(fd) { HasFdSplits(text, fd); }
    if number :| DescriptorText(text, number, fd) { DescriptorParses(text, number, fd); }
  }

  lemma HasFdSplits(text: string, fd: int)
    requires ParseHostPort(text) == HasFd(fd)
    ensures exists number :: DescriptorText(text, number, fd)
  {
    var i := FindLast(text, ':').value;
    var port := text[i + 1..];
    var number := port[2..];
    assert text[|text| - |number| - 3..] == [text[i]] + (port[..2] + number);
    assert DescriptorText(text, number, fd);
  }

  lemma DescriptorParses(text: string, number: string, fd: int)
    requires DescriptorText(text, number, fd)
    ensures ParseHostPort(text) == HasFd(fd)
  {
    var i := |text| - |number| - 3;
    var tail := text[i..];
    assert tail == ":fd" + number;
    assert text == text[..i] + ":" + ("fd" + number);
    LastColon(text[..i], "fd" + number);
    assert ("fd" + number)[..2] == "fd" && ("fd" + number)[2..] == number;
  }

  /** The host is neither a wildcard nor a literal, and `name` is it without brackets. */
  predicate LookedUp(c: Codecs, host: string, name: string) {
    host != "*" && c.parseIp(StripBrackets(host)).None? && name == StripBrackets(host)
  }

  /** When a Tcp text leads to a lookup, and of what. */
  lemma LookupIff(c: Codecs, text: string, name: string, port: nat)
    ensures ParseTcp(c, text) == NeedsDns(name, port) <==>
            exists host, digits :: HostPortText(text, host, digits, port) && LookedUp(c, host, name)
  {
    var h := ParseHostPort(text);
    if h.HasPort? { HasPortIff(text, h.host, h.port); }
    if host, digits :| HostPortText(text, host, digits, port) && LookedUp(c, host, name) {
      HasPortIff(text, host, port);
    }
  }

  lemma TcpSpells(c: Codecs, text: string, s: SocketAddr)
    ensures ParseTcp(c, text) == Parsed(Tcp(s)) <==> Spells(c, "tcp", text, Tcp(s))
  {
    var h := ParseHostPort(text);
    if h.HasPort? { HasPortIff(text, h.host, h.port); }
    if Spells(c, "tcp", text, Tcp(s)) {
      var host, digits :| HostPortText(text, host, digits, s.port) && HostMeans(c, host, s.ip);
      HasPortIff(text, host, s.port);
    }
  }

  lemma SecureSpells(c: Codecs, kind: TlsKind, text: string, t: TlsAddr)
    ensures ParseSecure(c, kind, text) == Parsed(Secure(kind, t)) <==> Spells(c, Scheme(kind), text, Secure(kind, t))
  {
    var h := ParseHostPort(text);
    if h.HasPort? { HasPortIff(text, h.host, h.port); }
    if Spells(c, Scheme(kind), text, Secure(kind, t)) {
      var host, digits :| HostPortText(text, host, digits, t.port)
        && t.hostname == NormalizeHost(c, if host == "*" then c.printIp(V6(0)) else host);
      HasPortIff(text, host, t.port);
    }
  }

  /** A url of two halves: it has an `@` and starts as a Tcp address. */
  predicate AliasForm(url: string) {
    StartsWith(url, "tcp://") && '@' in url
  }

  /** The halves of an alias are two Tcp urls around its first `@`. */
  predicate Halves(url: string, dial: string, bind: string) {
    && url == dial + "@" + bind && '@' !in dial
    && StartsWith(dial, "tcp://") && StartsWith(bind, "tcp://")
  }

  predicate Splits(url: string, scheme: string, text: string) {
    url == scheme + "://" + text
  }

  /** What a url means, without the parser. */
  ghost predicate Denotes(c: Codecs, url: string, a: ChannelAddr)
    decreases a
  {
    if a.Alias? then
      exists dial, bind :: Halves(url, dial, bind) && Denotes(c, dial, a.dialTo) && Denotes(c, bind, a.bindTo)
    else !AliasForm(url) && exists scheme, text :: Splits(url, scheme, text) && Spells(c, scheme, text, a)
  }

  lemma ParseAsMeans(c: Codecs, scheme: string, text: string)
    ensures forall kind :: scheme == Scheme(kind) ==> ParseAs(c, scheme, text) == ParseSecure(c, kind, text)
    ensures var p := ParseAs(c, scheme, text);
            p.Parsed? && p.addr.Secure? ==> exists kind :: scheme == Scheme(kind)
  {
    forall kind | scheme == Scheme(kind) ensures ParseAs(c, scheme, text) == ParseSecure(c, kind, text) {
      SecureScheme(c, kind, text);
    }
    assert Scheme(MetaTls) == "metatls" && Scheme(MetaQuic) == "metaquic";
    assert Scheme(Quic) == "quic" && Scheme(Tls) == "tls";
  }

  /** What follows a scheme is read as it spells. */
  lemma ParseAsIff(c: Codecs, scheme: string, text: string, a: ChannelAddr)
    ensures ParseAs(c, scheme, text) == Parsed(a) <==> Spells(c, scheme, text, a)
  {
    match a
    case Tcp(s) => TcpSpells(c, text, s);
    case Secure(kind, t) =>
      ParseAsMeans(c, scheme, text);
      PlainSecure(c, scheme, text, kind, t, ParseAs(c, scheme, text));
    case _ =>
  }

  lemma PlainSecure(c: Codecs, scheme: string, text: string, kind: TlsKind, t: TlsAddr, p: Parse)
    requires if scheme == Scheme(kind) then p == ParseSecure(c, kind, text) else p != Parsed(Secure(kind, t))
    ensures p == Parsed(Secure(kind, t)) <==> Spells(c, scheme, text, Secure(kind, t))
  {
    SecureSpells(c, kind, text, t);
  }

  lemma KnownScheme(c: Codecs, scheme: string, text: string, a: ChannelAddr)
    requires Spells(c, scheme, text, a)
    ensures ':' !in scheme
  {
  }

  lemma PlainIff(c: Codecs, url: string, a: ChannelAddr)
    ensures ParsePlain(c, url) == Parsed(a) <==>
            exists scheme, text :: Splits(url, scheme, text) && Spells(c, scheme, text, a)
  {
    if ParsePlain(c, url) == Parsed(a) { PlainSplits(c, url, a); }
    if scheme, text :| Splits(url, scheme, text) && Spells(c, scheme, text, a) {
      SplitsPlain(c, url, scheme, text, a);
    }
  }

  lemma PlainSplits(c: Codecs, url: string, a: ChannelAddr)
    requires ParsePlain(c, url) == Parsed(a)
    ensures exists scheme, text :: Splits(url, scheme, text) && Spells(c, scheme, text, a)
  {
    var i := Find(url, "://").value;
    SplitAtScheme(url, i);
    ParseAsIff(c, url[..i], url[i + 3..], a);
  }

  lemma SplitAtScheme(url: string, i: nat)
    requires At(url, i, "://")
    ensures Splits(url, url[..i], url[i + 3..])
  {
    assert url == url[..i] + url[i..i + 3] + url[i + 3..];
  }

  lemma SplitsPlain(c: Codecs, url: string, scheme: string, text: string, a: ChannelAddr)
    requires Splits(url, scheme, text) && Spells(c, scheme, text, a)
    ensures ParsePlain(c, url) == Parsed(a)
  {
    KnownScheme(c, scheme, text, a);
    SchemeRoundTrip(scheme, text);
    ParseAsIff(c, scheme, text, a);
  }

  /** The parser returns an address exactly for the urls that denote it. */
  lemma {:induction false} ParsedIffDenotes(c: Codecs, url: string, a: ChannelAddr)
    ensures FromZmqUrl(c, url) == Parsed(a) <==> Denotes(c, url, a)
    decreases a
  {
    if a.Alias? {
      AliasIff(c, url, a.dialTo, a.bindTo);
      forall dial, bind | Halves(url, dial, bind)
        ensures FromZmqUrl(c, dial) == Parsed(a.dialTo) <==> Denotes(c, dial, a.dialTo)
        ensures FromZmqUrl(c, bind) == Parsed(a.bindTo) <==> Denotes(c, bind, a.bindTo)
      {
        ParsedIffDenotes(c, dial, a.dialTo);
        ParsedIffDenotes(c, bind, a.bindTo);
      }
    } else {
      PlainIff(c, url, a);
      AliasFormIff(c, url);
    }
  }

  lemma AliasFormIff(c: Codecs, url: string)
    ensures if AliasForm(url) then FromZmqUrl(c, url).Parsed? ==> FromZmqUrl(c, url).addr.Alias?
            else FromZmqUrl(c, url) == ParsePlain(c, url)
  {
    if !AliasForm(url) {
      if '@' in url { PlainWhenNotTcp(c, url); } else { PlainWhenNoAt(c, url); }
    } else {
      var i :| 0 <= i < |url| && url[i] == '@';
      assert At(url, i, "@");
      TcpBeforeAt(url, Find(url, "@").value);
    }
  }

  lemma TcpBeforeAt(url: string, at: nat)
    requires StartsWith(url, "tcp://") && At(url, at, "@")
    ensures StartsWith(url[..at], "tcp://")
  {
    assert url[at] == url[at..at + 1][0] == '@';
    assert '@' !in url[..6];
    assert url[..at][..6] == url[..6];
  }

  lemma AliasIff(c: Codecs, url: string, d: ChannelAddr, b: ChannelAddr)
    ensures FromZmqUrl(c, url) == Parsed(Alias(d, b)) <==> exists dial, bind ::
              Halves(url, dial, bind) && FromZmqUrl(c, dial) == Parsed(d) && FromZmqUrl(c, bind) == Parsed(b)
  {
    if FromZmqUrl(c, url) == Parsed(Alias(d, b)) { AliasHasHalves(c, url, d, b); }
    if dial, bind :| Halves(url, dial, bind) && FromZmqUrl(c, dial) == Parsed(d) && FromZmqUrl(c, bind) == Parsed(b) {
      HalvesMakeAlias(c, url, dial, bind, d, b);
    }
  }

  lemma AliasHasHalves(c: Codecs, url: string, d: ChannelAddr, b: ChannelAddr)
    requires FromZmqUrl(c, url) == Parsed(Alias(d, b))
    ensures exists dial, bind ::
              Halves(url, dial, bind) && FromZmqUrl(c, dial) == Parsed(d) && FromZmqUrl(c, bind) == Parsed(b)
  {
    if Find(url, "@").None? || !StartsWith(url[..Find(url, "@").value], "tcp://") { PlainWhenUnsplit(c, url); }
    var at := Find(url, "@").value;
    FromHalves(c, url, at);
    SplitAtFirst(url, at);
    assert Halves(url, url[..at], url[at + 1..]);
  }

  lemma SplitAtFirst(url: string, at: nat)
    requires Find(url, "@") == Some(at)
    ensures at < |url| && '@' !in url[..at] && url == url[..at] + "@" + url[at + 1..]
  {
    BeforeFirstAt(url, at);
    assert url[at] == url[at..at + 1][0] == '@';
  }

  lemma HalvesMakeAlias(c: Codecs, url: string, dial: string, bind: string, d: ChannelAddr, b: ChannelAddr)
    requires Halves(url, dial, bind) && FromZmqUrl(c, dial) == Parsed(d) && FromZmqUrl(c, bind) == Parsed(b)
    ensures FromZmqUrl(c, url) == Parsed(Alias(d, b))
  {
    FirstAt(dial, bind);
  }

  // ---------------------------------------------------------------------------------------------
  // Consequences
  // ---------------------------------------------------------------------------------------------

  /** Every address built by `TlsAddr::new` comes back, unless its host is "*". */
  lemma NewTlsAddrRoundTrips(c: Codecs, kind: TlsKind, host: string, port: nat)
    requires IpCodecOk(c) && port < U16
    ensures var a := Secure(kind, NewTlsAddr(c, host, port));
            FromZmqUrl(c, ToZmqUrl(c, a)) == Parsed(a) <==> host != "*"
  {
    RoundTripIff(c, Secure(kind, NewTlsAddr(c, host, port)));
    NormalizeIsIdempotent(c, host);
    var ip := c.parseIp(StripBrackets(host));
    if ip.Some? { NormalizeOfPrinted(c, ip.value); }
    if host == "*" { assert host[0] == '*' && !IpText(host); }
  }

  /** A TLS address whose host is "*" comes back bound to the unspecified IPv6 address. */
  lemma WildcardHostExample(c: Codecs)
    requires IpCodecOk(c)
    ensures FromZmqUrl(c, ToZmqUrl(c, Secure(Tls, TlsAddr("*", 443)))) ==
            Parsed(Secure(Tls, TlsAddr(c.printIp(Unspecified), 443)))
    ensures c.printIp(Unspecified) != "*"
  {
    SecureUrl(c, Tls, TlsAddr("*", 443));
    NormalizeOfPrinted(c, Unspecified);
  }

  /** A printed Tcp address needs a name lookup exactly when it has an IPv6 scope, and never a descriptor. */
  lemma TcpNeedsDnsIff(c: Codecs, s: SocketAddr)
    requires IpCodecOk(c) && InRange(Tcp(s))
    ensures var p := FromZmqUrl(c, ToZmqUrl(c, Tcp(s)));
            && (p.NeedsDns? <==> s.scope != 0)
            && (p.Parsed? <==> s.scope == 0)
            && (p.Parsed? ==> p.addr == Tcp(s.(flow := 0)))
  {
    TcpUrl(c, s);
    HostTextParses(c, s);
  }

  /** Dialing what was parsed from a printed alias dials the alias's own dial address. */
  lemma AliasDialsItsTarget(c: Codecs, d: ChannelAddr, b: ChannelAddr)
    requires IpCodecOk(c) && InRange(Alias(d, b)) && Recoverable(c, Alias(d, b))
    ensures var p := FromZmqUrl(c, ToZmqUrl(c, Alias(d, b)));
            p.Parsed? && IntoDialAddr(p.addr) == d && FromZmqUrl(c, ToZmqUrl(c, d)) == Parsed(IntoDialAddr(p.addr))
  {
    RoundTripIff(c, Alias(d, b));
    RoundTripIff(c, d);
  }
}
