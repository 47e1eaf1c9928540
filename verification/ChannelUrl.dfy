/**
 `ChannelAddr::to_zmq_url` and `ChannelAddr::from_zmq_url` of `hyperactor/src/channel.rs`: which addresses
 the parser recovers from the text the printer writes.

 The IP address and Unix socket name grammars are parameters (`Codecs`); a URL whose meaning depends on a name
 lookup or on adopting a file descriptor parses to an outcome that says so.
 */
module ChannelUrl {
  import opened Options

  datatype Ip = V4(address: nat) | V6(address: nat)

  /** `SocketAddr`; an IPv4 address carries no flow label or scope. */
  datatype SocketAddr = SocketAddr(ip: Ip, port: nat, flow: nat, scope: nat)

  datatype TlsAddr = TlsAddr(hostname: string, port: nat)

  datatype TlsKind = Tls | MetaTls | Quic | MetaQuic

  datatype ChannelAddr =
    | Tcp(socket: SocketAddr)
    | Secure(kind: TlsKind, tls: TlsAddr)
    | Local(index: nat)
    | Unix(name: string)
    | Alias(dialTo: ChannelAddr, bindTo: ChannelAddr)

  datatype Parse =
    | Parsed(addr: ChannelAddr)
    | NeedsDns(host: string, port: nat)
    | NeedsFd(fd: int)
    | Failed

  /** Printing and parsing of IP addresses and of Unix socket names. */
  datatype Codecs = Codecs(
    printIp: Ip -> string,
    parseIp: string -> Option<Ip>,
    printUnix: string -> string,
    parseUnix: string -> Option<string>)

  predicate IpChar(c: char) {
    '0' <= c <= '9' || 'a' <= c <= 'f' || 'A' <= c <= 'F' || c == '.' || c == ':'
  }

  predicate IpText(s: string) {
    forall i | 0 <= i < |s| :: IpChar(s[i])
  }

  /** IP printing is inverted by IP parsing, and both deal only in hexadecimal digits, dots and colons. */
  ghost predicate IpCodecOk(c: Codecs) {
    && (forall ip :: c.parseIp(c.printIp(ip)) == Some(ip) && IpText(c.printIp(ip)))
    && (forall s :: c.parseIp(s).Some? ==> IpText(s))
  }

  const U16: nat := 0x1_0000
  const U32: nat := 0x1_0000_0000
  const U64: nat := 0x1_0000_0000_0000_0000

  /** The ranges the Rust types impose. */
  ghost predicate InRange(a: ChannelAddr) {
    match a
    case Tcp(s) => s.port < U16 && s.flow < U32 && s.scope < U32 && (s.ip.V4? ==> s.flow == 0 && s.scope == 0)
    case Secure(_, t) => t.port < U16
    case Local(index) => index < U64
    case Unix(_) => true
    case Alias(d, b) => InRange(d) && InRange(b)
  }

  // ---------------------------------------------------------------------------------------------
  // Library text operations
  // ---------------------------------------------------------------------------------------------

  predicate StartsWith(s: string, p: string) {
    |p| <= |s| && s[..|p|] == p
  }

  predicate At(s: string, i: nat, p: string) {
    i + |p| <= |s| && s[i..i + |p|] == p
  }

  /** `str::find`: the first occurrence. */
  function Find(s: string, p: string): (r: Option<nat>)
    ensures r.Some? ==> At(s, r.value, p) && forall j: nat | j < r.value :: !At(s, j, p)
    ensures r.None? ==> forall j: nat :: !At(s, j, p)
  {
    FindFrom(s, p, 0)
  }

  function FindFrom(s: string, p: string, i: nat): (r: Option<nat>)
    requires forall j: nat | j < i :: !At(s, j, p)
    ensures r.Some? ==> At(s, r.value, p) && forall j: nat | j < r.value :: !At(s, j, p)
    ensures r.None? ==> forall j: nat :: !At(s, j, p)
    decreases |s| - i
  {
    if i + |p| > |s| then None else if At(s, i, p) then Some(i) else if i == |s| then None else FindFrom(s, p, i + 1)
  }

  /** `rsplit_once` on a character: the last occurrence. */
  function FindLast(s: string, c: char): (r: Option<nat>)
    ensures r.Some? ==> r.value < |s| && s[r.value] == c && forall j | r.value < j < |s| :: s[j] != c
    ensures r.None? ==> c !in s
  {
    if s == [] then None
    else if s[|s| - 1] == c then Some(|s| - 1)
    else FindLast(s[..|s| - 1], c)
  }

  function Decimal(n: nat): (s: string)
    ensures s != [] && forall i | 0 <= i < |s| :: '0' <= s[i] <= '9'
  {
    var digit := ['0' + (n % 10) as char];
    if n < 10 then digit else Decimal(n / 10) + digit
  }

  function Digits(s: string): Option<nat> {
    if s == [] then Some(0)
    else
      var c, init := s[|s| - 1], Digits(s[..|s| - 1]);
      if init.None? || c < '0' || c > '9' then None else Some(10 * init.value + (c - '0') as nat)
  }

  /** `str::parse` for an unsigned type below `bound`. */
  function ParseUnsigned(s: string, bound: nat): Option<nat> {
    var digits := if |s| > 1 && s[0] == '+' then s[1..] else s;
    var r := Digits(digits);
    if digits == [] || r.None? || r.value >= bound then None else r
  }

  /** `str::parse` for `i32`. */
  function ParseI32(s: string): Option<int> {
    if |s| > 1 && s[0] == '-' then
      var r := Digits(s[1..]);
      if r.None? || r.value > 0x8000_0000 then None else Some(0 - r.value as int)
    else
      var r := ParseUnsigned(s, 0x8000_0000);
      if r.None? then None else Some(r.value as int)
  }

  // ---------------------------------------------------------------------------------------------
  // Printer
  // ---------------------------------------------------------------------------------------------

  /** `Display for SocketAddr`: the flow label is not printed. */
  function HostText(c: Codecs, s: SocketAddr): string {
    if s.ip.V4? then c.printIp(s.ip)
    else if s.scope == 0 then "[" + c.printIp(s.ip) + "]"
    else "[" + c.printIp(s.ip) + "%" + Decimal(s.scope) + "]"
  }

  function HostPort(host: string, port: nat): string {
    host + ":" + Decimal(port)
  }

  function Scheme(kind: TlsKind): string {
    match kind case Tls => "tls" case MetaTls => "metatls" case Quic => "quic" case MetaQuic => "metaquic"
  }

  function ToZmqUrl(c: Codecs, a: ChannelAddr): string {
    match a
    case Tcp(s) => "tcp://" + HostPort(HostText(c, s), s.port)
    case Secure(kind, t) => Scheme(kind) + "://" + HostPort(t.hostname, t.port)
    case Local(index) => "inproc://" + Decimal(index)
    case Unix(name) => "ipc://" + c.printUnix(name)
    case Alias(d, b) => ToZmqUrl(c, d) + "@" + ToZmqUrl(c, b)
  }

  // ---------------------------------------------------------------------------------------------
  // Parser
  // ---------------------------------------------------------------------------------------------

  function StripBrackets(host: string): string {
    if |host| >= 2 && host[0] == '[' && host[|host| - 1] == ']' then host[1..|host| - 1] else host
  }

  function NormalizeHost(c: Codecs, host: string): string {
    match c.parseIp(StripBrackets(host)) case Some(ip) => c.printIp(ip) case None => host
  }

  /** `TlsAddr::new`. */
  function NewTlsAddr(c: Codecs, host: string, port: nat): TlsAddr {
    TlsAddr(NormalizeHost(c, host), port)
  }

  datatype HostPortParse = HasPort(host: string, port: nat) | HasFd(fd: int) | BadHostPort

  /** `parse_host_port_or_fd`, up to adopting the descriptor. */
  function ParseHostPort(address: string): HostPortParse {
    match FindLast(address, ':')
    case None => BadHostPort
    case Some(i) =>
      var host, port := address[..i], address[i + 1..];
      if StartsWith(port, "fd") then
        (match ParseI32(port[2..]) case Some(fd) => HasFd(fd) case None => BadHostPort)
      else
        (match ParseUnsigned(port, U16) case Some(p) => HasPort(host, p) case None => BadHostPort)
  }

  /** `resolve_hostname_to_socket_addr`, up to the name lookup. */
  function Resolve(c: Codecs, host: string, port: nat): Parse {
    match c.parseIp(StripBrackets(host))
    case Some(ip) => Parsed(Tcp(SocketAddr(ip, port, 0, 0)))
    case None => NeedsDns(StripBrackets(host), port)
  }

  const Unspecified: Ip := V6(0)

  function ParseTcp(c: Codecs, address: string): Parse {
    match ParseHostPort(address)
    case HasPort(host, port) =>
      if host == "*" then Parsed(Tcp(SocketAddr(Unspecified, port, 0, 0))) else Resolve(c, host, port)
    case HasFd(fd) => NeedsFd(fd)
    case BadHostPort => Failed
  }

  function ParseSecure(c: Codecs, kind: TlsKind, address: string): Parse {
    match ParseHostPort(address)
    case HasPort(host, port) =>
      Parsed(Secure(kind, NewTlsAddr(c, if host == "*" then c.printIp(Unspecified) else host, port)))
    case HasFd(fd) => NeedsFd(fd)
    case BadHostPort => Failed
  }

  /** The address after a scheme. */
  function ParseAs(c: Codecs, scheme: string, address: string): Parse {
    if scheme == "tcp" then ParseTcp(c, address)
    else if scheme == "inproc" then
      (match ParseUnsigned(address, U64) case Some(index) => Parsed(Local(index)) case None => Failed)
    else if scheme == "ipc" then
      (match c.parseUnix(address) case Some(name) => Parsed(Unix(name)) case None => Failed)
    else if scheme == "metatls" then ParseSecure(c, MetaTls, address)
    else if scheme == "metaquic" then ParseSecure(c, MetaQuic, address)
    else if scheme == "quic" then ParseSecure(c, Quic, address)
    else if scheme == "tls" then ParseSecure(c, Tls, address)
    else Failed
  }

  /** A URL that is not an alias. */
  function ParsePlain(c: Codecs, url: string): Parse {
    match Find(url, "://")
    case None => Failed
    case Some(i) => ParseAs(c, url[..i], url[i + 3..])
  }

  /** An alias of its two halves, or the outcome of the first that is no address. */
  function BothHalves(dial: Parse, bind: Parse): Parse {
    if !dial.Parsed? then dial else if !bind.Parsed? then bind else Parsed(Alias(dial.addr, bind.addr))
  }

  function FromZmqUrl(c: Codecs, url: string): Parse
    decreases |url|
  {
    var at := Find(url, "@");
    if at.Some? && StartsWith(url[..at.value], "tcp://") then
      var dial, bind := url[..at.value], url[at.value + 1..];
      if !StartsWith(bind, "tcp://") then Failed else BothHalves(FromZmqUrl(c, dial), FromZmqUrl(c, bind))
    else ParsePlain(c, url)
  }

  function IntoDialAddr(a: ChannelAddr): ChannelAddr {
    if a.Alias? then IntoDialAddr(a.dialTo) else a
  }
}
