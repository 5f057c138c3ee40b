/** The SOCKS5 client of `proxy.rs` (sections 3, 4 and 6 of RFC 1928, section 2 of RFC 1929): the bytes it writes,
    read back by a proxy's parser, and the bytes it reads, against the replies a proxy can send. */
module Socks5 {
  import opened Common

  type Bytes = seq<Byte>
  type Port = p: int | 0 <= p < 0x1_0000

  const VERSION: Byte := 5
  const AUTH_VERSION: Byte := 1
  const NO_AUTH: Byte := 0
  const USER_PASS: Byte := 2
  const CMD_CONNECT: Byte := 1
  const ATYP_V4: Byte := 1
  const ATYP_DOMAIN: Byte := 3
  const ATYP_V6: Byte := 4
  const REPLY_OK: Byte := 0

  datatype Proxy = Proxy(username: Option<Bytes>, password: Option<Bytes>)

  function OrEmpty(b: Option<Bytes>): Bytes {
    if b.Some? then b.value else []
  }

  function Methods(proxy: Proxy): Bytes {
    if proxy.username.Some? || proxy.password.Some? then [NO_AUTH, USER_PASS] else [NO_AUTH]
  }

  /** One length octet and that many bytes. */
  function Counted(b: Bytes): Bytes
    requires |b| < 256
  {
    [|b|] + b
  }

  // ---- what the client writes ----

  function Greeting(proxy: Proxy): Bytes {
    [VERSION] + Counted(Methods(proxy))
  }

  predicate CredentialsFit(proxy: Proxy) {
    |OrEmpty(proxy.username)| <= 255 && |OrEmpty(proxy.password)| <= 255
  }

  function AuthRequest(proxy: Proxy): Bytes
    requires CredentialsFit(proxy)
  {
    [AUTH_VERSION] + Counted(OrEmpty(proxy.username)) + Counted(OrEmpty(proxy.password))
  }

  function ConnectRequest(host: Bytes, port: Port): Bytes
    requires |host| <= 255
  {
    [VERSION, CMD_CONNECT, 0, ATYP_DOMAIN] + Counted(host) + [port / 256, port % 256]
  }

  /** Everything written on a handshake with or without authentication. */
  function Written(proxy: Proxy, auth: bool, host: Bytes, port: Port): Bytes
    requires |host| <= 255 && (auth ==> CredentialsFit(proxy))
  {
    Greeting(proxy) + (if auth then AuthRequest(proxy) else []) + ConnectRequest(host, port)
  }

  // ---- how a proxy reads it, by the numbers of the standards ----

  datatype Parsed<T> = Parsed(value: T, rest: Bytes)

  function TakeCounted(s: Bytes): Option<Parsed<Bytes>> {
    if s == [] then None
    else
      var end := 1 + s[0] as int;
      if |s| < end then None else Some(Parsed(s[1..end], s[end..]))
  }

  function Expect(s: Bytes, prefix: Bytes): Option<Bytes> {
    if prefix <= s then Some(s[|prefix|..]) else None
  }

  function ReadGreeting(s: Bytes): Option<Parsed<Bytes>> {
    var rest := Expect(s, [5]);
    if rest.None? then None else TakeCounted(rest.value)
  }

  /** A user name and a password. */
  function ReadAuth(s: Bytes): Option<Parsed<(Bytes, Bytes)>> {
    var rest := Expect(s, [1]);
    var user := if rest.None? then None else TakeCounted(rest.value);
    var pass := if user.None? then None else TakeCounted(user.value.rest);
    if pass.None? then None else Some(Parsed((user.value.value, pass.value.value), pass.value.rest))
  }

  /** The host and port of a CONNECT by domain name. */
  function ReadConnect(s: Bytes): Option<Parsed<(Bytes, Port)>> {
    var rest := Expect(s, [5, 1, 0, 3]);
    var host := if rest.None? then None else TakeCounted(rest.value);
    if host.None? || |host.value.rest| < 2 then None
    else
      var tail := host.value.rest;
      Some(Parsed((host.value.value, tail[0] as int * 256 + tail[1]), tail[2..]))
  }

  /** What a proxy that selected `USER_PASS` (`auth`) or `NO_AUTH` learns from the client. */
  datatype Request = Request(methods: Bytes, login: Option<(Bytes, Bytes)>, host: Bytes, port: Port)

  function ReadClient(s: Bytes, auth: bool): Option<Parsed<Request>> {
    var greeting := ReadGreeting(s);
    if greeting.None? then None
    else
      var login := if auth then ReadAuth(greeting.value.rest) else None;
      if auth && login.None? then None
      else
        var target := ReadConnect(if auth then login.value.rest else greeting.value.rest);
        if target.None? then None
        else Some(Parsed(Request(greeting.value.value, if auth then Some(login.value.value) else None,
                                 target.value.value.0, target.value.value.1), target.value.rest))
  }

  lemma TakesCounted(b: Bytes, tail: Bytes)
    requires |b| < 256
    ensures TakeCounted(Counted(b) + tail) == Some(Parsed(b, tail))
  {
  }

  lemma Expects(prefix: Bytes, tail: Bytes)
    ensures Expect(prefix + tail, prefix) == Some(tail)
  {
  }

  lemma GreetingParses(proxy: Proxy, tail: Bytes)
    ensures ReadGreeting(Greeting(proxy) + tail) == Some(Parsed(Methods(proxy), tail))
  {
    var after := Counted(Methods(proxy)) + tail;
    assert Greeting(proxy) + tail == [VERSION] + after;
    Expects([VERSION], after);
    TakesCounted(Methods(proxy), tail);
  }

  lemma AuthParses(proxy: Proxy, tail: Bytes)
    requires CredentialsFit(proxy)
    ensures ReadAuth(AuthRequest(proxy) + tail)
         == Some(Parsed((OrEmpty(proxy.username), OrEmpty(proxy.password)), tail))
  {
    var user, pass := OrEmpty(proxy.username), OrEmpty(proxy.password);
    var second := Counted(pass) + tail;
    var first := Counted(user) + second;
    assert AuthRequest(proxy) + tail == [AUTH_VERSION] + first;
    Expects([AUTH_VERSION], first);
    TakesCounted(user, second);
    TakesCounted(pass, tail);
  }

  /** CONNECT bytes give back the host and the port, for every host of up to 255 bytes. */
  lemma ConnectParses(host: Bytes, port: Port, tail: Bytes)
    requires |host| <= 255
    ensures ReadConnect(ConnectRequest(host, port) + tail) == Some(Parsed((host, port), tail))
  {
    var fixed := [VERSION, CMD_CONNECT, 0, ATYP_DOMAIN];
    var last := [port / 256, port % 256] + tail;
    var after := Counted(host) + last;
    assert ConnectRequest(host, port) + tail == fixed + after;
    Expects(fixed, after);
    TakesCounted(host, last);
    assert last[2..] == tail;
  }

  /** The proxy reads exactly the offered methods, the credentials and the target, then the tunnelled bytes. */
  lemma ClientIsUnderstood(proxy: Proxy, auth: bool, host: Bytes, port: Port, tunnelled: Bytes)
    requires |host| <= 255 && (auth ==> CredentialsFit(proxy))
    ensures ReadClient(Written(proxy, auth, host, port) + tunnelled, auth)
         == Some(Parsed(Request(if proxy == Proxy(None, None) then [0] else [0, 2],
                                if auth then Some((OrEmpty(proxy.username), OrEmpty(proxy.password))) else None,
                                host, port), tunnelled))
  {
    var target := ConnectRequest(host, port) + tunnelled;
    var login := if auth then AuthRequest(proxy) else [];
    assert Written(proxy, auth, host, port) + tunnelled == Greeting(proxy) + (login + target);
    GreetingParses(proxy, login + target);
    if auth { AuthParses(proxy, target); } else { assert login + target == target; }
    ConnectParses(host, port, tunnelled);
  }

  // ---- what a proxy answers ----

  datatype Address = V4(octets: Bytes) | Domain(name: Bytes) | V6(octets: Bytes)

  /** A success reply. The reserved octet is not looked at. */
  datatype Reply = Reply(reserved: Byte, bound: Address, port: Bytes)

  predicate WellFormed(reply: Reply) {
    && |reply.port| == 2
    && match reply.bound
       case V4(octets) => |octets| == 4
       case Domain(name) => |name| <= 255
       case V6(octets) => |octets| == 16
  }

  function AddressBytes(a: Address): Bytes
    requires a.Domain? ==> |a.name| <= 255
  {
    match a
    case V4(octets) => [1] + octets
    case Domain(name) => [3] + Counted(name)
    case V6(octets) => [4] + octets
  }

  function ReplyBytes(reply: Reply): Bytes
    requires WellFormed(reply)
  {
    [5, 0, reply.reserved] + AddressBytes(reply.bound) + reply.port
  }

  /** The answers of a whole handshake and the first tunnelled bytes behind them. */
  datatype Session = Session(auth: bool, reply: Reply, tunnelled: Bytes)

  function SelectBytes(auth: bool): Bytes {
    if auth then [5, 2, 1, 0] else [5, 0]
  }

  function SessionBytes(s: Session): Bytes
    requires WellFormed(s.reply)
  {
    SelectBytes(s.auth) + ReplyBytes(s.reply) + s.tunnelled
  }

  // ---- how the client reads it ----

  /** One reply off the front of a stream. */
  function TakeReply(s: Bytes): Option<Parsed<Reply>> {
    if |s| < 4 || s[0] != VERSION || s[1] != REPLY_OK then None
    else
      var start: int := if s[3] == ATYP_DOMAIN then 5 else 4;
      if |s| < start || s[3] !in {ATYP_V4, ATYP_DOMAIN, ATYP_V6} then None
      else
        var length: int := if s[3] == ATYP_V4 then 4 else if s[3] == ATYP_V6 then 16 else s[4];
        if |s| < start + length + 2 then None
        else
          var address := s[start..start + length];
          var bound :=
            if s[3] == ATYP_V4 then V4(address) else if s[3] == ATYP_V6 then V6(address) else Domain(address);
          Some(Parsed(Reply(s[2], bound, s[start + length..start + length + 2]), s[start + length + 2..]))
  }

  function ReadSession(s: Bytes): Option<Session> {
    var auth := SelectBytes(true) <= s;
    if !auth && !(SelectBytes(false) <= s) then None
    else
      var reply := TakeReply(s[|SelectBytes(auth)|..]);
      if reply.None? then None else Some(Session(auth, reply.value.value, reply.value.rest))
  }

  lemma SelectSplits(s: Bytes)
    ensures SelectBytes(true) <= s <==> [VERSION, USER_PASS] <= s && [AUTH_VERSION, 0] <= s[2..]
    ensures SelectBytes(true) <= s ==> s[2..][2..] == s[4..]
    ensures [VERSION, USER_PASS] <= s ==> !(SelectBytes(false) <= s)
  {
    assert [VERSION, USER_PASS] <= s ==> s[1] == [VERSION, USER_PASS][1];
    assert SelectBytes(false) <= s ==> s[1] == SelectBytes(false)[1];
    if [VERSION, USER_PASS] <= s && [AUTH_VERSION, 0] <= s[2..] {
      assert s[..2] == [VERSION, USER_PASS] && s[2..][..2] == [AUTH_VERSION, 0];
      assert s[..4] == s[..2] + s[2..][..2];
    }
    if SelectBytes(true) <= s {
      assert s[..4] == SelectBytes(true);
      assert s[2..][..2] == SelectBytes(true)[2..];
      assert s[..2] == SelectBytes(true)[..2];
    }
  }

  lemma SelectOne(s: Bytes)
    ensures SelectBytes(true) <= s ==> !(SelectBytes(false) <= s) && |s| >= 4
    ensures SelectBytes(false) <= s ==> |s| >= 2
  {
    SelectSplits(s);
    if SelectBytes(true) <= s { assert [VERSION, USER_PASS] <= s; }
  }

  predicate Accepts(proxy: Proxy, host: Bytes, incoming: Bytes, writes: nat) {
    var s := ReadSession(incoming);
    && s.Some? && |host| <= 255
    && (s.value.auth ==> CredentialsFit(proxy))
    && writes >= if s.value.auth then 4 else 3
  }

  predicate AsksForLogin(proxy: Proxy, incoming: Bytes) {
    [VERSION, USER_PASS] <= incoming && CredentialsFit(proxy)
  }

  function Opening(proxy: Proxy, incoming: Bytes): Bytes {
    Greeting(proxy) + if AsksForLogin(proxy, incoming) then AuthRequest(proxy) else []
  }

  /** Everything the client has to write in answer to these bytes: credentials only to a proxy that asked for them, and
      the target only after it is satisfied. */
  function Outgoing(proxy: Proxy, host: Bytes, port: Port, incoming: Bytes): Bytes {
    var satisfied := SelectBytes(false) <= incoming || (SelectBytes(true) <= incoming && CredentialsFit(proxy));
    Opening(proxy, incoming) + if satisfied && |host| <= 255 then ConnectRequest(host, port) else []
  }

  /** Corollary of `SelectSplits`: what an accepted session is sent is the whole of `Written`. */
  lemma OutgoingOfSession(proxy: Proxy, host: Bytes, port: Port, incoming: Bytes)
    requires Accepts(proxy, host, incoming, 4)
    ensures Outgoing(proxy, host, port, incoming) == Written(proxy, ReadSession(incoming).value.auth, host, port)
  {
    SelectSplits(incoming);
  }

  /** Corollary of `SelectSplits`: whatever the proxy answers, the client writes a beginning of a session that a proxy
      understands, and all of it exactly when the answers open the way. */
  lemma OutgoingBegins(proxy: Proxy, host: Bytes, port: Port, incoming: Bytes)
    requires |host| <= 255 && CredentialsFit(proxy)
    ensures
      var whole := Written(proxy, [VERSION, USER_PASS] <= incoming, host, port);
      && Outgoing(proxy, host, port, incoming) <= whole
      && (Outgoing(proxy, host, port, incoming) == whole <==>
            SelectBytes(false) <= incoming || SelectBytes(true) <= incoming)
  {
    SelectSplits(incoming);
    var auth := [VERSION, USER_PASS] <= incoming;
    var opening, target := Opening(proxy, incoming), ConnectRequest(host, port);
    assert Written(proxy, auth, host, port) == opening + target;
    assert |opening + target| > |opening + []|;
  }

  /** From `before` to `after` some of `data` was written, from its beginning on. */
  predicate Wrote(before: Bytes, after: Bytes, data: Bytes) {
    before <= after <= before + data
  }

  lemma WroteLess(before: Bytes, after: Bytes, data: Bytes, more: Bytes)
    requires Wrote(before, after, data)
    ensures Wrote(before, after, data + more)
  {
    assert before + (data + more) == (before + data) + more;
  }

  lemma WroteOn(before: Bytes, data: Bytes, after: Bytes, more: Bytes)
    requires Wrote(before + data, after, more)
    ensures Wrote(before, after, data + more)
  {
    assert before + (data + more) == (before + data) + more;
  }

  method FormAuthRequest(proxy: Proxy, username: Bytes, password: Bytes) returns (request: Bytes)
    requires username == OrEmpty(proxy.username) && password == OrEmpty(proxy.password) && CredentialsFit(proxy)
    ensures request == AuthRequest(proxy)
  {
    request := [AUTH_VERSION];
    request := request + [|username|];
    request := request + username;
    request := request + [|password|];
    request := request + password;
  }

  /** The stream: bytes still to be read, bytes written, how many more writes will succeed, and how much of the one that
      then fails goes out. */
  class Stream {
    var incoming: Bytes
    var sent: Bytes
    var writesLeft: nat
    const partial: nat

    constructor (incoming: Bytes, writesLeft: nat, partial: nat)
      ensures this.incoming == incoming && this.sent == [] && this.writesLeft == writesLeft && this.partial == partial
    {
      this.incoming, this.sent, this.writesLeft, this.partial := incoming, [], writesLeft, partial;
    }

    method WriteAll(data: Bytes) returns (ok: bool)
      modifies this
      ensures incoming == old(incoming) && ok == (old(writesLeft) > 0)
      ensures ok ==> sent == old(sent) + data && writesLeft == old(writesLeft) - 1
      ensures Wrote(old(sent), sent, data)
    {
      ok := writesLeft > 0;
      if ok {
        sent, writesLeft := sent + data, writesLeft - 1;
      } else {
        sent := sent + data[..Min(partial, |data|)];
        assert data == data[..Min(partial, |data|)] + data[Min(partial, |data|)..];
      }
    }

    /** Fails when the stream ends first, and has then used up what there was. */
    method ReadExact(n: nat) returns (r: Option<Bytes>)
      modifies this
      ensures sent == old(sent) && writesLeft == old(writesLeft)
      ensures if |old(incoming)| < n then r.None? && incoming == []
              else r == Some(old(incoming)[..n]) && incoming == old(incoming)[n..]
    {
      if |incoming| < n { incoming := []; return None; }
      r := Some(incoming[..n]);
      incoming := incoming[n..];
    }

    /** `read_socks5_connect_response`. */
    method ReadConnectResponse() returns (r: Result<()>)
      modifies this
      ensures sent == old(sent) && writesLeft == old(writesLeft)
      ensures r.Ok? <==> TakeReply(old(incoming)).Some?
      ensures r.Ok? ==> incoming == TakeReply(old(incoming)).value.rest
    {
      var header := ReadExact(4);
      if header.None? { return Err("reading header"); }
      if header.value[0] != VERSION { return Err("invalid version"); }
      if header.value[1] != REPLY_OK { return Err("reply code"); }
      var length: int := 0;
      if header.value[3] == ATYP_V4 {
        length := 4;
      } else if header.value[3] == ATYP_DOMAIN {
        var octet := ReadExact(1);
        if octet.None? { return Err("reading domain length"); }
        length := octet.value[0];
      } else if header.value[3] == ATYP_V6 {
        length := 16;
      } else {
        return Err("unsupported address type");
      }
      var discard := ReadExact(length + 2);
      if discard.None? { return Err("reading address"); }
      r := Ok(());
    }

    /** The answer to a request for credentials. */
    method ReadAuthResponse() returns (r: Result<()>)
      modifies this
      ensures sent == old(sent) && writesLeft == old(writesLeft)
      ensures r.Ok? <==> [AUTH_VERSION, 0] <= old(incoming)
      ensures r.Ok? ==> incoming == old(incoming)[2..]
    {
      var response := ReadExact(2);
      if response.None? { return Err("reading auth"); }
      if response.value[0] != AUTH_VERSION || response.value[1] != 0 { return Err("authentication failed"); }
      r := Ok(());
    }

    /** `authenticate_socks5`. */
    method Authenticate(proxy: Proxy) returns (r: Result<()>)
      modifies this
      ensures r.Ok? <==> CredentialsFit(proxy) && old(writesLeft) > 0 && [AUTH_VERSION, 0] <= old(incoming)
      ensures CredentialsFit(proxy) && old(writesLeft) > 0 ==>
        sent == old(sent) + AuthRequest(proxy) && writesLeft == old(writesLeft) - 1
      ensures Wrote(old(sent), sent, if CredentialsFit(proxy) then AuthRequest(proxy) else [])
      ensures r.Ok? ==> incoming == old(incoming)[2..]
    {
      var username, password := OrEmpty(proxy.username), OrEmpty(proxy.password);
      if |username| > 255 || |password| > 255 { return Err("credentials too long"); }
      var request := FormAuthRequest(proxy, username, password);
      var ok := WriteAll(request);
      if !ok { return Err("writing auth"); }
      r := ReadAuthResponse();
    }

    /** The greeting and the proxy's choice of method. */
    method SelectMethod(proxy: Proxy) returns (r: Result<bool>)
      modifies this
      ensures r.Ok? <==> old(writesLeft) > 1 && ([VERSION, NO_AUTH] <= old(incoming)
                                              || [VERSION, USER_PASS] <= old(incoming))
      ensures r.Ok? ==> r.value == ([VERSION, USER_PASS] <= old(incoming)) && incoming == old(incoming)[2..]
      ensures old(writesLeft) > 1 ==> sent == old(sent) + Greeting(proxy) && writesLeft == old(writesLeft) - 2
      ensures Wrote(old(sent), sent, Greeting(proxy))
    {
      var methods := Methods(proxy);
      assert Greeting(proxy) == [VERSION, |methods|] + methods;
      var ok := WriteAll([VERSION, |methods|]);
      WroteLess(old(sent), sent, [VERSION, |methods|], methods);
      if !ok { return Err("writing greeting"); }
      ok := WriteAll(methods);
      WroteOn(old(sent), [VERSION, |methods|], sent, methods);
      if !ok { return Err("writing methods"); }
      assert sent == old(sent) + Greeting(proxy);
      var response := ReadExact(2);
      if response.None? { return Err("reading method"); }
      if response.value[0] != VERSION { return Err("invalid version"); }
      if response.value[1] == NO_AUTH { return Ok(false); }
      if response.value[1] == USER_PASS { return Ok(true); }
      r := Err("no usable method");
    }

    /** Method selection and, if the proxy asks for it, authentication. */
    method Negotiate(proxy: Proxy) returns (r: Result<bool>)
      modifies this
      ensures r.Ok? <==> || (SelectBytes(true) <= old(incoming) && CredentialsFit(proxy) && old(writesLeft) > 2)
                         || (SelectBytes(false) <= old(incoming) && old(writesLeft) > 1)
      ensures r.Ok? ==> r.value == (SelectBytes(true) <= old(incoming))
      ensures r.Ok? ==> incoming == old(incoming)[|SelectBytes(r.value)|..]
      ensures r.Ok? && r.value ==> CredentialsFit(proxy)
      ensures old(writesLeft) > 2 || r.Ok? ==> sent == old(sent) + Opening(proxy, old(incoming))
      ensures Wrote(old(sent), sent, Opening(proxy, old(incoming)))
      ensures r.Ok? ==> writesLeft == old(writesLeft) - if r.value then 3 else 2
    {
      SelectSplits(incoming);
      r := SelectMethod(proxy);
      var answer := if AsksForLogin(proxy, old(incoming)) then AuthRequest(proxy) else [];
      WroteLess(old(sent), sent, Greeting(proxy), answer);
      if r.Ok? && r.value {
        var login := Authenticate(proxy);
        WroteOn(old(sent), Greeting(proxy), sent, answer);
        if login.Err? { return Err(login.error); }
      }
    }

    /** The CONNECT request and its reply. */
    method RequestTarget(host: Bytes, port: Port) returns (r: Result<()>)
      modifies this
      ensures r.Ok? <==> |host| <= 255 && old(writesLeft) > 0 && TakeReply(old(incoming)).Some?
      ensures |host| <= 255 && old(writesLeft) > 0 ==> sent == old(sent) + ConnectRequest(host, port)
      ensures Wrote(old(sent), sent, if |host| <= 255 then ConnectRequest(host, port) else [])
      ensures r.Ok? ==> incoming == TakeReply(old(incoming)).value.rest
    {
      if |host| > 255 { return Err("host too long"); }
      var request: Bytes := [VERSION, CMD_CONNECT, 0, ATYP_DOMAIN, |host|];
      request := request + host;
      request := request + [port / 256, port % 256];
      assert request == ConnectRequest(host, port);
      var ok := WriteAll(request);
      if !ok { return Err("writing CONNECT"); }
      r := ReadConnectResponse();
    }

    /** `connect_socks5`: it succeeds exactly on a well-formed session and then stands at the first tunnelled byte.
        Whatever fails, it has written a beginning of what the answers called for, and all of it if no write failed. */
    method Connect(proxy: Proxy, host: Bytes, port: Port) returns (r: Result<()>)
      modifies this
      ensures r.Ok? <==> Accepts(proxy, host, old(incoming), old(writesLeft))
      ensures r.Ok? ==> incoming == ReadSession(old(incoming)).value.tunnelled
      ensures r.Ok? || old(writesLeft) >= 4 ==> sent == old(sent) + Outgoing(proxy, host, port, old(incoming))
      ensures Wrote(old(sent), sent, Outgoing(proxy, host, port, old(incoming)))
    {
      SelectOne(incoming);
      SelectSplits(incoming);
      ghost var opening := Opening(proxy, incoming);
      ghost var target := Outgoing(proxy, host, port, incoming)[|opening|..];
      var auth := Negotiate(proxy);
      WroteLess(old(sent), sent, opening, target);
      if auth.Err? { return Err(auth.error); }
      r := RequestTarget(host, port);
      WroteOn(old(sent), opening, sent, target);
    }
  }

  lemma FourParts(s: Bytes, i: nat, j: nat, k: nat)
    requires i <= j <= k <= |s|
    ensures s == s[..i] + s[i..j] + s[j..k] + s[k..]
  {
  }

  lemma TakenReply(s: Bytes)
    requires TakeReply(s).Some?
    ensures var t := TakeReply(s).value; WellFormed(t.value) && s == ReplyBytes(t.value) + t.rest
  {
    var t := TakeReply(s).value;
    var start := if s[3] == ATYP_DOMAIN then 5 else 4;
    var end := |s| - |t.rest| - 2;
    FourParts(s, start, end, end + 2);
    assert s[..start] == if s[3] == ATYP_DOMAIN then [s[0], s[1], s[2], s[3], s[4]] else [s[0], s[1], s[2], s[3]];
    assert ReplyBytes(t.value) == s[..start] + s[start..end] + s[end..end + 2];
  }

  lemma PartsOf(head: Bytes, a: Bytes, b: Bytes, rest: Bytes)
    ensures
      var s, i, j := head + a + b + rest, |head| + |a|, |head| + |a| + |b|;
      s[..|head|] == head && s[|head|..i] == a && s[i..j] == b && s[j..] == rest
  {
  }

  /** What stands before the address of a reply. */
  function ReplyHead(reply: Reply): Bytes
    requires WellFormed(reply)
  {
    [5, 0, reply.reserved] +
      match reply.bound
      case V4(_) => [1]
      case Domain(name) => [3, |name|]
      case V6(_) => [4]
  }

  lemma ReplyParts(reply: Reply)
    requires WellFormed(reply)
    ensures
      var address := if reply.bound.Domain? then reply.bound.name else reply.bound.octets;
      ReplyBytes(reply) == ReplyHead(reply) + address + reply.port
  {
  }

  lemma ReplyIsTaken(reply: Reply, rest: Bytes)
    requires WellFormed(reply)
    ensures TakeReply(ReplyBytes(reply) + rest) == Some(Parsed(reply, rest))
  {
    var s := ReplyBytes(reply) + rest;
    var start := if reply.bound.Domain? then 5 else 4;
    var address := if reply.bound.Domain? then reply.bound.name else reply.bound.octets;
    var head := ReplyHead(reply);
    ReplyParts(reply);
    PartsOf(head, address, reply.port, rest);
    assert |head| == start && forall k :: 0 <= k < start ==> s[k] == head[k];
  }

  /** The reply reader takes exactly one well-formed success reply, of any address type, and nothing behind it. */
  lemma TakeReplyIff(s: Bytes, reply: Reply, rest: Bytes)
    ensures TakeReply(s) == Some(Parsed(reply, rest)) <==> WellFormed(reply) && s == ReplyBytes(reply) + rest
  {
    if TakeReply(s) == Some(Parsed(reply, rest)) {
      TakenReply(s);
    } else if WellFormed(reply) && s == ReplyBytes(reply) + rest {
      ReplyIsTaken(reply, rest);
    }
  }

  lemma SessionIsRead(s: Session)
    requires WellFormed(s.reply)
    ensures ReadSession(SessionBytes(s)) == Some(s)
  {
    var select, behind := SelectBytes(s.auth), ReplyBytes(s.reply) + s.tunnelled;
    var incoming := SessionBytes(s);
    assert incoming == select + behind;
    assert incoming[|select|..] == behind;
    ReplyIsTaken(s.reply, s.tunnelled);
    SelectOne(incoming);
    assert select <= incoming;
  }

  lemma PrefixAndRest(prefix: Bytes, s: Bytes)
    requires prefix <= s
    ensures s == prefix + s[|prefix|..]
  {
  }

  lemma SelectThenReply(auth: bool, incoming: Bytes)
    requires SelectBytes(auth) <= incoming && TakeReply(incoming[|SelectBytes(auth)|..]).Some?
    ensures
      var taken := TakeReply(incoming[|SelectBytes(auth)|..]).value;
      WellFormed(taken.value) && incoming == SessionBytes(Session(auth, taken.value, taken.rest))
  {
    PrefixAndRest(SelectBytes(auth), incoming);
    TakenReply(incoming[|SelectBytes(auth)|..]);
  }

  lemma ReadIsSession(incoming: Bytes)
    requires ReadSession(incoming).Some?
    ensures var s := ReadSession(incoming).value; WellFormed(s.reply) && incoming == SessionBytes(s)
  {
    SelectThenReply(SelectBytes(true) <= incoming, incoming);
  }

  /** The handshake reader accepts exactly the sessions a proxy can answer, and can tell them apart. */
  lemma ReadSessionIff(incoming: Bytes, s: Session)
    ensures ReadSession(incoming) == Some(s) <==> WellFormed(s.reply) && incoming == SessionBytes(s)
  {
    if ReadSession(incoming) == Some(s) {
      ReadIsSession(incoming);
    } else if WellFormed(s.reply) && incoming == SessionBytes(s) {
      SessionIsRead(s);
    }
  }

  /** Corollary of `ReadSessionIff`. The method byte is not compared with what was offered: a proxy that asks a client
      without credentials for them is given empty ones. Otherwise the selected method is always one that was offered. */
  lemma UnofferedMethodIsAccepted(reply: Reply, tunnelled: Bytes, host: Bytes, proxy: Proxy, auth: bool)
    requires WellFormed(reply) && |host| <= 255 && CredentialsFit(proxy)
    ensures Accepts(proxy, host, SessionBytes(Session(auth, reply, tunnelled)), 4)
    ensures (if auth then USER_PASS else NO_AUTH) !in Methods(proxy)
       <==> auth && proxy.username.None? && proxy.password.None?
  {
    ReadSessionIff(SessionBytes(Session(auth, reply, tunnelled)), Session(auth, reply, tunnelled));
  }
}
