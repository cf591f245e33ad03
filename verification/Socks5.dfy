/** The client side of a SOCKS5 handshake (RFC 1928 sections 3, 4, 6; RFC 1929 section 2) as the gateway runs it. */
module Socks5 {
  import opened Common
  import A = Addresses
  import Text

  // Bytes of the upstream's answer arrive in chunks of any size, are appended to a buffer, and a loop consumes
  // whatever is complete.

  datatype Stage = Greeting | Auth | Connect

  /** `Failed` carries the SOCKS reply code when the upstream sent one. */
  datatype Outcome = Pending | Failed(code: ErrorCode, reply: Option<byte>) | Done(rest: Bytes)

  /** Stored credentials (empty when absent) and the encoded target address. */
  datatype Config = Config(username: Bytes, password: Bytes, address: Bytes) {
    predicate CanAuthenticate() {
      username != [] && |username| <= 255 && |password| <= 255
    }

    function Request(): Bytes {
      [5, 1, 0] + address
    }

    function AuthMessage(): Bytes
      requires CanAuthenticate()
    {
      [1, |username|] + username + [|password|] + password
    }
  }

  datatype State = State(stage: Stage, buf: Bytes, writes: seq<Bytes>, outcome: Outcome)

  const GREETING: Bytes := [5, 2, 0, 2]

  const INITIAL := State(Greeting, [], [GREETING], Pending)

  /** Length of a CONNECT reply with address type `atyp`, whose fifth byte is `fifth`. */
  function ReplyLength(atyp: byte, fifth: byte): Option<nat> {
    if atyp == 1 then Some(10)
    else if atyp == 4 then Some(22)
    else if atyp == 3 then Some(7 + fifth)
    else None
  }

  /** The loop over the buffer: consume every complete message, stop when more bytes are needed. */
  function Advance(cfg: Config, s: State): State
    decreases |s.buf|
  {
    match s.stage
    case Greeting =>
      if |s.buf| < 2 then s
      else if s.buf[0] != 5 then s.(outcome := Failed(Protocol, None))
      else
        var s' := s.(buf := s.buf[2..]);
        if s.buf[1] == 0 then
          Advance(cfg, s'.(stage := Connect, writes := s.writes + [cfg.Request()]))
        else if s.buf[1] == 2 && cfg.CanAuthenticate() then
          Advance(cfg, s'.(stage := Auth, writes := s.writes + [cfg.AuthMessage()]))
        else s'.(outcome := Failed(AuthFailed, None))
    case Auth =>
      if |s.buf| < 2 then s
      else if s.buf[1] != 0 then s.(outcome := Failed(AuthFailed, None))
      else Advance(cfg, s.(stage := Connect, buf := s.buf[2..], writes := s.writes + [cfg.Request()]))
    case Connect =>
      if |s.buf| < 5 then s
      else if s.buf[1] != 0 then
        s.(outcome := Failed(if s.buf[1] == 1 then Rejected else TargetFailed, Some(s.buf[1])))
      else
        match ReplyLength(s.buf[3], s.buf[4])
        case None => s.(outcome := Failed(Protocol, None))
        case Some(len) => if |s.buf| < len then s else s.(outcome := Done(s.buf[len..]))
  }

  /** One 'data' event. Once the handshake has settled the listener is gone. */
  function Feed(cfg: Config, s: State, chunk: Bytes): State {
    if s.outcome.Pending? then Advance(cfg, s.(buf := s.buf + chunk)) else s
  }

  /** Chunks delivered in order until the handshake settles; also the chunks never delivered to it. */
  function Deliver(cfg: Config, s: State, chunks: seq<Bytes>): (State, seq<Bytes>)
    decreases |chunks|
  {
    if chunks == [] || !s.outcome.Pending? then (s, chunks)
    else Deliver(cfg, Feed(cfg, s, chunks[0]), chunks[1..])
  }

  /** Same progress, and what follows the handshake in `s` followed by `later` is what follows it in `t`. */
  predicate SameHandshake(s: State, later: Bytes, t: State) {
    && s.stage == t.stage
    && s.writes == t.writes
    && match s.outcome
       case Pending => t.outcome.Pending? && s.buf + later == t.buf
       case Failed(_, _) => t.outcome == s.outcome
       case Done(rest) => t.outcome == Done(rest + later)
  }

  /** More bytes behind the buffer never change a decision that the buffered bytes already allow. */
  lemma {:induction false} AdvanceExtends(cfg: Config, s: State, ext: Bytes)
    requires s.outcome.Pending?
    ensures var a := Advance(cfg, s);
            var b := Advance(cfg, s.(buf := s.buf + ext));
            if a.outcome.Pending? then b == Advance(cfg, a.(buf := a.buf + ext)) else SameHandshake(a, ext, b)
    decreases |s.buf|
  {
    var t := s.buf + ext;
    if s.stage.Greeting? && |s.buf| >= 2 && s.buf[0] == 5 {
      assert t[2..] == s.buf[2..] + ext;
      var s' := s.(buf := s.buf[2..]);
      if s.buf[1] == 0 {
        AdvanceExtends(cfg, s'.(stage := Connect, writes := s.writes + [cfg.Request()]), ext);
      } else if s.buf[1] == 2 && cfg.CanAuthenticate() {
        AdvanceExtends(cfg, s'.(stage := Auth, writes := s.writes + [cfg.AuthMessage()]), ext);
      }
    } else if s.stage.Auth? && |s.buf| >= 2 && s.buf[1] == 0 {
      assert t[2..] == s.buf[2..] + ext;
      AdvanceExtends(cfg, s.(stage := Connect, buf := s.buf[2..], writes := s.writes + [cfg.Request()]), ext);
    } else if s.stage.Connect? && |s.buf| >= 5 {
      var len := ReplyLength(s.buf[3], s.buf[4]);
      if len.Some? && len.value <= |s.buf| {
        assert t[len.value..] == s.buf[len.value..] + ext;
      }
    }
  }

  /** A quiescent state stays as it is. */
  lemma {:induction false} AdvanceIdempotent(cfg: Config, s: State)
    requires s.outcome.Pending?
    ensures Advance(cfg, s).outcome.Pending? ==> Advance(cfg, Advance(cfg, s)) == Advance(cfg, s)
    decreases |s.buf|
  {
    assert s.buf + [] == s.buf;
    var a := Advance(cfg, s);
    assert a.buf + [] == a.buf;
    AdvanceExtends(cfg, s, []);
  }

  /** Delivering chunks from a quiescent pending state equals delivering them glued together. */
  lemma {:induction false} DeliverJoined(cfg: Config, s: State, chunks: seq<Bytes>)
    requires s.outcome.Pending? && Advance(cfg, s) == s
    ensures var (t, left) := Deliver(cfg, s, chunks);
            SameHandshake(t, Flatten(left), Feed(cfg, s, Flatten(chunks)))
    decreases |chunks|
  {
    if chunks == [] {
      assert s.buf + [] == s.buf;
    } else {
      var first, others := chunks[0], Flatten(chunks[1..]);
      var mid := Feed(cfg, s, first);
      assert s.buf + (first + others) == (s.buf + first) + others;
      AdvanceExtends(cfg, s.(buf := s.buf + first), others);
      if mid.outcome.Pending? {
        AdvanceIdempotent(cfg, s.(buf := s.buf + first));
        DeliverJoined(cfg, mid, chunks[1..]);
      } else {
        assert Deliver(cfg, mid, chunks[1..]) == (mid, chunks[1..]);
      }
    }
  }

  /**
   The handshake does not depend on how the stream is cut: for every list of chunks, the stage reached,
   the messages written and the verdict are those for the whole stream in one chunk, and on success the
   bytes pushed back plus the chunks not yet delivered are exactly the stream after the handshake.
   */
  lemma ChunkingIndependent(cfg: Config, chunks: seq<Bytes>)
    ensures var (t, left) := Deliver(cfg, INITIAL, chunks);
            SameHandshake(t, Flatten(left), Feed(cfg, INITIAL, Flatten(chunks)))
  {
    DeliverJoined(cfg, INITIAL, chunks);
  }

  /** A successful CONNECT reply of RFC 1928 section 6 with any of the three bound-address types. */
  predicate IsReply(r: Bytes) {
    && |r| >= 5
    && r[1] == 0
    && (|| (r[3] == 1 && |r| == 10)
        || (r[3] == 4 && |r| == 22)
        || (r[3] == 3 && |r| == 7 + (r[4] as int)))
  }

  /** The server's half of a successful handshake without authentication. */
  predicate OpenHandshake(h: Bytes) {
    |h| >= 2 && h[..2] == [5, 0] && IsReply(h[2..])
  }

  /** The server's half of a successful handshake with username and password. */
  predicate AuthHandshake(h: Bytes) {
    |h| >= 4 && h[..2] == [5, 2] && h[3] == 0 && IsReply(h[4..])
  }

  /** The verdict read off the whole stream by position, without any state. */
  function Verdict(cfg: Config, stream: Bytes): Outcome {
    if |stream| < 2 then Pending
    else if stream[0] != 5 then Failed(Protocol, None)
    else if stream[1] == 0 then ReplyVerdict(stream, 2)
    else if stream[1] != 2 || !cfg.CanAuthenticate() then Failed(AuthFailed, None)
    else if |stream| < 4 then Pending
    else if stream[3] != 0 then Failed(AuthFailed, None)
    else ReplyVerdict(stream, 4)
  }

  function ReplyVerdict(stream: Bytes, at: nat): Outcome
    requires at <= |stream|
  {
    if |stream| < at + 5 then Pending
    else if stream[at + 1] == 1 then Failed(Rejected, Some(1))
    else if stream[at + 1] != 0 then Failed(TargetFailed, Some(stream[at + 1]))
    else if stream[at + 3] !in {1, 3, 4} then Failed(Protocol, None)
    else
      var end := at + (if stream[at + 3] == 1 then 10 else if stream[at + 3] == 4 then 22 else 7 + (stream[at + 4] as int));
      if |stream| < end then Pending else Done(stream[end..])
  }

  /** Messages the client has written by the time it has seen `stream`. */
  function Written(cfg: Config, stream: Bytes): seq<Bytes> {
    if |stream| < 2 || stream[0] != 5 then [GREETING]
    else if stream[1] == 0 then [GREETING, cfg.Request()]
    else if stream[1] != 2 || !cfg.CanAuthenticate() then [GREETING]
    else if |stream| < 4 || stream[3] != 0 then [GREETING, cfg.AuthMessage()]
    else [GREETING, cfg.AuthMessage(), cfg.Request()]
  }

  lemma ConnectVerdict(cfg: Config, s: State, stream: Bytes, at: nat)
    requires at <= |stream| && s.stage.Connect? && s.outcome.Pending? && s.buf == stream[at..]
    ensures Advance(cfg, s).outcome == ReplyVerdict(stream, at)
    ensures Advance(cfg, s).writes == s.writes
  {
    if |s.buf| >= 5 && s.buf[1] == 0 {
      var len := ReplyLength(s.buf[3], s.buf[4]);
      if len.Some? && len.value <= |s.buf| {
        assert s.buf[len.value..] == stream[at + len.value..];
      }
    }
  }

  lemma StreamVerdict(cfg: Config, stream: Bytes)
    ensures Feed(cfg, INITIAL, stream).outcome == Verdict(cfg, stream)
    ensures Feed(cfg, INITIAL, stream).writes == Written(cfg, stream)
  {
    var s := INITIAL.(buf := stream);
    assert INITIAL.buf + stream == stream;
    assert Feed(cfg, INITIAL, stream) == Advance(cfg, s);
    if |stream| >= 2 && stream[0] == 5 {
      var s' := s.(buf := stream[2..]);
      if stream[1] == 0 {
        ConnectVerdict(cfg, s'.(stage := Connect, writes := s.writes + [cfg.Request()]), stream, 2);
      } else if stream[1] == 2 && cfg.CanAuthenticate() {
        var t := s'.(stage := Auth, writes := s.writes + [cfg.AuthMessage()]);
        assert Advance(cfg, s) == Advance(cfg, t);
        if |stream| >= 4 && stream[3] == 0 {
          assert t.buf[2..] == stream[4..];
          ConnectVerdict(cfg, t.(stage := Connect, buf := t.buf[2..], writes := t.writes + [cfg.Request()]), stream, 4);
        }
      }
    }
  }

  /** However the stream is cut, the verdict and the messages written are functions of the bytes alone. */
  lemma ChunkedVerdict(cfg: Config, chunks: seq<Bytes>)
    ensures var (t, left) := Deliver(cfg, INITIAL, chunks);
            && t.writes == Written(cfg, Flatten(chunks))
            && match t.outcome
               case Done(rest) => Verdict(cfg, Flatten(chunks)) == Done(rest + Flatten(left))
               case o => Verdict(cfg, Flatten(chunks)) == o
  {
    ChunkingIndependent(cfg, chunks);
    StreamVerdict(cfg, Flatten(chunks));
  }

  /** A well-formed reply behind `at` bytes is accepted, with whatever follows it as the rest. */
  lemma ReplyIsAccepted(stream: Bytes, at: nat, n: nat)
    requires at <= n <= |stream| && IsReply(stream[at..n])
    ensures ReplyVerdict(stream, at) == Done(stream[n..])
  {
    assert forall i :: 0 <= i < n - at ==> stream[at..n][i] == stream[at + i];
  }

  /** And nothing else is. */
  lemma AcceptedIsReply(stream: Bytes, at: nat, n: nat)
    requires at <= |stream| && n <= |stream| && ReplyVerdict(stream, at) == Done(stream[n..])
    ensures at <= n && IsReply(stream[at..n])
  {
    var end := at + (if stream[at + 3] == 1 then 10 else if stream[at + 3] == 4 then 22 else 7 + (stream[at + 4] as int));
    assert |stream[end..]| == |stream[n..]|;
    assert end == n;
    assert forall i :: 0 <= i < n - at ==> stream[at..n][i] == stream[at + i];
  }

  /** The client accepts exactly the streams that start with a well-formed handshake, and keeps the rest. */
  lemma AcceptsExactlyHandshakes(cfg: Config, stream: Bytes, n: nat)
    requires n <= |stream|
    ensures Verdict(cfg, stream) == Done(stream[n..])
       <==> OpenHandshake(stream[..n]) || (cfg.CanAuthenticate() && AuthHandshake(stream[..n]))
  {
    var h := stream[..n];
    if n >= 2 {
      assert h[..2] == [stream[0], stream[1]] && h[2..] == stream[2..n];
    }
    if n >= 4 {
      assert h[3] == stream[3] && h[4..] == stream[4..n];
    }
    if OpenHandshake(h) {
      ReplyIsAccepted(stream, 2, n);
    } else if cfg.CanAuthenticate() && AuthHandshake(h) {
      ReplyIsAccepted(stream, 4, n);
    } else if Verdict(cfg, stream) == Done(stream[n..]) {
      AcceptedIsReply(stream, if stream[1] == 0 then 2 else 4, n);
    }
  }

  /** Reading an RFC 1929 request: version, then two length-prefixed fields and nothing after them. */
  function ParseAuthMessage(m: Bytes): Option<(Bytes, Bytes)> {
    if |m| < 2 || m[0] != 1 || |m| < 3 + (m[1] as int) then None
    else
      var ulen: int := m[1];
      var plen: int := m[2 + ulen];
      if |m| != 3 + ulen + plen then None else Some((m[2..2 + ulen], m[3 + ulen..]))
  }

  /** What the client sends in the authentication stage reads back as the stored credentials. */
  lemma AuthMessageReadsBack(cfg: Config)
    requires cfg.CanAuthenticate()
    ensures ParseAuthMessage(cfg.AuthMessage()) == Some((cfg.username, cfg.password))
  {
    var m := cfg.AuthMessage();
    var u := |cfg.username|;
    assert m[2 + u] == |cfg.password|;
    assert m[2..2 + u] == cfg.username;
    assert m[3 + u..] == cfg.password;
  }

  /** Reading a greeting by section 3 of RFC 1928: version, then the methods offered and nothing after them. */
  function ReadGreeting(m: Bytes): Option<set<byte>> {
    if |m| < 2 || m[0] != 5 || |m| != 2 + m[1] as int then None else Some(set b | b in m[2..])
  }

  const NO_AUTHENTICATION: byte := 0
  const USERNAME_PASSWORD: byte := 2

  lemma GreetingReadsBack()
    ensures ReadGreeting(GREETING) == Some({NO_AUTHENTICATION, USERNAME_PASSWORD})
  {
    var methods := ReadGreeting(GREETING).value;
    assert NO_AUTHENTICATION == GREETING[2..][0] && USERNAME_PASSWORD == GREETING[2..][1];
    forall b ensures b in methods <==> b in {NO_AUTHENTICATION, USERNAME_PASSWORD} {
      if b in methods {
        var k :| 0 <= k < 2 && GREETING[2..][k] == b;
      }
    }
    assert methods == {NO_AUTHENTICATION, USERNAME_PASSWORD};
  }

  datatype Command = CONNECT | BIND | ASSOCIATE

  function CommandOf(code: byte): Option<Command> {
    if code == 1 then Some(CONNECT) else if code == 2 then Some(BIND) else if code == 3 then Some(ASSOCIATE) else None
  }

  /** Reading a request by section 4 of RFC 1928: version, command, a reserved zero, address and port. */
  function ReadRequest(m: Bytes): Option<(Command, A.Target, A.Port)> {
    if |m| < 3 || m[0] != 5 || m[2] != 0 then None
    else
      match (CommandOf(m[1]), A.Decode(m[3..]))
      case (Some(command), Some((target, port))) => Some((command, target, port))
      case _ => None
  }

  /** The request asks to connect to whatever its address says, and says nothing else. */
  lemma RequestReadsBack(cfg: Config)
    ensures ReadRequest(cfg.Request())
         == match A.Decode(cfg.address)
            case None => None
            case Some((target, port)) => Some((CONNECT, target, port))
  {
    assert cfg.Request()[3..] == cfg.address;
  }

  /** The request for a host and a port. */
  predicate AsksFor(cfg: Config, host: A.Host, port: A.Port) {
    A.SocksAddress(host, port) == Some(cfg.address)
  }

  lemma RequestForIpv4(cfg: Config, octets: Bytes, port: A.Port)
    requires |octets| == 4 && AsksFor(cfg, A.V4(Text.Join(A.Octets(octets), '.')), port)
    ensures ReadRequest(cfg.Request()) == Some((CONNECT, A.Ipv4(octets), port))
  {
    A.Ipv4TargetReadsBack(octets, port);
    RequestReadsBack(cfg);
  }

  /** An IPv6 target is asked for as spelled exactly when the gateway can read the spelling. */
  lemma RequestForIpv6(cfg: Config, a: A.Spelling, port: A.Port)
    requires a.Legal() && AsksFor(cfg, A.V6(a.Text()), port)
    ensures ReadRequest(cfg.Request()) == Some((CONNECT, A.Ipv6(A.BigEndian(a.Denotes())), port)) <==> A.Readable(a)
  {
    A.Ipv6TargetReadsBack(a, port);
    RequestReadsBack(cfg);
  }

  /** A name is asked for as given exactly when it has at most 255 bytes. */
  lemma RequestForName(cfg: Config, name: Bytes, port: A.Port)
    requires AsksFor(cfg, A.Name(name), port)
    ensures ReadRequest(cfg.Request()) == Some((CONNECT, A.Domain(name), port)) <==> |name| <= 255
  {
    A.DomainTargetReadsBack(name, port);
    RequestReadsBack(cfg);
  }

  /** Credentials as a server reads them out of a message. */
  predicate Authenticates(cfg: Config, m: Bytes) {
    ParseAuthMessage(m) == Some((cfg.username, cfg.password))
  }

  predicate Connects(cfg: Config, m: Bytes) {
    match A.Decode(cfg.address)
    case None => ReadRequest(m) == None
    case Some((target, port)) => ReadRequest(m) == Some((CONNECT, target, port))
  }

  /** The server wants no authentication, or a name and a password that there are. */
  predicate ChoseNone(stream: Bytes) {
    |stream| >= 2 && stream[0] == 5 && stream[1] == 0
  }

  predicate ChosePassword(cfg: Config, stream: Bytes) {
    |stream| >= 2 && stream[0] == 5 && stream[1] == 2 && cfg.username != [] && |cfg.username| <= 255 && |cfg.password| <= 255
  }

  /**
   What the server has been sent when it has answered `stream`, as it reads it: a greeting that offers exactly
   the two methods; the credentials if it chose them; and the request to connect once it has let the client in.
   */
  ghost predicate SaysRight(cfg: Config, stream: Bytes, writes: seq<Bytes>) {
    && |writes| >= 1 && ReadGreeting(writes[0]) == Some({NO_AUTHENTICATION, USERNAME_PASSWORD})
    && if ChoseNone(stream) then |writes| == 2 && Connects(cfg, writes[1])
       else if ChosePassword(cfg, stream) then
         && 2 <= |writes| <= 3 && Authenticates(cfg, writes[1])
         && (|writes| == 3 <==> |stream| >= 4 && stream[3] == 0)
         && (|writes| == 3 ==> Connects(cfg, writes[2]))
       else |writes| == 1
  }

  lemma MessagesSayRight(cfg: Config, stream: Bytes)
    ensures SaysRight(cfg, stream, Written(cfg, stream))
  {
    GreetingReadsBack();
    RequestReadsBack(cfg);
    if cfg.CanAuthenticate() {
      AuthMessageReadsBack(cfg);
    }
  }

  /** The handler attached to the upstream socket. */
  class Client {
    const cfg: Config
    var stage: Stage
    var buf: Bytes
    var writes: seq<Bytes>
    var outcome: Outcome

    constructor (cfg: Config)
      ensures this.cfg == cfg && Model() == INITIAL
    {
      this.cfg := cfg;
      stage, buf, writes, outcome := Greeting, [], [GREETING], Pending;
    }

    function Model(): State
      reads this
    {
      State(stage, buf, writes, outcome)
    }

    method OnData(chunk: Bytes)
      modifies this
      ensures Model() == Feed(cfg, old(Model()), chunk)
    {
      if outcome != Pending {
        return;
      }
      buf := buf + chunk;
      ghost var start := Model();
      while true
        invariant outcome.Pending? && Advance(cfg, Model()) == Advance(cfg, start)
        decreases |buf|
      {
        if stage == Greeting {
          if |buf| < 2 { return; }
          if buf[0] != 5 {
            outcome := Failed(Protocol, None);
            return;
          }
          var choice := buf[1];
          buf := buf[2..];
          if choice == 0 {
            stage, writes := Connect, writes + [cfg.Request()];
          } else if choice == 2 {
            if !cfg.CanAuthenticate() {
              outcome := Failed(AuthFailed, None);
              return;
            }
            stage, writes := Auth, writes + [cfg.AuthMessage()];
          } else {
            outcome := Failed(AuthFailed, None);
            return;
          }
        } else if stage == Auth {
          if |buf| < 2 { return; }
          if buf[1] != 0 {
            outcome := Failed(AuthFailed, None);
            return;
          }
          buf, stage, writes := buf[2..], Connect, writes + [cfg.Request()];
        } else {
          if |buf| < 5 { return; }
          if buf[1] != 0 {
            outcome := Failed(if buf[1] == 1 then Rejected else TargetFailed, Some(buf[1]));
            return;
          }
          var len := ReplyLength(buf[3], buf[4]);
          if len == None {
            outcome := Failed(Protocol, None);
            return;
          }
          if |buf| < len.value { return; }
          outcome := Done(buf[len.value..]);
          return;
        }
      }
    }
  }

  /** A whole handshake: the socket's chunks in order, until the client settles. */
  method Handshake(cfg: Config, chunks: seq<Bytes>) returns (outcome: Outcome, writes: seq<Bytes>, delivered: nat)
    ensures delivered <= |chunks| && writes == Written(cfg, Flatten(chunks))
    ensures SaysRight(cfg, Flatten(chunks), writes)
    ensures match outcome
            case Done(rest) => Verdict(cfg, Flatten(chunks)) == Done(rest + Flatten(chunks[delivered..]))
            case o => Verdict(cfg, Flatten(chunks)) == o
  {
    var client := new Client(cfg);
    delivered := 0;
    assert chunks[0..] == chunks;
    while delivered < |chunks| && client.outcome == Pending
      invariant delivered <= |chunks| && client.cfg == cfg
      invariant Deliver(cfg, INITIAL, chunks) == Deliver(cfg, client.Model(), chunks[delivered..])
    {
      client.OnData(chunks[delivered]);
      assert chunks[delivered..][1..] == chunks[delivered + 1..];
      delivered := delivered + 1;
    }
    outcome, writes := client.outcome, client.writes;
    ChunkedVerdict(cfg, chunks);
    MessagesSayRight(cfg, Flatten(chunks));
  }
}
