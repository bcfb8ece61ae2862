/** A ServerQuery session (internal/ts3/client.go). The established channel is
    abstract: the reader is the sequence of results its `ReadString('\n')`
    calls will give, and the writer a log of the command lines it accepted. */
module Ts3Client {
  import opened Errors
  import opened GoStrings
  import opened Ts3Protocol

  /** One result of `reader.ReadString('\n')`: a line, or an I/O failure
      (a closed stream, an expired deadline) with its reason. A failed read
      can only ever surface as an `IoFailure`, never as a server error. */
  datatype ReadResult = Line(text: string) | ReadError(reason: string)

  /** The resources a client may hold, in the order `Close` releases them. */
  datatype Resource = SshSession | SshClient | Conn

  /** A channel as dialing (TCP) or the SSH shell setup leaves it: what the
      server will send, and the failure every write meets, if any. */
  datatype Link = Link(incoming: seq<ReadResult>, writeFault: Option<Error>)

  /** `fmt.Sprintf("%s:%d", host, port)`. */
  function Address(host: string, port: int): string
  {
    host + ":" + IntToString(port)
  }

  /** An empty protocol name means TCP. */
  function EffectiveProto(proto: string): string
  {
    if proto == "" then "tcp" else proto
  }

  /** What the client holds once connected: an SSH session and client for
      "ssh", a raw connection for anything else. */
  function HeldResources(proto: string): set<Resource>
  {
    if proto == "ssh" then {SshSession, SshClient} else {Conn}
  }

  /** Position of a resource in the teardown sequence. */
  function Rank(r: Resource): nat
  {
    match r
    case SshSession => 0
    case SshClient => 1
    case Conn => 2
  }

  /** `Close` releases the SSH session, then the SSH client, then the connection,
      skipping those the client does not hold. */
  function CloseOrder(held: set<Resource>): seq<Resource>
  {
    var tail := if Conn in held then [Conn] else [];
    var mid := if SshClient in held then [SshClient] + tail else tail;
    if SshSession in held then [SshSession] + mid else mid
  }

  /** Teardown releases exactly the held resources, each once, session before
      client before connection. */
  lemma CloseOrderReleasesHeld(held: set<Resource>)
    ensures forall r :: r in CloseOrder(held) <==> r in held
    ensures forall i, j :: 0 <= i < j < |CloseOrder(held)| ==> Rank(CloseOrder(held)[i]) < Rank(CloseOrder(held)[j])
  {
    forall r ensures r in CloseOrder(held) <==> r in held {
      match r
      case SshSession =>
      case SshClient =>
      case Conn =>
    }
  }

  /** A trimmed line that ends a response. */
  predicate IsTerminator(line: string)
  {
    HasPrefix(line, "error id=")
  }

  /** The value of the last part that starts with `prefix`, or "" when no part does. */
  function LastValue(parts: seq<string>, prefix: string): string
  {
    if parts == [] then ""
    else if HasPrefix(parts[|parts| - 1], prefix) then parts[|parts| - 1][|prefix|..]
    else LastValue(parts[..|parts| - 1], prefix)
  }

  /** With no part carrying the prefix the value is "", otherwise it is the
      rest of the last part that does. */
  lemma {:induction false} LastValueIsLast(parts: seq<string>, prefix: string, j: int)
    requires -1 <= j < |parts|
    requires j >= 0 ==> HasPrefix(parts[j], prefix)
    requires forall l :: j < l < |parts| ==> !HasPrefix(parts[l], prefix)
    ensures LastValue(parts, prefix) == if j < 0 then "" else parts[j][|prefix|..]
  {
    if parts != [] && j < |parts| - 1 {
      var init := parts[..|parts| - 1];
      forall l | j < l < |init| ensures !HasPrefix(init[l], prefix) {
        assert init[l] == parts[l];
      }
      if j >= 0 {
        assert init[j] == parts[j];
      }
      LastValueIsLast(init, prefix, j);
    }
  }

  /** The `id=` and `msg=` values of a terminator line, read left to right as
      the Go loop does; a later token overrides an earlier one. */
  method StatusFields(line: string) returns (id: string, msg: string)
    ensures id == LastValue(Split(line, ' '), "id=")
    ensures msg == LastValue(Split(line, ' '), "msg=")
  {
    var parts := Split(line, ' ');
    id, msg := "", "";
    for i := 0 to |parts|
      invariant id == LastValue(parts[..i], "id=")
      invariant msg == LastValue(parts[..i], "msg=")
    {
      assert parts[..i + 1][..i] == parts[..i];
      if HasPrefix(parts[i], "id=") {
        id := parts[i][3..];
      }
      if HasPrefix(parts[i], "msg=") {
        msg := parts[i][4..];
      }
    }
    assert parts[..|parts|] == parts;
  }

  /** The outcome a terminator line announces for the accumulated body:
      success exactly when the id is the string "0". */
  function Status(line: string, body: string): Result<string>
  {
    var parts := Split(line, ' ');
    var id := LastValue(parts, "id=");
    if id != "0" then Err(ServerError(id, Unescape(LastValue(parts, "msg="))))
    else Ok(body)
  }

  /** One `strings.Builder` step: a newline goes in only when the builder
      already holds something. */
  function AppendLine(acc: string, line: string): string
  {
    if |acc| > 0 then acc + "\n" + line else acc + line
  }

  /** Reading a response from `incoming` with `acc` already accumulated: the
      outcome and the reads left over. An exhausted reader fails like a
      closed stream. */
  function Scan(incoming: seq<ReadResult>, acc: string): (Result<string>, seq<ReadResult>)
    decreases |incoming|
  {
    if incoming == [] then (Err(IoFailure("EOF")), [])
    else
      match incoming[0]
      case ReadError(reason) => (Err(IoFailure(reason)), incoming[1..])
      case Line(text) =>
        var line := TrimSpace(text);
        if IsTerminator(line) then (Status(line, acc), incoming[1..])
        else Scan(incoming[1..], AppendLine(acc, line))
  }

  /** The effect of `Execute(cmd)` on a channel. */
  datatype Exchange = Exchange(result: Result<string>, rest: seq<ReadResult>, sent: seq<string>)

  /** `Execute` as a value: a failed write returns at once and reads nothing;
      otherwise `cmd` and a newline are written and a response is read. */
  function Execution(cmd: string, incoming: seq<ReadResult>, writeFault: Option<Error>, sent: seq<string>): Exchange
  {
    match writeFault
    case Some(e) => Exchange(Err(e), incoming, sent)
    case None =>
      var (r, rest) := Scan(incoming, "");
      Exchange(r, rest, sent + [cmd + "\n"])
  }

  /** The trimmed text of each data line. */
  function Trimmed(lines: seq<ReadResult>): seq<string>
    requires forall i :: 0 <= i < |lines| ==> lines[i].Line?
  {
    seq(|lines|, i requires 0 <= i < |lines| => TrimSpace(lines[i].text))
  }

  /** A data line of a response: read successfully and not a terminator. */
  predicate IsData(r: ReadResult)
  {
    r.Line? && !IsTerminator(TrimSpace(r.text))
  }

  /** The lines that are all data lines. */
  predicate AllData(lines: seq<ReadResult>)
  {
    forall i :: 0 <= i < |lines| ==> IsData(lines[i])
  }

  /** Number of data lines at the head of `incoming`. */
  function DataPrefix(incoming: seq<ReadResult>): (n: nat)
    ensures n <= |incoming| && AllData(incoming[..n])
    ensures n < |incoming| ==> !IsData(incoming[n])
  {
    if incoming == [] then 0
    else if IsData(incoming[0]) then
      var m := DataPrefix(incoming[1..]);
      assert incoming[..m + 1] == [incoming[0]] + incoming[1..][..m];
      m + 1
    else
      0
  }

  /** Leading empty lines dropped. */
  function DropLeadingEmpty(lines: seq<string>): seq<string>
    decreases |lines|
  {
    if lines == [] || lines[0] != "" then lines else DropLeadingEmpty(lines[1..])
  }

  /** The builder fold over data lines. */
  function Build(acc: string, lines: seq<string>): string
    decreases lines
  {
    if lines == [] then acc else Build(AppendLine(acc, lines[0]), lines[1..])
  }

  lemma {:induction false} BuildAfterText(acc: string, lines: seq<string>)
    requires acc != ""
    ensures Build(acc, lines) == if lines == [] then acc else acc + "\n" + Join(lines, '\n')
    decreases lines
  {
    if lines != [] {
      var next := acc + "\n" + lines[0];
      assert AppendLine(acc, lines[0]) == next;
      assert Build(acc, lines) == Build(next, lines[1..]);
      BuildAfterText(next, lines[1..]);
      if |lines| > 1 {
        assert Join(lines, '\n') == lines[0] + ['\n'] + Join(lines[1..], '\n');
        assert next + "\n" + Join(lines[1..], '\n') == acc + "\n" + (lines[0] + ['\n'] + Join(lines[1..], '\n'));
      }
    }
  }

  /** The body is the data lines joined by newlines once leading empty lines
      are dropped; every later empty line is kept. */
  lemma {:induction false} BuildFromEmpty(lines: seq<string>)
    ensures Build("", lines) == Join(DropLeadingEmpty(lines), '\n')
  {
    if lines != [] {
      assert Build("", lines) == Build(AppendLine("", lines[0]), lines[1..]);
      if lines[0] == "" {
        assert AppendLine("", lines[0]) == "";
        BuildFromEmpty(lines[1..]);
      } else {
        assert AppendLine("", lines[0]) == lines[0];
        BuildAfterText(lines[0], lines[1..]);
        if |lines| > 1 {
          assert Join(lines, '\n') == lines[0] + ['\n'] + Join(lines[1..], '\n');
        }
      }
    }
  }

  lemma {:induction false} ScanData(incoming: seq<ReadResult>, acc: string, n: nat)
    requires n <= |incoming| && AllData(incoming[..n])
    ensures Scan(incoming, acc) == Scan(incoming[n..], Build(acc, Trimmed(incoming[..n])))
  {
    if n > 0 {
      var line := TrimSpace(incoming[0].text);
      assert incoming[..n][0] == incoming[0];
      var tail := incoming[1..];
      assert tail[..n - 1] == incoming[1..n];
      assert AllData(tail[..n - 1]) by {
        forall i | 0 <= i < n - 1 ensures IsData(tail[i]) {
          assert tail[i] == incoming[..n][i + 1];
        }
      }
      ScanData(tail, AppendLine(acc, line), n - 1);
      assert tail[n - 1..] == incoming[n..];
      var ts := Trimmed(incoming[..n]);
      assert ts[0] == line;
      assert ts[1..] == Trimmed(tail[..n - 1]);
    } else {
      assert incoming[0..] == incoming;
    }
  }

  /** Response framing, completely: reading stops at the first read failure or
      the first terminator after the data lines. A failure (or an exhausted
      reader) is returned as it is; a terminator decides success by its id,
      and on success the body is built from the data lines only, never from
      the terminator. Everything after the stopping point stays unread. */
  lemma ScanFraming(incoming: seq<ReadResult>)
    ensures DataPrefix(incoming) == |incoming| ==> Scan(incoming, "") == (Err(IoFailure("EOF")), [])
    ensures var n := DataPrefix(incoming);
      n < |incoming| && incoming[n].ReadError? ==> Scan(incoming, "") == (Err(IoFailure(incoming[n].reason)), incoming[n + 1..])
    ensures var n := DataPrefix(incoming);
      n < |incoming| && incoming[n].Line? ==>
        && IsTerminator(TrimSpace(incoming[n].text))
        && Scan(incoming, "") == (Status(TrimSpace(incoming[n].text), HeadBody(incoming)), incoming[n + 1..])
  {
    var n := DataPrefix(incoming);
    ScanAtHead(incoming);
    if n < |incoming| {
      StopAt(incoming[n..], HeadBody(incoming));
      assert incoming[n..][1..] == incoming[n + 1..];
    }
  }

  /** Reading runs over the data lines at the head without stopping. */
  lemma ScanAtHead(incoming: seq<ReadResult>)
    ensures Scan(incoming, "") == Scan(incoming[DataPrefix(incoming)..], HeadBody(incoming))
  {
    var n := DataPrefix(incoming);
    ScanData(incoming, "", n);
    BuildFromEmpty(Trimmed(incoming[..n]));
  }

  /** Reading stops at a read failure or a terminator. */
  lemma StopAt(rest: seq<ReadResult>, body: string)
    requires rest != [] && !IsData(rest[0])
    ensures rest[0].ReadError? ==> Scan(rest, body) == (Err(IoFailure(rest[0].reason)), rest[1..])
    ensures rest[0].Line? ==>
      && IsTerminator(TrimSpace(rest[0].text))
      && Scan(rest, body) == (Status(TrimSpace(rest[0].text), body), rest[1..])
  {
  }

  /** The body the data lines at the head of `incoming` make: trimmed, leading
      empty lines dropped, joined by newlines. */
  function HeadBody(incoming: seq<ReadResult>): string
  {
    var n := DataPrefix(incoming);
    Join(DropLeadingEmpty(Trimmed(incoming[..n])), '\n')
  }

  /** Success exactly when the terminator's id is "0"; otherwise the error
      carries the id and the unescaped message, and the body is dropped. */
  lemma StatusMeaning(line: string, body: string)
    ensures Status(line, body).Ok? <==> LastValue(Split(line, ' '), "id=") == "0"
    ensures Status(line, body).Ok? ==> Status(line, body).value == body
    ensures Status(line, body).Err? ==>
      (Status(line, body).error ==
        ServerError(LastValue(Split(line, ' '), "id="), Unescape(LastValue(Split(line, ' '), "msg="))))
  {
  }

  /** A terminator written as `error id=<id> msg=<msg>` (neither value holding
      a space) succeeds exactly when the id is "0"; otherwise it reports that
      id and the unescaped message. */
  lemma TerminatorOutcome(id: string, msg: string, body: string)
    requires ' ' !in id && ' ' !in msg
    ensures IsTerminator("error id=" + id + " msg=" + msg)
    ensures Status("error id=" + id + " msg=" + msg, body)
      == if id == "0" then Ok(body) else Err(ServerError(id, Unescape(msg)))
  {
    var line := "error id=" + id + " msg=" + msg;
    assert line[..9] == "error id=";
    TerminatorSplits(id, msg);
    StatusOfWords(line, body, id, msg);
  }

  /** The terminator's words. */
  lemma TerminatorSplits(id: string, msg: string)
    requires ' ' !in id && ' ' !in msg
    ensures Split("error id=" + id + " msg=" + msg, ' ') == ["error", "id=" + id, "msg=" + msg]
  {
    var parts := ["error", "id=" + id, "msg=" + msg];
    assert "error id=" + id + " msg=" + msg == parts[0] + [' '] + parts[1] + [' '] + parts[2];
    SplitThree(parts[0], parts[1], parts[2], ' ');
  }

  /** The status of a line whose words are `error`, `id=<id>`, `msg=<msg>`. */
  lemma StatusOfWords(line: string, body: string, id: string, msg: string)
    requires Split(line, ' ') == ["error", "id=" + id, "msg=" + msg]
    ensures Status(line, body) == if id == "0" then Ok(body) else Err(ServerError(id, Unescape(msg)))
  {
    var parts := Split(line, ' ');
    assert !HasPrefix(parts[2], "id=") by { assert parts[2][..3][0] == 'm'; }
    assert parts[1][3..] == id;
    assert parts[2][4..] == msg;
    LastValueIsLast(parts, "id=", 1);
    LastValueIsLast(parts, "msg=", 2);
  }

  /** The login command of the TCP handshake. */
  function LoginCommand(user: string, pass: string): string
  {
    "login " + Escape(user) + " " + Escape(pass)
  }

  /** Credentials survive the wire: the command splits into exactly three
      words and the last two unescape to the user name and the password,
      whatever spaces or separators they hold. */
  lemma LoginCommandParses(user: string, pass: string)
    ensures var parts := Split(LoginCommand(user, pass), ' ');
      |parts| == 3 && parts[0] == "login" && Unescape(parts[1]) == user && Unescape(parts[2]) == pass
  {
    EscapeHasNoRawSeparators(user);
    EscapeHasNoRawSeparators(pass);
    assert ' ' !in Escape(user) by {
      forall i | 0 <= i < |Escape(user)| ensures Escape(user)[i] != ' ' { }
    }
    assert ' ' !in Escape(pass) by {
      forall i | 0 <= i < |Escape(pass)| ensures Escape(pass)[i] != ' ' { }
    }
    var words := ["login", Escape(user), Escape(pass)];
    JoinThree("login", Escape(user), Escape(pass), ' ');
    assert Join(words, ' ') == LoginCommand(user, pass);
    assert ' ' !in words[0];
    SplitJoin(words, ' ');
    UnescapeEscape(user);
    UnescapeEscape(pass);
  }

  /** The effect of the TCP part of `connect`. */
  datatype Handshake = Handshake(err: Option<Error>, rest: seq<ReadResult>, sent: seq<string>, closed: bool)

  /** The TCP handshake as a value: banner line 1 must be read (otherwise the
      client is closed and the read error returned), banner line 2 is read and
      any failure ignored, then `login` runs through `Execute`; a login error
      closes the client and is wrapped as `login failed`. */
  function TcpHandshake(incoming: seq<ReadResult>, writeFault: Option<Error>, sent: seq<string>,
                        user: string, pass: string): Handshake
  {
    if incoming == [] then Handshake(Some(IoFailure("EOF")), [], sent, true)
    else
      match incoming[0]
      case ReadError(reason) => Handshake(Some(IoFailure(reason)), incoming[1..], sent, true)
      case Line(_) =>
        var afterBanner := if |incoming| == 1 then [] else incoming[2..];
        var x := Execution(LoginCommand(user, pass), afterBanner, writeFault, sent);
        match x.result
        case Err(e) => Handshake(Some(LoginFailed(e)), x.rest, x.sent, true)
        case Ok(_) => Handshake(None, x.rest, x.sent, false)
  }

  /** The handshake succeeds exactly when the first banner line arrives and
      the login command is written and answered with id 0; nothing but the
      login command is ever written, and a failed handshake leaves the client
      closed. A missing or unreadable first banner line is returned as the
      read failure it is; any failure after it is the login's, wrapped as
      `login failed`. */
  lemma HandshakeOutcome(incoming: seq<ReadResult>, writeFault: Option<Error>, sent: seq<string>,
                         user: string, pass: string)
    ensures var h := TcpHandshake(incoming, writeFault, sent, user, pass);
      && (h.err.None? <==>
            |incoming| > 0 && incoming[0].Line? && writeFault.None?
            && Scan(if |incoming| == 1 then [] else incoming[2..], "").0.Ok?)
      && (h.sent == sent || h.sent == sent + [LoginCommand(user, pass) + "\n"])
      && (h.sent != sent ==> |incoming| > 0 && incoming[0].Line?)
      && (h.closed <==> h.err.Some?)
      && (incoming == [] ==> h.err == Some(IoFailure("EOF")))
      && (|incoming| > 0 && incoming[0].ReadError? ==> h.err == Some(IoFailure(incoming[0].reason)))
      && (|incoming| > 0 && incoming[0].Line? && h.err.Some? ==> h.err.value.LoginFailed?)
  {
  }

  /** One ServerQuery session. */
  class Client {
    const addr: string
    const user: string
    const pass: string
    const proto: string
    const held: set<Resource>
    /** The reads the channel will still deliver. */
    var incoming: seq<ReadResult>
    /** The failure every write meets, if any. */
    var writeFault: Option<Error>
    /** Everything the writer accepted, in order. */
    var sent: seq<string>
    /** The resources released so far, in order. */
    var teardown: seq<Resource>

    /** The client fields `connect` fills in once the channel is up. */
    constructor (addr: string, user: string, pass: string, proto: string, link: Link)
      ensures this.addr == addr && this.user == user && this.pass == pass && this.proto == proto
      ensures held == HeldResources(proto)
      ensures incoming == link.incoming && writeFault == link.writeFault
      ensures sent == [] && teardown == []
    {
      this.addr, this.user, this.pass, this.proto := addr, user, pass, proto;
      held := HeldResources(proto);
      incoming, writeFault := link.incoming, link.writeFault;
      sent, teardown := [], [];
    }

    /** `Close`: releases the resources the client holds, in the fixed order. */
    method Close()
      modifies this`teardown
      ensures teardown == old(teardown) + CloseOrder(held)
    {
      if SshSession in held {
        teardown := teardown + [SshSession];
      }
      if SshClient in held {
        teardown := teardown + [SshClient];
      }
      if Conn in held {
        teardown := teardown + [Conn];
      }
    }

    /** `Execute`: writes `cmd` and a newline, then reads lines until the
      terminator, as `Execution` describes. */
    method Execute(cmd: string) returns (r: Result<string>)
      modifies this`incoming, this`sent
      ensures var x := Execution(cmd, old(incoming), writeFault, old(sent));
        r == x.result && incoming == x.rest && sent == x.sent
    {
      if writeFault.Some? {
        return Err(writeFault.value);
      }
      sent := sent + [cmd + "\n"];
      r := ReadResponse();
    }

    /** The read loop of `Execute`: data lines are trimmed and accumulated
        until a terminator line, a read error or the end of the stream. */
    method ReadResponse() returns (r: Result<string>)
      modifies this`incoming
      ensures (r, incoming) == Scan(old(incoming), "")
    {
      var response := "";
      while true
        invariant Scan(old(incoming), "") == Scan(incoming, response)
        decreases |incoming|
      {
        if incoming == [] {
          return Err(IoFailure("EOF"));
        }
        var next := incoming[0];
        incoming := incoming[1..];
        match next
        case ReadError(reason) =>
          return Err(IoFailure(reason));
        case Line(text) =>
          var line := TrimSpace(text);
          if HasPrefix(line, "error id=") {
            var id, msg := StatusFields(line);
            if id != "0" {
              return Err(ServerError(id, Unescape(msg)));
            }
            return Ok(response);
          }
          if |response| > 0 {
            response := response + "\n";
          }
          response := response + line;
      }
    }

    /** `connect` once the channel is up: only a "tcp" client reads the banner
      and logs in; any other protocol (SSH authenticates while dialing) is
      ready as it is. */
    method Connect() returns (err: Option<Error>)
      modifies this`incoming, this`sent, this`teardown
      ensures proto != "tcp" ==>
        err == None && incoming == old(incoming) && sent == old(sent) && teardown == old(teardown)
      ensures proto == "tcp" ==>
        var h := TcpHandshake(old(incoming), writeFault, old(sent), user, pass);
        && err == h.err && incoming == h.rest && sent == h.sent
        && teardown == old(teardown) + (if h.closed then CloseOrder(held) else [])
    {
      if proto != "tcp" {
        return None;
      }
      // banner line 1: fatal when it cannot be read
      if incoming == [] {
        Close();
        return Some(IoFailure("EOF"));
      }
      var line1 := incoming[0];
      incoming := incoming[1..];
      if line1.ReadError? {
        Close();
        return Some(IoFailure(line1.reason));
      }
      // banner line 2: read, failure ignored
      if incoming != [] {
        incoming := incoming[1..];
      }
      var r := Execute(LoginCommand(user, pass));
      if r.Err? {
        Close();
        return Some(LoginFailed(r.error));
      }
      return None;
    }
  }

  /** `NewClient`: defaults the protocol to TCP, builds the address, and runs
      the handshake over the channel dialing produced (`dialed`), returning
      the client only when every step succeeded. */
  method NewClient(host: string, port: int, user: string, pass: string, proto: string, dialed: Result<Link>)
    returns (r: Result<Client>)
    ensures dialed.Err? ==> r == Err(dialed.error)
    ensures dialed.Ok? && EffectiveProto(proto) != "tcp" ==> r.Ok?
    ensures dialed.Ok? && EffectiveProto(proto) == "tcp" ==>
              var h := TcpHandshake(dialed.value.incoming, dialed.value.writeFault, [], user, pass);
              (r.Ok? <==> h.err.None?) && (r.Err? ==> r.error == h.err.value)
    ensures r.Ok? ==>
              && fresh(r.value) && r.value.addr == Address(host, port)
              && r.value.proto == EffectiveProto(proto) && r.value.user == user && r.value.pass == pass
              && r.value.teardown == []
              && r.value.held == HeldResources(EffectiveProto(proto))
              && r.value.writeFault == dialed.value.writeFault
    ensures r.Ok? && EffectiveProto(proto) != "tcp" ==>
              r.value.incoming == dialed.value.incoming && r.value.sent == []
    ensures r.Ok? && EffectiveProto(proto) == "tcp" ==>
              var h := TcpHandshake(dialed.value.incoming, dialed.value.writeFault, [], user, pass);
              r.value.incoming == h.rest && r.value.sent == h.sent
  {
    if dialed.Err? {
      return Err(dialed.error);
    }
    var c := new Client(Address(host, port), user, pass, EffectiveProto(proto), dialed.value);
    var err := c.Connect();
    if err.Some? {
      return Err(err.value);
    }
    return Ok(c);
  }
}
