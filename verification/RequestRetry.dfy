/** The bounded retry of a request, for any behaviour of the server. */
module RequestRetry {

  /** How one send ends. Success is return code 0, Skew is 10002. */
  datatype Reply = TransportError | Success | Skew | OtherError

  /** The server's answer to the n-th send, and whether the n-th clock resynchronisation works. */
  datatype Server = Server(reply: nat -> Reply, syncOk: nat -> bool)

  /** The final result and how many sends were made in all. */
  datatype Result = Result(last: Reply, sends: nat)

  /** The recursion: one retry after a transport error (GET only), one after a skewed clock. The
      retry after a skew is made with the default for the transport flag, so it is allowed again. */
  function Request(isGet: bool, server: Server, onSkew: bool, onTransport: bool, sent: nat): Result
    decreases onSkew, onTransport
  {
    match server.reply(sent)
    case TransportError =>
      if isGet && onTransport then Request(isGet, server, onSkew, false, sent + 1)
      else Result(TransportError, sent + 1)
    case Skew =>
      if onSkew && server.syncOk(sent) then Request(isGet, server, false, true, sent + 1)
      else Result(Skew, sent + 1)
    case other => Result(other, sent + 1)
  }

  /** A GET is sent at most four times and a POST at most twice, whatever the server does. */
  lemma SendsBounded(isGet: bool, server: Server)
    ensures 1 <= Request(isGet, server, true, true, 0).sends <= if isGet then 4 else 2
    ensures Request(isGet, server, true, true, 0).last == server.reply(Request(isGet, server, true, true, 0).sends - 1)
  {
    SendsFrom(isGet, server, true, true, 0);
  }

  /** What remains to be sent, from any flags. */
  lemma {:induction false} SendsFrom(isGet: bool, server: Server, onSkew: bool, onTransport: bool, sent: nat)
    ensures var r := Request(isGet, server, onSkew, onTransport, sent);
            && sent < r.sends <= sent + 1 +
                 (if isGet && onTransport then 1 else 0) + (if onSkew then (if isGet then 2 else 1) else 0)
            && r.last == server.reply(r.sends - 1)
    decreases onSkew, onTransport
  {
    if server.reply(sent) == TransportError && isGet && onTransport {
      SendsFrom(isGet, server, onSkew, false, sent + 1);
    } else if server.reply(sent) == Skew && onSkew && server.syncOk(sent) {
      SendsFrom(isGet, server, false, true, sent + 1);
    }
  }

  /** The fourth GET is reached by exactly one behaviour: error, skew, error. */
  lemma FourSendsIff(server: Server)
    ensures Request(true, server, true, true, 0).sends == 4 <==>
            server.reply(0) == TransportError && server.reply(1) == Skew && server.syncOk(1) &&
                server.reply(2) == TransportError
  {
    var r1 := Request(true, server, true, false, 1);
    var r2 := Request(true, server, false, true, 1);
    var r3 := Request(true, server, false, true, 2);
    SendsFrom(true, server, false, true, 1);
    SendsFrom(true, server, false, true, 2);
    SendsFrom(true, server, false, false, 3);
    SendsFrom(true, server, false, false, 2);
  }

  /** A POST is never sent again after a transport error; a second POST means the first was
      answered with a skewed clock. */
  lemma PostIsNotRepeated(server: Server)
    ensures server.reply(0) == TransportError ==> Request(false, server, true, true, 0) == Result(TransportError, 1)
    ensures Request(false, server, true, true, 0).sends == 2 <==> server.reply(0) == Skew && server.syncOk(0)
  {
    SendsFrom(false, server, false, true, 1);
  }
}
