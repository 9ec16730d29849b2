/** The NETCONF server session (RFC 6241): hello exchange, negotiated framing, and the RPC loop,
    over a socket whose reads may cut the client's stream anywhere. */
module NetconfSession {
  import opened Text
  import opened Framing
  import opened Transparency

  const BASE_1_1 := "urn:ietf:params:netconf:base:1.1"
  const MAX_IDLE := 60

  // ---- Reading --------------------------------------------------------------

  /** What one read of the socket leads to. */
  datatype RecvEvent = Data(text: string) | Timeout | Eof | Failure

  /** A received message; the end of the connection; or a chunk header that stalls the decoder. */
  datatype Received = Message(text: string) | Closed | Stuck

  datatype Receipt = Receipt(result: Received, buffer: string, inbox: seq<RecvEvent>)

  function Receive(chunked: bool, buffer: string, inbox: seq<RecvEvent>): (r: Receipt)
    ensures r.result.Message? ==> |r.inbox| < |inbox|
    decreases |inbox|
  {
    if inbox == [] then Receipt(Closed, buffer, [])
    else match inbox[0]
      case Timeout => Receive(chunked, buffer, inbox[1..])
      case Eof => Receipt(Closed, buffer, inbox[1..])
      case Failure => Receipt(Closed, buffer, inbox[1..])
      case Data(text) =>
        match Check(chunked, buffer + text)
        case Wait => Receive(chunked, buffer + text, inbox[1..])
        case Spin => Receipt(Stuck, buffer + text, inbox[1..])
        case Deliver(msg, rest) => Receipt(Message(msg), rest, inbox[1..])
  }

  // ---- Requests and replies -----------------------------------------------------

  /** The elements an RPC holds; `get` asks for schemas when its filter names the monitoring model. */
  datatype Parsed =
    | Malformed(why: string)
    | Rpc(messageId: Option<string>, getConfig: bool, get: bool, monitoring: bool, editConfig: bool,
          getSchema: bool, lock: bool, unlock: bool, commit: bool, close: bool)

  /** What the adapter or the schema loader does with a request. */
  datatype Answer = Value(xml: string) | Raises(why: string)

  datatype Reply =
    | DataReply(id: string, xml: string)
    | EditReply(id: string, xml: string)
    | SchemaReply(id: string, xml: string)
    | OkReply(id: string)
    | ErrorReply(id: string, why: string)

  datatype Payload = ServerHello | RpcReply(reply: Reply)

  /** One write to the socket: its framing, its content, and whether it went out. */
  datatype Packet = Packet(chunked: bool, payload: Payload, delivered: bool)

  /** Whom the handler turns to for a request. */
  datatype Ask = ForConfig | ForSchemas | ForState | ForEdit | ForSchema

  /** Everything outside the session: the XML parser, what answers the request of the n-th write, and
      whether the n-th write succeeds. */
  datatype Environment = Environment(parse: string -> Parsed, answer: (nat, Ask, string) -> Answer, linkUp: nat -> bool)

  function RequestId(p: Parsed): string {
    if p.Rpc? && p.messageId.Some? then p.messageId.value else "1"
  }

  /** The first of the elements that ask for something, in the order they are looked for. */
  function Asked(p: Parsed): Option<Ask> {
    if p.Malformed? then None
    else if p.getConfig then Some(ForConfig)
    else if p.get && p.monitoring then Some(ForSchemas)
    else if p.get then Some(ForState)
    else if p.editConfig then Some(ForEdit)
    else if p.getSchema then Some(ForSchema)
    else None
  }

  predicate Closes(p: Parsed) {
    p.Rpc? && p.close && Asked(p) == None && !p.lock && !p.unlock && !p.commit
  }

  function AnswerTo(env: Environment, n: nat, rpc: string): Answer {
    match Asked(env.parse(rpc)) case Some(ask) => env.answer(n, ask, rpc) case None => Value("")
  }

  /** A reply meets a request when it carries its message-id, and reports an error exactly when
      the request did not parse or what it asks for could not be had. */
  predicate Meets(reply: Reply, p: Parsed, answer: Answer) {
    && reply.id == RequestId(p)
    && (reply.ErrorReply? <==> p.Malformed? || (Asked(p).Some? && answer.Raises?))
    && (reply.ErrorReply? ==> reply.why == if p.Malformed? then p.why else answer.why)
    && (reply.OkReply? <==> p.Rpc? && Asked(p) == None)
    && (reply.EditReply? ==> Asked(p) == Some(ForEdit))
    && (reply.SchemaReply? ==> Asked(p) == Some(ForSchema))
    && (reply.DataReply? ==> Asked(p) in {Some(ForConfig), Some(ForSchemas), Some(ForState)})
    && (reply.DataReply? || reply.EditReply? || reply.SchemaReply? ==> answer == Value(reply.xml))
  }

  function ReplyTo(p: Parsed, answer: Answer): (reply: Reply)
    ensures Meets(reply, p, answer)
  {
    match Asked(p)
    case None => if p.Malformed? then ErrorReply("1", p.why) else OkReply(RequestId(p))
    case Some(ask) => AnswerReply(RequestId(p), ask, answer)
  }

  function AnswerReply(id: string, ask: Ask, answer: Answer): Reply {
    match answer
    case Raises(why) => ErrorReply(id, why)
    case Value(xml) =>
      if ask == ForEdit then EditReply(id, xml)
      else if ask == ForSchema then SchemaReply(id, xml)
      else DataReply(id, xml)
  }

  /** No two replies meet the same request. */
  lemma MeetsOne(p: Parsed, answer: Answer, reply: Reply)
    ensures Meets(reply, p, answer) <==> reply == ReplyTo(p, answer)
  {
  }

  /** The packet carries what is due to request `rpc`, answered by write `n`, by the elements in it alone. A request
      that did not parse is answered with an error under the id 1. The first of get-config, get, edit-config
      and get-schema that is present decides who is asked, a get by whether its filter names the monitoring
      model; what is answered is sent as it is, and what was raised as an error. With none of the four it is
      told ok. */
  predicate Due(env: Environment, n: nat, rpc: string, packet: Packet) {
    && packet.payload.RpcReply?
    && var reply := packet.payload.reply;
    match env.parse(rpc)
    case Malformed(why) => reply == ErrorReply("1", why)
    case Rpc(messageId, getConfig, get, monitoring, editConfig, getSchema, lock, unlock, commit, close) =>
      var id := if messageId.Some? then messageId.value else "1";
      && (getConfig ==> Carries(reply, id, env.answer(n, ForConfig, rpc)) && !reply.EditReply? && !reply.SchemaReply?)
      && (!getConfig && get && monitoring ==>
            Carries(reply, id, env.answer(n, ForSchemas, rpc)) && !reply.EditReply? && !reply.SchemaReply?)
      && (!getConfig && get && !monitoring ==>
            Carries(reply, id, env.answer(n, ForState, rpc)) && !reply.EditReply? && !reply.SchemaReply?)
      && (!getConfig && !get && editConfig ==>
            Carries(reply, id, env.answer(n, ForEdit, rpc)) && !reply.DataReply? && !reply.SchemaReply?)
      && (!getConfig && !get && !editConfig && getSchema ==>
            Carries(reply, id, env.answer(n, ForSchema, rpc)) && !reply.DataReply? && !reply.EditReply?)
      && (reply.OkReply? <==> !getConfig && !get && !editConfig && !getSchema)
      && (reply.OkReply? ==> reply.id == id)
  }

  /** A reply with an answer in it, or with the error that was raised instead. */
  predicate Carries(reply: Reply, id: string, answer: Answer) {
    match answer
    case Value(xml) => !reply.ErrorReply? && !reply.OkReply? && reply.id == id && reply.xml == xml
    case Raises(why) => reply == ErrorReply(id, why)
  }

  lemma PacketIsDue(env: Environment, chunked: bool, rpc: string, n: nat)
    ensures Due(env, n, rpc, ReplyPacket(env, chunked, rpc, n))
  {
    hide Meets;
  }

  /** A request closes the session exactly when it asks for that and for nothing that is looked for before. */
  lemma ClosesIff(p: Parsed)
    ensures Closes(p) <==>
              && p.Rpc? && p.close && !p.lock && !p.unlock && !p.commit
              && !p.getConfig && !p.get && !p.editConfig && !p.getSchema
  {
  }

  // ---- The whole run, as a function of what arrives ----------------------------------

  /** The requests handled from here on: everything received until the connection ends, a write
      fails, `close-session` has been answered, or sixty empty messages have come in a row. */
  function Handled(env: Environment, chunked: bool, buffer: string, inbox: seq<RecvEvent>, idle: nat, writes: nat)
    : seq<string>
    decreases |inbox|
  {
    var r := Receive(chunked, buffer, inbox);
    if !r.result.Message? then []
    else if r.result.text == "" then
      if idle + 1 >= MAX_IDLE then [] else Handled(env, chunked, r.buffer, r.inbox, idle + 1, writes)
    else
      [r.result.text] +
      if env.linkUp(writes) && !Closes(env.parse(r.result.text))
      then Handled(env, chunked, r.buffer, r.inbox, 0, writes + 1)
      else []
  }

  /** The server hello went out and the client's hello, not empty, came in. */
  predicate Established(env: Environment, inbox: seq<RecvEvent>) {
    env.linkUp(0) && Receive(false, "", inbox).result.Message? && Receive(false, "", inbox).result.text != ""
  }

  function Negotiated(inbox: seq<RecvEvent>): bool
    requires Receive(false, "", inbox).result.Message?
  {
    Contains(Receive(false, "", inbox).result.text, BASE_1_1)
  }

  function SessionRequests(env: Environment, inbox: seq<RecvEvent>): seq<string> {
    if !Established(env, inbox) then []
    else
      var hello := Receive(false, "", inbox);
      Handled(env, Negotiated(inbox), hello.buffer, hello.inbox, 0, 1)
  }

  function ReplyPacket(env: Environment, chunked: bool, rpc: string, n: nat): Packet {
    Packet(chunked, RpcReply(ReplyTo(env.parse(rpc), AnswerTo(env, n, rpc))), env.linkUp(n))
  }

  /** The writes that answer `requests`, the first of them being write number `from`. */
  function Packets(env: Environment, chunked: bool, requests: seq<string>, from: nat): seq<Packet> {
    if requests == [] then []
    else [ReplyPacket(env, chunked, requests[0], from)] + Packets(env, chunked, requests[1..], from + 1)
  }

  /** The writes of the RPC loop from here on. */
  function Serving(env: Environment, chunked: bool, buffer: string, inbox: seq<RecvEvent>, idle: nat, writes: nat)
    : seq<Packet>
  {
    Packets(env, chunked, Handled(env, chunked, buffer, inbox, idle, writes), writes)
  }

  class Session {
    const env: Environment
    var inbox: seq<RecvEvent>
    var sent: seq<Packet>
    var running: bool
    var buffer: string
    var useChunked: bool
    var helloComplete: bool

    constructor (env: Environment, inbox: seq<RecvEvent>)
      ensures this.env == env && this.inbox == inbox && sent == [] && buffer == ""
      ensures running && !useChunked && !helloComplete
    {
      this.env, this.inbox := env, inbox;
      sent, buffer, running, useChunked, helloComplete := [], "", true, false, false;
    }

    /** Reads until a message is complete or the connection is over. */
    method ReceiveMessage() returns (r: Received)
      requires running
      modifies this`inbox, this`buffer
      ensures Receipt(r, buffer, inbox) == Receive(useChunked && helloComplete, old(buffer), old(inbox))
    {
      while inbox != []
        invariant Receive(useChunked && helloComplete, buffer, inbox)
                  == Receive(useChunked && helloComplete, old(buffer), old(inbox))
        decreases |inbox|
      {
        var event := inbox[0];
        inbox := inbox[1..];
        match event {
          case Timeout =>
          case Eof => return Closed;
          case Failure => return Closed;
          case Data(text) =>
            buffer := buffer + text;
            match Check(useChunked && helloComplete, buffer) {
              case Wait =>
              case Spin => return Stuck;
              case Deliver(msg, rest) =>
                buffer := rest;
                return Message(msg);
            }
        }
      }
      return Closed;
    }

    /** One write. Whatever it raises is caught here and ends the session. */
    method Send(payload: Payload)
      modifies this`sent, this`running
      ensures sent == old(sent) + [Packet(useChunked && helloComplete, payload, env.linkUp(|old(sent)|))]
      ensures running == (old(running) && env.linkUp(|old(sent)|))
    {
      var raised := !env.linkUp(|sent|);
      sent := sent + [Packet(useChunked && helloComplete, payload, !raised)];
      if raised {
        running := false;
      }
    }

    /** The guarded part of the handler. It raises only where nothing has been sent yet. */
    method Dispatch(rpc: string) returns (id: string, raised: Option<string>)
      modifies this`sent, this`running
      ensures raised.Some? ==> sent == old(sent) && running == old(running) && !Closes(env.parse(rpc))
      ensures raised.Some? ==> ReplyTo(env.parse(rpc), AnswerTo(env, |old(sent)|, rpc)) == ErrorReply(id, raised.value)
      ensures raised.None? ==>
                && sent == old(sent) + [ReplyPacket(env, useChunked && helloComplete, rpc, |old(sent)|)]
                && running == (old(running) && env.linkUp(|old(sent)|) && !Closes(env.parse(rpc)))
    {
      hide Meets;
      id, raised := "1", None;
      var p := env.parse(rpc);
      if p.Malformed? {
        return id, Some(p.why);
      }
      if p.messageId.Some? {
        id := p.messageId.value;
      }
      if Asked(p) == None {
        Acknowledge(p, id);
      } else {
        raised := Fetch(p, rpc, id);
      }
    }

    /** The branches that turn to somebody for an answer. */
    method Fetch(p: Parsed, rpc: string, id: string) returns (raised: Option<string>)
      requires Asked(p).Some?
      modifies this`sent, this`running
      ensures raised.Some? ==>
                && Asked(p).value != ForEdit && env.answer(|old(sent)|, Asked(p).value, rpc) == Raises(raised.value)
                && sent == old(sent) && running == old(running)
      ensures raised.None? ==>
                var reply := AnswerReply(id, Asked(p).value, env.answer(|old(sent)|, Asked(p).value, rpc));
                && sent == old(sent) + [Packet(useChunked && helloComplete, RpcReply(reply), env.linkUp(|old(sent)|))]
                && running == (old(running) && env.linkUp(|old(sent)|))
    {
      raised := None;
      if p.getConfig {
        raised := Forward(ForConfig, rpc, id);
      } else if p.get && p.monitoring {
        raised := Forward(ForSchemas, rpc, id);
      } else if p.get {
        raised := Forward(ForState, rpc, id);
      } else if p.editConfig {
        Edit(rpc, id);
      } else {
        raised := Forward(ForSchema, rpc, id);
      }
    }

    /** A branch that sends what it is given, and lets what it meets instead go up. */
    method Forward(ask: Ask, rpc: string, id: string) returns (raised: Option<string>)
      requires ask != ForEdit
      modifies this`sent, this`running
      ensures match env.answer(|old(sent)|, ask, rpc)
              case Raises(why) => raised == Some(why) && sent == old(sent) && running == old(running)
              case Value(xml) =>
                var reply := AnswerReply(id, ask, Value(xml));
                && raised == None && running == (old(running) && env.linkUp(|old(sent)|))
                && sent == old(sent) + [Packet(useChunked && helloComplete, RpcReply(reply), env.linkUp(|old(sent)|))]
    {
      match env.answer(|sent|, ask, rpc) {
        case Raises(why) => raised := Some(why);
        case Value(xml) =>
          Send(RpcReply(if ask == ForSchema then SchemaReply(id, xml) else DataReply(id, xml)));
          raised := None;
      }
    }

    /** The branch with a handler of its own: what the edit raises is answered on the spot. */
    method Edit(rpc: string, id: string)
      modifies this`sent, this`running
      ensures running == (old(running) && env.linkUp(|old(sent)|))
      ensures var reply := AnswerReply(id, ForEdit, env.answer(|old(sent)|, ForEdit, rpc));
              sent == old(sent) + [Packet(useChunked && helloComplete, RpcReply(reply), env.linkUp(|old(sent)|))]
    {
      match env.answer(|sent|, ForEdit, rpc) {
        case Value(xml) => Send(RpcReply(EditReply(id, xml)));
        case Raises(why) => Send(RpcReply(ErrorReply(id, why)));
      }
    }

    /** The branches that only say ok; closing also ends the session. */
    method Acknowledge(p: Parsed, id: string)
      requires p.Rpc?
      modifies this`sent, this`running
      ensures sent == old(sent) + [Packet(useChunked && helloComplete, RpcReply(OkReply(id)), env.linkUp(|old(sent)|))]
      ensures running == (old(running) && env.linkUp(|old(sent)|) && (p.lock || p.unlock || p.commit || !p.close))
    {
      if p.lock || p.unlock {
        Send(RpcReply(OkReply(id)));
      } else if p.commit {
        Send(RpcReply(OkReply(id)));
      } else if p.close {
        Send(RpcReply(OkReply(id)));
        running := false;
      } else {
        Send(RpcReply(OkReply(id)));
      }
    }

    /** One request: on every path, through either handler and with failing writes, one packet, with the reply
        that the elements of the request call for. */
    method HandleRpc(rpc: string)
      modifies this`sent, this`running
      ensures |sent| == |old(sent)| + 1
      ensures Due(env, |old(sent)|, rpc, sent[|old(sent)|])
      ensures sent == old(sent) + [ReplyPacket(env, useChunked && helloComplete, rpc, |old(sent)|)]
      ensures running == (old(running) && env.linkUp(|old(sent)|) && !Closes(env.parse(rpc)))
    {
      hide Meets, Closes, Due;
      PacketIsDue(env, useChunked && helloComplete, rpc, |sent|);
      var id, raised := Dispatch(rpc);
      if raised.Some? {
        Send(RpcReply(ErrorReply(id, raised.value)));
      }
    }

    /** The RPC loop, once the framing is settled. */
    method ServeRpcs()
      requires running && helloComplete
      modifies this`inbox, this`sent, this`running, this`buffer
      ensures sent == old(sent) + Serving(env, useChunked, old(buffer), old(inbox), 0, |old(sent)|)
    {
      hide Receive, ReplyPacket, Closes, Asked;
      var idle: nat := 0;
      ghost var all := sent + Serving(env, useChunked, buffer, inbox, 0, |sent|);
      while running
        invariant idle < MAX_IDLE
        invariant all == sent + if running then Serving(env, useChunked, buffer, inbox, idle, |sent|) else []
        decreases running, |inbox|
      {
        var msg := ReceiveMessage();
        if !msg.Message? {
          break;
        }
        if msg.text == "" {
          idle := idle + 1;
          if idle >= MAX_IDLE {
            break;
          }
        } else {
          idle := 0;
          ghost var before := sent;
          HandleRpc(msg.text);
          ghost var later := if running then Handled(env, useChunked, buffer, inbox, 0, |sent|) else [];
          PacketsCons(env, useChunked, before, msg.text, later);
        }
      }
    }

    /** The session from its first write to its end. */
    method Run()
      requires running && sent == [] && buffer == "" && !useChunked && !helloComplete
      modifies this
      ensures sent == [Packet(false, ServerHello, env.linkUp(0))] +
                      Packets(env, Established(env, old(inbox)) && Negotiated(old(inbox)),
                              SessionRequests(env, old(inbox)), 1)
    {
      hide Receive, Handled, ReplyPacket, Closes, Contains;
      Send(ServerHello);
      if !running {
        return;
      }
      var hello := ReceiveMessage();
      if !hello.Message? || hello.text == "" {
        return;
      }
      FindIffContains(hello.text, BASE_1_1);
      if Find(hello.text, BASE_1_1, 0) != -1 {
        useChunked := true;
      }
      helloComplete := true;
      ServeRpcs();
    }
  }

  lemma {:induction false} PacketsCons(env: Environment, chunked: bool, before: seq<Packet>,
                                       rpc: string, later: seq<string>)
    ensures before + Packets(env, chunked, [rpc] + later, |before|)
            == before + [ReplyPacket(env, chunked, rpc, |before|)] + Packets(env, chunked, later, |before| + 1)
  {
    assert ([rpc] + later)[1..] == later;
  }

  // ---- What every run keeps -------------------------------------------------------

  /** Each request handled gets exactly one reply, in request order and in the one framing in
      force, and the reply meets the request: its message-id, and an error exactly when the request
      did not parse or what it asks for could not be had. */
  lemma {:induction false} OneReplyEach(env: Environment, chunked: bool, requests: seq<string>, from: nat, i: nat)
    requires i < |requests|
    ensures var packets := Packets(env, chunked, requests, from);
            && |packets| == |requests|
            && packets[i].chunked == chunked
            && packets[i].delivered == env.linkUp(from + i)
            && packets[i].payload.RpcReply?
            && Meets(packets[i].payload.reply, env.parse(requests[i]), AnswerTo(env, from + i, requests[i]))
    decreases |requests|
  {
    if |requests| > 1 {
      OneReplyEach(env, chunked, requests[1..], from + 1, if i == 0 then 0 else i - 1);
    }
  }

  /** So many empty messages, each in a read of its own. */
  function EmptyReads(n: nat): seq<RecvEvent> {
    if n == 0 then [] else [Data("]]>]]>")] + EmptyReads(n - 1)
  }

  lemma EmptyRead(inbox: seq<RecvEvent>)
    ensures Receive(false, "", [Data("]]>]]>")] + inbox) == Receipt(Message(""), "", inbox)
  {
    var mark := END_OF_MESSAGE;
    assert mark[0..6] == mark && "" + mark == mark;
    FindIs(mark, mark, 0);
    assert mark[..0] == "" && mark[6..] == "";
    assert ([Data("]]>]]>")] + inbox)[1..] == inbox;
  }

  /** Fifty-nine empty messages in a row are passed over, and the sixtieth ends the session: what comes behind
      it is not handled. */
  lemma {:induction false} SixtyEmptyEnd(env: Environment, inbox: seq<RecvEvent>, n: nat, idle: nat, writes: nat)
    requires idle < 60
    ensures idle + n < 60 ==>
              Handled(env, false, "", EmptyReads(n) + inbox, idle, writes)
              == Handled(env, false, "", inbox, idle + n, writes)
    ensures idle + n >= 60 ==> Handled(env, false, "", EmptyReads(n) + inbox, idle, writes) == []
    decreases n
  {
    hide Receive;
    if n == 0 {
      assert EmptyReads(0) + inbox == inbox;
    } else {
      var rest := EmptyReads(n - 1) + inbox;
      assert EmptyReads(n) + inbox == [Data("]]>]]>")] + rest;
      EmptyRead(rest);
      if idle + 1 < 60 {
        SixtyEmptyEnd(env, inbox, n - 1, idle + 1, writes);
      }
    }
  }

  /** A request starts the count of empty messages anew, however many came before it. */
  lemma RequestForgetsIdle(env: Environment, chunked: bool, buffer: string, inbox: seq<RecvEvent>, idle: nat,
                           other: nat, writes: nat)
    requires Receive(chunked, buffer, inbox).result.Message? && Receive(chunked, buffer, inbox).result.text != ""
    ensures Handled(env, chunked, buffer, inbox, idle, writes) == Handled(env, chunked, buffer, inbox, other, writes)
    ensures var r := Receive(chunked, buffer, inbox);
            env.linkUp(writes) && !Closes(env.parse(r.result.text)) ==>
              Handled(env, chunked, buffer, inbox, idle, writes)
              == [r.result.text] + Handled(env, chunked, r.buffer, r.inbox, 0, writes + 1)
  {
    hide Receive, Closes;
  }

  /** A read that times out is as good as none; the end of the stream or a failing read is the end. */
  lemma ReadIs(chunked: bool, buffer: string, inbox: seq<RecvEvent>)
    ensures Receive(chunked, buffer, [Timeout] + inbox) == Receive(chunked, buffer, inbox)
    ensures Receive(chunked, buffer, [Eof] + inbox) == Receipt(Closed, buffer, inbox)
    ensures Receive(chunked, buffer, [Failure] + inbox) == Receipt(Closed, buffer, inbox)
    ensures Receive(chunked, buffer, []) == Receipt(Closed, buffer, [])
  {
    assert ([Timeout] + inbox)[1..] == inbox && ([Eof] + inbox)[1..] == inbox && ([Failure] + inbox)[1..] == inbox;
  }

  /** Without the server's hello on its way and a hello from the client, one that is not empty, no request is
      handled; with both, what is handled is what came behind the client's, chunked exactly if that names the
      version. */
  lemma SessionOpensIff(env: Environment, inbox: seq<RecvEvent>)
    ensures var hello := Receive(false, "", inbox);
            if !env.linkUp(0) || !hello.result.Message? || hello.result.text == "" then
              SessionRequests(env, inbox) == []
            else
              var chunked := Contains(hello.result.text, "urn:ietf:params:netconf:base:1.1");
              SessionRequests(env, inbox) == Handled(env, chunked, hello.buffer, hello.inbox, 0, 1)
  {
    hide Receive, Handled, Contains;
  }

  /** The requests up to a close are the first of them: none but the last closes, and if any is missing the last
      does. */
  lemma {:induction false} UpToCloseIs(env: Environment, requests: seq<string>)
    ensures var u := UpToClose(env, requests);
            && u <= requests
            && (forall i :: 0 <= i < |u| - 1 ==> !Closes(env.parse(u[i])))
            && (|u| < |requests| ==> u != [] && Closes(env.parse(u[|u| - 1])))
  {
    hide Closes;
    if requests != [] && !Closes(env.parse(requests[0])) {
      UpToCloseIs(env, requests[1..]);
      var rest := UpToClose(env, requests[1..]);
      assert UpToClose(env, requests) == [requests[0]] + rest;
      assert requests == [requests[0]] + requests[1..];
    }
  }

  /** Nothing is handled after a `close-session` or a failed write: only the last request handled
      can be either. */
  lemma {:induction false} NothingAfterClose(env: Environment, chunked: bool, buffer: string,
                                             inbox: seq<RecvEvent>, idle: nat, writes: nat, i: nat)
    requires i + 1 < |Handled(env, chunked, buffer, inbox, idle, writes)|
    ensures !Closes(env.parse(Handled(env, chunked, buffer, inbox, idle, writes)[i]))
    ensures env.linkUp(writes + i)
    decreases |inbox|
  {
    hide Receive;
    var r := Receive(chunked, buffer, inbox);
    if r.result.text == "" {
      NothingAfterClose(env, chunked, r.buffer, r.inbox, idle + 1, writes, i);
    } else if i > 0 {
      NothingAfterClose(env, chunked, r.buffer, r.inbox, 0, writes + 1, i - 1);
      assert writes + i == writes + 1 + (i - 1);
    }
  }

  /** All the text the socket will hand out. */
  function Incoming(inbox: seq<RecvEvent>): string {
    if inbox == [] then ""
    else (if inbox[0].Data? then inbox[0].text else "") + Incoming(inbox[1..])
  }

  /** The client's side of a session: its hello, then its requests in the framing it asked for. */
  function ClientStream(hello: string, requests: seq<string>): string {
    Frame(false, hello) + Frames(Contains(hello, BASE_1_1), requests)
  }

  lemma {:induction false} ReceiveFrame(chunked: bool, m: string, buffer: string, inbox: seq<RecvEvent>, later: string)
    requires Transparent(chunked, m)
    requires buffer + Incoming(inbox) <= Frame(chunked, m) + later
    ensures var r := Receive(chunked, buffer, inbox);
            && (r.result == Closed || r.result == Message(m))
            && (r.result.Message? ==> r.buffer + Incoming(r.inbox) <= later)
  {
    TransparentIsSelfDelimiting(chunked, m);
    FrameIsWire(chunked, m);
    ReceiveExactly(chunked, FrameWire(chunked, m), buffer, inbox, later);
  }

  lemma {:induction false} HandledFollowsRequests(env: Environment, chunked: bool, requests: seq<string>,
                                                  buffer: string, inbox: seq<RecvEvent>, idle: nat, writes: nat)
    requires forall i :: 0 <= i < |requests| ==> requests[i] != "" && Transparent(chunked, requests[i])
    requires buffer + Incoming(inbox) <= Frames(chunked, requests)
    ensures Handled(env, chunked, buffer, inbox, idle, writes) <= requests
    decreases |requests|
  {
    hide Receive, Transparent, Frame;
    if requests == [] {
      NothingToReceive(chunked, buffer, inbox);
    } else {
      ReceiveFrame(chunked, requests[0], buffer, inbox, Frames(chunked, requests[1..]));
      var r := Receive(chunked, buffer, inbox);
      if r.result.Message? {
        HandledFollowsRequests(env, chunked, requests[1..], r.buffer, r.inbox, 0, writes + 1);
        var tail := Handled(env, chunked, r.buffer, r.inbox, 0, writes + 1);
        assert [requests[0]] + tail <= [requests[0]] + requests[1..] == requests;
      }
    }
  }

  lemma {:induction false} NothingToReceive(chunked: bool, buffer: string, inbox: seq<RecvEvent>)
    requires buffer + Incoming(inbox) == ""
    ensures !Receive(chunked, buffer, inbox).result.Message?
    decreases |inbox|
  {
    assert buffer == "" && Incoming(inbox) == "";
    if inbox != [] {
      assert (if inbox[0].Data? then inbox[0].text else "") == "" && Incoming(inbox[1..]) == "";
      assert Check(chunked, "" + "") == Wait;
      NothingToReceive(chunked, "", inbox[1..]);
    }
  }

  lemma {:induction false} PrefixParts(now: string, more: string, whole: string, later: string)
    requires now + more <= whole + later
    ensures |now| <= |whole| ==> now == whole[..|now|] && now + whole[|now|..] == whole
    ensures |now| >= |whole| ==> now == whole + now[|whole|..] && now[|whole|..] + more <= later
  {
    var future := (whole + later)[|now + more|..];
    assert now + more + future == whole + later;
    assert now + (more + future) == whole + later;
    if |now| <= |whole| {
      StreamPrefix(now, more + future, whole, later);
    }
    if |now| >= |whole| {
      StreamPrefix(whole, later, now, more + future);
      var rest := now[|whole|..] + more;
      forall i | 0 <= i < |rest| ensures rest[i] == later[i] {
        assert (now + more)[|whole| + i] == (whole + later)[|whole| + i];
      }
    }
  }

  /** Reading one message off a stream of self-delimiting messages, with reads that time out, cut
      anywhere or stop early: either the next message comes out and the stream goes on right
      behind it, or the connection is over. */
  lemma {:induction false} ReceiveExactly(chunked: bool, w: Wire, buffer: string, inbox: seq<RecvEvent>, later: string)
    requires SelfDelimiting(chunked, w)
    requires buffer + Incoming(inbox) <= Whole(chunked, w) + later
    ensures var r := Receive(chunked, buffer, inbox);
            && (r.result == Closed || r.result == Message(w.text))
            && (r.result.Message? ==> r.buffer + Incoming(r.inbox) <= later)
    decreases |inbox|
  {
    if inbox == [] {
    } else if inbox[0].Timeout? {
      assert Incoming(inbox) == Incoming(inbox[1..]);
      ReceiveExactly(chunked, w, buffer, inbox[1..], later);
    } else if inbox[0].Data? {
      var now, whole := buffer + inbox[0].text, Whole(chunked, w);
      assert now + Incoming(inbox[1..]) == buffer + Incoming(inbox);
      PrefixParts(now, Incoming(inbox[1..]), whole, later);
      if |now| < |whole| {
        CheckShort(chunked, w, now, whole[|now|..]);
        ReceiveExactly(chunked, w, now, inbox[1..], later);
      } else {
        CheckComplete(chunked, w, now[|whole|..]);
      }
    }
  }

  // ---- How far the session gets ---------------------------------------------------

  /** The texts the socket hands out before it ends. */
  function Segments(inbox: seq<RecvEvent>): seq<string> {
    if inbox == [] then []
    else match inbox[0]
      case Timeout => Segments(inbox[1..])
      case Data(text) => [text] + Segments(inbox[1..])
      case _ => []
  }

  /** The requests up to and with the first that closes the session. */
  function UpToClose(env: Environment, requests: seq<string>): seq<string> {
    if requests == [] then []
    else [requests[0]] + if Closes(env.parse(requests[0])) then [] else UpToClose(env, requests[1..])
  }

  /** Receiving again and again is feeding the segments one by one. */
  lemma {:induction false} ReceiveFeeds(chunked: bool, buffer: string, inbox: seq<RecvEvent>)
    ensures var r, p := Receive(chunked, buffer, inbox), Feed(chunked, buffer, Segments(inbox));
            if r.result.Message? then p.msgs == [r.result.text] + Feed(chunked, r.buffer, Segments(r.inbox)).msgs
            else p.msgs == []
    decreases |inbox|
  {
    hide Check;
    if inbox != [] {
      var segments := Segments(inbox);
      match inbox[0] {
        case Timeout => ReceiveFeeds(chunked, buffer, inbox[1..]);
        case Data(text) =>
          assert segments[0] == text && segments[1..] == Segments(inbox[1..]);
          if Check(chunked, buffer + text).Wait? {
            ReceiveFeeds(chunked, buffer + text, inbox[1..]);
          }
        case _ =>
      }
    }
  }

  lemma {:induction false} HandledFeeds(env: Environment, chunked: bool, buffer: string, inbox: seq<RecvEvent>,
                                        idle: nat, writes: nat)
    requires forall n :: env.linkUp(n)
    requires forall m :: m in Feed(chunked, buffer, Segments(inbox)).msgs ==> m != ""
    ensures Handled(env, chunked, buffer, inbox, idle, writes)
         == UpToClose(env, Feed(chunked, buffer, Segments(inbox)).msgs)
    decreases |inbox|
  {
    hide Receive, Feed, Closes, Segments;
    ReceiveFeeds(chunked, buffer, inbox);
    var r := Receive(chunked, buffer, inbox);
    if r.result.Message? {
      var later := Feed(chunked, r.buffer, Segments(r.inbox)).msgs;
      assert forall m :: m in later ==> m in [r.result.text] + later;
      assert r.result.text in [r.result.text] + later;
      assert ([r.result.text] + later)[1..] == later;
      HandledFeeds(env, chunked, r.buffer, r.inbox, 0, writes + 1);
    }
  }

  /** A message that has arrived whole, with whatever came behind it, is received, and what came behind it
      is left. */
  lemma {:induction false} ReceiveWhole(chunked: bool, w: Wire, buffer: string, inbox: seq<RecvEvent>, later: string)
    requires SelfDelimiting(chunked, w) && |buffer| < |Whole(chunked, w)|
    requires buffer + Concat(Segments(inbox)) == Whole(chunked, w) + later
    ensures var r := Receive(chunked, buffer, inbox);
            r.result == Message(w.text) && r.buffer + Concat(Segments(r.inbox)) == later
    decreases |inbox|
  {
    hide Check, SelfDelimiting, Whole;
    assert |buffer + Concat(Segments(inbox))| >= |Whole(chunked, w)|;
    if Segments(inbox) == [] {
      assert false;
    }
    match inbox[0] {
      case Timeout => ReceiveWhole(chunked, w, buffer, inbox[1..], later);
      case Data(text) =>
        var now, more, whole := buffer + text, Concat(Segments(inbox[1..])), Whole(chunked, w);
        assert Segments(inbox)[1..] == Segments(inbox[1..]);
        Assoc(buffer, text, more);
        if |now| < |whole| {
          StreamPrefix(now, more, whole, later);
          assert now + whole[|now|..] == whole;
          CheckShort(chunked, w, now, whole[|now|..]);
          ReceiveWhole(chunked, w, now, inbox[1..], later);
        } else {
          StreamPrefix(whole, later, now, more);
          assert now == whole + now[|whole|..];
          CheckComplete(chunked, w, now[|whole|..]);
        }
      case _ =>
    }
  }

  /** With links up and the whole stream of a client arriving, the requests handled are exactly the first `n`,
      cut at the first that closes; and `n` is all of them exactly when no burst of requests outruns the
      reads. */
  lemma {:induction false} SessionHandlesAllIff(env: Environment, hello: string, requests: seq<string>,
                                                inbox: seq<RecvEvent>) returns (n: nat)
    requires forall w :: env.linkUp(w)
    requires hello != "" && Transparent(false, hello)
    requires forall m :: m in requests ==> m != "" && Transparent(Contains(hello, BASE_1_1), m)
    requires Concat(Segments(inbox)) == ClientStream(hello, requests)
    ensures n <= |requests| && SessionRequests(env, inbox) == UpToClose(env, requests[..n])
    ensures var chunked, r := Contains(hello, BASE_1_1), Receive(false, "", inbox);
            n == |requests| <==> KeepsUp(chunked, FrameWires(chunked, requests), |r.buffer|, Segments(r.inbox))
  {
    hide Receive, Feed, Handled, Transparent, Contains, Frame, KeepsUp, SelfDelimiting, Returned, Whole;
    var chunked, w := Contains(hello, BASE_1_1), FrameWire(false, hello);
    TransparentIsSelfDelimiting(false, hello);
    FrameIsWire(false, hello);
    WholeNotEmpty(false, w);
    assert "" + Concat(Segments(inbox)) == Concat(Segments(inbox));
    ReceiveWhole(false, w, "", inbox, Frames(chunked, requests));
    var r := Receive(false, "", inbox);
    StrippedFrame(false, hello);
    assert w.text == hello;
    n := RequestsReturned(chunked, requests, r.buffer, Segments(r.inbox));
    forall m | m in Feed(chunked, r.buffer, Segments(r.inbox)).msgs ensures m != "" {
      var j :| 0 <= j < n && requests[..n][j] == m;
      assert requests[j] in requests;
    }
    HandledFeeds(env, chunked, r.buffer, r.inbox, 0, 1);
  }

  lemma WholeNotEmpty(chunked: bool, w: Wire)
    ensures |Whole(chunked, w)| > 0
  {
  }

  lemma {:induction false} RequestsReturned(chunked: bool, requests: seq<string>, buffer: string, segments: seq<string>)
    returns (n: nat)
    requires forall m :: m in requests ==> Transparent(chunked, m)
    requires buffer + Concat(segments) == Frames(chunked, requests)
    ensures n <= |requests| && Feed(chunked, buffer, segments).msgs == requests[..n]
    ensures n == |requests| <==> KeepsUp(chunked, FrameWires(chunked, requests), |buffer|, segments)
  {
    hide Transparent, Feed, KeepsUp, Returned, Arrived;
    var ws := FrameWires(chunked, requests);
    FrameWiresDelimit(chunked, requests);
    StreamOfFrames(chunked, requests);
    assert buffer + Concat(segments) + "" == Stream(chunked, ws);
    ReceiverFollowsStream(chunked, ws, buffer, segments, "");
    forall m | m in requests ensures Stripped(m) {
      TransparentStripped(chunked, m);
    }
    TextsOfFrames(chunked, requests);
    n := Returned(chunked, ws, |buffer|, segments);
    NothingLeftBehindIff(chunked, ws, |buffer|, segments);
    AllArrived(chunked, ws, buffer, segments);
  }

  lemma TransparentStripped(chunked: bool, m: string)
    requires Transparent(chunked, m)
    ensures Stripped(m)
  {
  }

  lemma {:induction false} AllComplete(chunked: bool, ws: seq<Wire>)
    ensures Complete(chunked, ws, |Stream(chunked, ws)|) == |ws|
  {
    hide Whole;
    if ws != [] {
      AllComplete(chunked, ws[1..]);
    }
  }

  lemma AllArrived(chunked: bool, ws: seq<Wire>, buffer: string, segments: seq<string>)
    requires buffer + Concat(segments) == Stream(chunked, ws)
    ensures Arrived(chunked, ws, |buffer|, segments, |segments|) == |ws|
  {
    hide Complete, Stream, Concat;
    AllComplete(chunked, ws);
    assert segments[..|segments|] == segments;
    assert |buffer| + |Concat(segments)| == |buffer + Concat(segments)|;
  }

  /** End to end: a client that frames its hello and its requests as the server would, over a
      connection that may cut, delay or drop the tail of its stream, has a prefix of its requests
      handled, in order and unchanged. */
  lemma {:induction false} SessionHandlesPrefix(env: Environment, hello: string, requests: seq<string>,
                                                inbox: seq<RecvEvent>)
    requires hello != "" && Transparent(false, hello)
    requires forall i :: 0 <= i < |requests| ==>
               requests[i] != "" && Transparent(Contains(hello, BASE_1_1), requests[i])
    requires Incoming(inbox) <= ClientStream(hello, requests)
    ensures SessionRequests(env, inbox) <= requests
    ensures Established(env, inbox) ==> Negotiated(inbox) == Contains(hello, BASE_1_1)
  {
    var chunked := Contains(hello, BASE_1_1);
    assert "" + Incoming(inbox) == Incoming(inbox);
    ReceiveFrame(false, hello, "", inbox, Frames(chunked, requests));
    var r := Receive(false, "", inbox);
    if Established(env, inbox) {
      HandledFollowsRequests(env, chunked, requests, r.buffer, r.inbox, 0, 1);
    }
  }
}
