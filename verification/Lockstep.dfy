/** The coordinating client and the server's connection objects, joined by byte streams: the read, process, write
    cycle of `Session`, and the lockstep the two ends keep although the client never looks at a reply's type. */
module Lockstep {
  import opened Bytes
  import opened CoordinationClient

  const LONGEST_REQUEST := 512 * 1024

  /** What the four length bytes of a frame can hold. */
  const LIMIT := 0x1_0000_0000

  lemma FrameIs(kind: byte, data: Data)
    ensures var f := Frame(kind, data);
            && f[..1] == [kind] && f[HEADER..] == data
            && (|data| < LIMIT ==> FromBE(f[1..HEADER]) == |data|)
  {
    hide ToBE, FromBE;
    var f := Frame(kind, data);
    assert f[1..HEADER] == ToBE(|data|, 4);
    Widths();
    FromToBE(|data|, 4);
  }

  lemma HeaderOf(kind: byte, data: Data, s: Data)
    requires |data| < LIMIT && s <= Frame(kind, data) && |s| >= HEADER
    ensures s[0] == kind && FromBE(s[1..HEADER]) == |data| && s[HEADER..] <= data
  {
    hide FromBE, Frame;
    FrameIs(kind, data);
    var f := Frame(kind, data);
    assert s[0] == f[..1][0];
    assert s[1..HEADER] == f[1..HEADER];
    assert s[HEADER..] == f[HEADER..][..|s| - HEADER];
  }

  // ---- The server's connection object

  datatype Phase =
    | AwaitHeader
    | AwaitPayload(kind: byte, len: nat)
    | Writing
    | Gone

  function AfterHeader(hdr: Data): Phase
    requires |hdr| == HEADER
  {
    var len := FromBE(hdr[1..]);
    if len > LONGEST_REQUEST then Gone else AwaitPayload(hdr[0], len)
  }

  /** The reply to a request, if there is one. `made` is what registration or the routine produced: nothing when
      it threw, otherwise the data of the reply. */
  function Reply(kind: byte, payload: Data, made: Option<Data>): Option<Data> {
    if kind == 0x01 then
      if |payload| < 32 then None
      else
        var data :- made;
        Some(Frame(0x02, data))
    else if kind == 0x03 then
      if |payload| < 36 then None
      else
        var data :- made;
        Some(Frame(0x04, data))
    else None
  }

  class Session {
    var phase: Phase
    var header: Data
    var payload: Data
    var writeBuffer: Data

    constructor ()
      ensures phase == AwaitHeader
    {
      phase, header, payload, writeBuffer := AwaitHeader, [], [], [];
    }

    method CloseSession()
      modifies this`phase
      ensures phase == Gone
    {
      phase := Gone;
    }

    /** The header is stored, and a payload of the announced length is awaited if that is at most 512 KiB. So the
        first five bytes of a frame lead to exactly the rest of that frame, or end the connection. */
    method HeaderRead(ok: bool, hdr: Data)
      requires phase == AwaitHeader && |hdr| == HEADER
      modifies this
      ensures ok ==> header == hdr
      ensures phase.AwaitPayload? <==> ok && FromBE(hdr[1..]) <= LONGEST_REQUEST
      ensures phase.AwaitPayload? ==> phase.len <= LONGEST_REQUEST
      ensures !phase.AwaitPayload? ==> phase == Gone
      ensures forall kind: byte, data: Data :: ok && |data| < LIMIT && hdr == Frame(kind, data)[..HEADER] ==>
                phase == if |data| <= 524288 then AwaitPayload(kind, |data|) else Gone
      ensures phase == if ok then AfterHeader(hdr) else Gone
    {
      hide ToBE, FromBE;
      forall kind: byte, data: Data | |data| < LIMIT && hdr == Frame(kind, data)[..HEADER]
        ensures hdr[0] == kind && FromBE(hdr[1..]) == |data|
      {
        HeaderOf(kind, data, hdr);
        assert hdr[1..HEADER] == hdr[1..];
      }
      if !ok {
        CloseSession();
        return;
      }
      header := hdr;
      var len := FromBE(header[1..]);
      if len > LONGEST_REQUEST {
        CloseSession();
        return;
      }
      phase := AwaitPayload(header[0], len);
    }

    method SendFrame(kind: byte, data: Data)
      modifies this`phase, this`writeBuffer
      ensures phase == Writing && writeBuffer == Frame(kind, data)
    {
      writeBuffer := [kind] + ToBE(|data|, 4) + data;
      phase := Writing;
    }

    /** `process_payload`. A registration of at least 32 bytes or a check-in of at least 36 is answered, if its
        processing produced something, with a frame of the next type that holds exactly what was produced; every
        other payload ends the connection. */
    method PayloadRead(ok: bool, data: Data, made: Option<Data>)
      requires phase.AwaitPayload? && |data| == phase.len
      modifies this
      ensures phase == Writing || phase == Gone
      ensures var kind := old(phase).kind;
              phase == Writing <==>
              ok && made.Some? && ((kind == 0x01 && |data| >= 32) || (kind == 0x03 && |data| >= 36))
      ensures phase == Writing ==>
                && |writeBuffer| == HEADER + |made.value|
                && writeBuffer[..1] == [old(phase).kind + 1] && writeBuffer[HEADER..] == made.value
                && (|made.value| < LIMIT ==> FromBE(writeBuffer[1..HEADER]) == |made.value|)
      ensures ok ==> payload == data
      ensures var reply := if ok then Reply(old(phase).kind, data, made) else None;
              match reply
              case None => phase == Gone
              case Some(bytes) => phase == Writing && writeBuffer == bytes
    {
      hide ToBE, FromBE;
      if !ok {
        CloseSession();
        return;
      }
      payload := data;
      if made.Some? {
        FrameIs(0x02, made.value);
        FrameIs(0x04, made.value);
      }
      if phase.kind == 0x01 {
        if |payload| < 32 || made.None? {
          CloseSession();
          return;
        }
        SendFrame(0x02, made.value);
      } else if phase.kind == 0x03 {
        if |payload| < 36 || made.None? {
          CloseSession();
          return;
        }
        SendFrame(0x04, made.value);
      } else {
        CloseSession();
      }
    }

    method Written(ok: bool)
      requires phase == Writing
      modifies this`phase
      ensures phase == if ok then AwaitHeader else Gone
    {
      if ok {
        phase := AwaitHeader;
      } else {
        CloseSession();
      }
    }
  }

  // ---- One connection

  /** How far the exchange on a connection has come; part of the history, read by neither end. */
  datatype Talk =
    | Quiet
    | Asked(kind: Kind, data: Data)
    | Received(kind: Kind, data: Data)
    | Answered(kind: Kind, data: Data)
    | Reading(kind: Kind, data: Data)

  /** `toServer` and `toClient` hold the bytes on their way; `up` says whether the client still holds its end.
      `requests` and `replies` count the frames written so far. */
  datatype Link = Link(up: bool, toServer: Data, toClient: Data, server: Phase, talk: Talk, requests: nat, replies: nat)

  const FRESH := Link(true, [], [], AwaitHeader, Quiet, 0, 0)

  predicate LinkOk(l: Link) {
    && (l.server.AwaitPayload? ==> l.talk.Received?)
    && match l.talk
       case Quiet => l.toServer == [] && l.toClient == [] && l.requests == l.replies
       case Asked(kind, data) =>
         && |data| < LIMIT && l.toServer <= Frame(kind.RequestType(), data)
         && l.toClient == [] && l.requests == l.replies + 1
       case Received(kind, data) =>
         && (l.server == Gone || (l.server == AwaitPayload(kind.RequestType(), |data|) && l.toServer <= data))
         && l.toClient == [] && l.requests == l.replies + 1
       case Answered(kind, data) =>
         && |data| < LIMIT && l.toClient <= Frame(kind.ReplyType(), data)
         && l.toServer == [] && l.requests == l.replies
       case Reading(kind, data) => l.toServer == [] && l.toClient <= data && l.requests == l.replies
  }

  // ---- The system

  /** `current` is the connection the client's socket belongs to. */
  datatype System = System(client: Client, links: seq<Link>, current: Option<nat>)

  datatype Event =
    | Flip(switched: bool)
    | TimerFires(body: Data)
    | Connects(ok: bool, publicKey: Data, body: Data)
    | ClientWrites(kind: Kind, ok: bool)
    | ClientReadsHeader(kind: Kind, ok: bool)
    | ClientReadsPayload(kind: Kind, len: nat, ok: bool, readable: bool, body: Data)
    | ServerReadsHeader(link: nat, ok: bool)
    | ServerReadsPayload(link: nat, ok: bool, made: Option<Data>)
    | ServerWritten(link: nat, ok: bool)
    | Break(link: nat, keptToServer: nat, keptToClient: nat)

  function Initial(switched: bool, registered: bool): System {
    System(Start(Client(switched, registered, false, multiset{}, [], [])), [], None)
  }

  function Put(s: System, i: nat, l: Link): System
    requires i < |s.links|
  {
    s.(links := s.links[i := l])
  }

  /** The client's write reaches the stream at once, or is lost on a broken connection. */
  function Carry(l: Link, kind: Kind, data: Data): Link {
    l.(toServer := if l.up then Frame(kind.RequestType(), data) else [], talk := Asked(kind, data),
       requests := l.requests + 1)
  }

  predicate Linked(s: System) {
    s.current.Some? && s.current.value < |s.links|
  }

  /** What the effects of a callback do to the current connection. */
  function Apply(s: System, client: Client, kind: Kind, data: Data): System {
    var t := s.(client := client);
    if client.effects == [] || !Linked(s) then t
    else if client.effects[0].Closed? then
      Put(t, s.current.value, s.links[s.current.value].(up := false)).(current := None)
    else Put(t, s.current.value, Carry(s.links[s.current.value], kind, data))
  }

  function Dispatch(s: System, cb: Callback): System
    requires cb.WellFormed()
  {
    var next := Next(s.client, cb);
    Apply(s, Handle(s.client, cb), if next.Write? then next.kind else Routine, Content(s.client, cb))
  }

  function ServerStep(l: Link, e: Event): Link {
    match e
    case ServerReadsHeader(_, ok) =>
      if l.server != AwaitHeader then l
      else if !ok then l.(server := Gone)
      else if |l.toServer| < HEADER then l
      else l.(server := AfterHeader(l.toServer[..HEADER]), toServer := l.toServer[HEADER..],
              talk := if l.talk.Asked? then Received(l.talk.kind, l.talk.data) else l.talk)
    case ServerReadsPayload(_, ok, made) =>
      if !l.server.AwaitPayload? then l
      else if !ok then l.(server := Gone)
      else if |l.toServer| < l.server.len || (made.Some? && |made.value| >= LIMIT) then l
      else
        var rest := l.(toServer := l.toServer[l.server.len..]);
        (match Reply(l.server.kind, l.toServer[..l.server.len], made)
         case None => rest.(server := Gone)
         case Some(bytes) =>
           rest.(server := Writing, toClient := l.toClient + bytes, replies := l.replies + 1,
                 talk := if l.talk.Received? then Answered(l.talk.kind, made.value) else l.talk))
    case ServerWritten(_, ok) =>
      if l.server != Writing then l else l.(server := if ok then AwaitHeader else Gone)
    case Break(_, m, n) =>
      l.(up := false, toServer := if m < |l.toServer| then l.toServer[..m] else l.toServer,
         toClient := if n < |l.toClient| then l.toClient[..n] else l.toClient)
    case _ => l
  }

  function HeaderTaken(l: Link): Link
    requires |l.toClient| >= HEADER
  {
    l.(toClient := l.toClient[HEADER..], talk := if l.talk.Answered? then Reading(l.talk.kind, l.talk.data) else l.talk)
  }

  predicate Bounded(data: Data) {
    |data| < LIMIT
  }

  function ReadHeader(s: System, kind: Kind, ok: bool): System
    requires Linked(s)
  {
    var i := s.current.value;
    var l := s.links[i];
    if !ok then Dispatch(s, HeaderDone(kind, false, [0, 0, 0, 0, 0]))
    else if |l.toClient| < HEADER then s
    else Dispatch(Put(s, i, HeaderTaken(l)), HeaderDone(kind, true, l.toClient[..HEADER]))
  }

  function ReadPayload(s: System, kind: Kind, len: nat, ok: bool, readable: bool, body: Data): System
    requires Linked(s)
  {
    var i := s.current.value;
    var l := s.links[i];
    if !ok then Dispatch(s, PayloadDone(kind, len, false, [], readable, body))
    else if |l.toClient| < len then s
    else Dispatch(Put(s, i, l.(toClient := l.toClient[len..], talk := Quiet)),
                  PayloadDone(kind, len, true, l.toClient[..len], readable, body))
  }

  /** Events that are not possible in a state leave it as it is, so every list of events is a run. */
  function Step(s: System, e: Event): System {
    match e
    case Flip(switched) => s.(client := s.client.(switched := switched))
    case TimerFires(body) =>
      if Timer in s.client.pending && Bounded(body) then Dispatch(s, TimerFired(body)) else s
    case Connects(ok, publicKey, body) =>
      if Connect in s.client.pending && Bounded(body) then
        var t := if ok then s.(links := s.links + [FRESH], current := Some(|s.links|)) else s;
        Dispatch(t, ConnectDone(ok, publicKey, body))
      else s
    case ClientWrites(kind, ok) =>
      if Write(kind) in s.client.pending then Dispatch(s, WriteDone(kind, ok)) else s
    case ClientReadsHeader(kind, ok) =>
      if Header(kind) !in s.client.pending || !Linked(s) then s else ReadHeader(s, kind, ok)
    case ClientReadsPayload(kind, len, ok, readable, body) =>
      if Payload(kind, len) !in s.client.pending || !Linked(s) || !Bounded(body) then s
      else ReadPayload(s, kind, len, ok, readable, body)
    case _ => if e.link < |s.links| then Put(s, e.link, ServerStep(s.links[e.link], e)) else s
  }

  // ---- The invariant

  /** The client's pending operation against the exchange on its connection. */
  predicate InStep(op: Op, c: Client, l: Link) {
    match op
    case Timer => l.talk == Quiet
    case Write(kind) => (l.talk.Asked? || l.talk.Received? || l.talk.Answered?) && l.talk.kind == kind
    case Header(kind) => (l.talk.Asked? || l.talk.Received? || l.talk.Answered?) && l.talk.kind == kind
    case Payload(kind, len) =>
      l.talk.Reading? && l.talk.kind == kind && |l.talk.data| == len
      && |c.hdr| == HEADER && c.hdr[0] == kind.ReplyType()
    case _ => false
  }

  predicate Connected(c: Client, op: Op) {
    c.open && op != Connect
  }

  predicate InvariantWith(s: System, op: Op) {
    && OkWith(s.client, op)
    && (forall i :: 0 <= i < |s.links| ==> LinkOk(s.links[i]))
    && (s.current.Some? <==> Connected(s.client, op))
    && (s.current.Some? ==> s.current.value < |s.links| && InStep(op, s.client, s.links[s.current.value]))
  }

  ghost predicate Invariant(s: System) {
    exists op :: InvariantWith(s, op)
  }

  lemma OpIs(s: System, op: Op)
    requires Invariant(s) && op in s.client.pending
    ensures InvariantWith(s, op)
  {
    var p :| InvariantWith(s, p);
    assert op in multiset{p};
  }

  // ---- The steps keep it

  /** The server moves an exchange on from asked to received to answered, and only so. */
  predicate MovesOn(t: Talk, u: Talk) {
    || u == t
    || (t.Asked? && u == Received(t.kind, t.data))
    || (t.Received? && u.Answered? && u.kind == t.kind)
  }

  lemma MovingOnKeepsStep(l: Link, m: Link)
    requires MovesOn(l.talk, m.talk)
    ensures forall op, c: Client :: InStep(op, c, l) ==> InStep(op, c, m)
  {
  }

  lemma ServerStepOk(l: Link, e: Event)
    requires LinkOk(l)
    ensures LinkOk(ServerStep(l, e))
    ensures forall op, c: Client :: InStep(op, c, l) ==> InStep(op, c, ServerStep(l, e))
  {
    hide Frame, InStep, AfterHeader, Reply;
    match e {
      case ServerReadsHeader(_, ok) =>
        if l.server == AwaitHeader && ok && |l.toServer| >= HEADER {
          ServerHeaderOk(l);
        }
      case ServerReadsPayload(_, ok, made) =>
        if l.server.AwaitPayload? && ok && |l.toServer| >= l.server.len && (made.Some? ==> |made.value| < LIMIT) {
          assert l.toServer[l.server.len..] == [];
          assert l.toServer[..l.server.len] == l.toServer;
          ServerReplyOk(l, made);
        }
      case _ =>
    }
    MovingOnKeepsStep(l, ServerStep(l, e));
  }

  lemma ServerHeaderOk(l: Link)
    requires LinkOk(l) && l.server == AwaitHeader && |l.toServer| >= HEADER
    ensures l.talk.Asked?
    ensures LinkOk(l.(server := AfterHeader(l.toServer[..HEADER]), toServer := l.toServer[HEADER..],
                      talk := Received(l.talk.kind, l.talk.data)))
  {
    hide FromBE, ToBE, Frame;
    HeaderOf(l.talk.kind.RequestType(), l.talk.data, l.toServer);
    assert l.toServer[..HEADER][1..] == l.toServer[1..HEADER];
  }

  lemma ServerReplyOk(l: Link, made: Option<Data>)
    requires LinkOk(l) && l.server.AwaitPayload? && |l.toServer| == l.server.len
    requires made.Some? ==> |made.value| < LIMIT
    ensures l.talk.Received?
    ensures match Reply(l.server.kind, l.toServer, made)
            case None => LinkOk(l.(toServer := [], server := Gone))
            case Some(bytes) =>
              made.Some? &&
              LinkOk(l.(toServer := [], server := Writing, toClient := l.toClient + bytes, replies := l.replies + 1,
                        talk := Answered(l.talk.kind, made.value)))
  {
    hide Frame;
    if made.Some? {
      var reply := Frame(l.talk.kind.ReplyType(), made.value);
      assert [] + reply == reply;
    }
  }

  lemma CarryOk(l: Link, kind: Kind, data: Data)
    requires LinkOk(l) && l.talk == Quiet && |data| < LIMIT
    ensures LinkOk(Carry(l, kind, data)) && forall c: Client :: InStep(Write(kind), c, Carry(l, kind, data))
  {
    hide Frame;
  }

  /** A callback that ends on a quiet connection, or on none, keeps the invariant. */
  lemma DispatchOk(s: System, cb: Callback)
    requires cb.WellFormed() && OkWith(s.client, cb.Completes())
    requires forall i :: 0 <= i < |s.links| ==> LinkOk(s.links[i])
    requires s.current.Some? ==> s.current.value < |s.links|
    requires var next := Next(s.client, cb);
             && (next.Write? ==> s.current.Some? && s.links[s.current.value].talk == Quiet
                                 && |Content(s.client, cb)| < LIMIT)
             && (next == Timer && Handle(s.client, cb).open ==>
                   s.current.Some? && s.links[s.current.value].talk == Quiet)
             && (next == Timer && Handle(s.client, cb).effects == [] && !s.client.open ==> s.current.None?)
             && (next == Connect ==> s.current.None?)
             && (next.Header? || next.Payload? ==>
                   s.current.Some? && InStep(next, Handle(s.client, cb), s.links[s.current.value]))
    ensures InvariantWith(Dispatch(s, cb), Next(s.client, cb))
  {
    hide LinkOk, Handle, Carry, Content, Next, Apply, InStep;
    HandleIsOk(s.client, cb);
    EffectsAre(s.client, cb);
    var next, d := Next(s.client, cb), Handle(s.client, cb);
    match next {
      case Write(kind) =>
        CarryOk(s.links[s.current.value], kind, Content(s.client, cb));
        ApplySends(s, d, kind, Content(s.client, cb));
      case Timer =>
        ApplyWaits(s, d, Content(s.client, cb));
      case _ =>
        ApplyNothing(s, d, Content(s.client, cb));
    }
  }

  lemma ApplySends(s: System, client: Client, kind: Kind, data: Data)
    requires OkWith(client, Write(kind)) && client.effects == [Sent(Frame(kind.RequestType(), data))]
    requires forall i :: 0 <= i < |s.links| ==> LinkOk(s.links[i])
    requires Linked(s)
    requires var l := Carry(s.links[s.current.value], kind, data);
             LinkOk(l) && InStep(Write(kind), client, l)
    ensures InvariantWith(Apply(s, client, kind, data), Write(kind))
  {
    hide LinkOk, Carry, InStep, Frame;
  }

  lemma ApplyWaits(s: System, client: Client, data: Data)
    requires OkWith(client, Timer) && (client.effects == [] || client.effects == [Closed])
    requires forall i :: 0 <= i < |s.links| ==> LinkOk(s.links[i])
    requires s.current.Some? ==> s.current.value < |s.links|
    requires client.effects == [Closed] ==> !client.open
    requires client.open ==> s.current.Some? && s.links[s.current.value].talk == Quiet
    requires client.effects == [] && !client.open ==> s.current.None?
    ensures InvariantWith(Apply(s, client, Routine, data), Timer)
  {
    if client.effects == [Closed] && s.current.Some? {
      HangUpOk(s.links[s.current.value]);
    }
    hide LinkOk, Carry;
  }

  lemma HangUpOk(l: Link)
    requires LinkOk(l)
    ensures LinkOk(l.(up := false))
  {
    hide Frame;
  }

  lemma ApplyNothing(s: System, client: Client, data: Data)
    requires client.effects == [] && Ok(client) && client.pending != multiset{Timer}
    requires forall i :: 0 <= i < |s.links| ==> LinkOk(s.links[i])
    requires s.current.Some? ==> s.current.value < |s.links|
    requires forall op :: OkWith(client, op) && op == Connect ==> s.current.None?
    requires forall op :: OkWith(client, op) && op != Connect ==>
               s.current.Some? && InStep(op, client, s.links[s.current.value])
    ensures forall op :: OkWith(client, op) ==> InvariantWith(Apply(s, client, Routine, data), op)
  {
    hide LinkOk, Carry, InStep;
  }

  /** What a callback does to the exchanges: a frame that is sent starts one on the client's connection, and
      nothing else changes. */
  lemma DispatchTalks(s: System, cb: Callback)
    requires cb.WellFormed() && OkWith(s.client, cb.Completes())
    requires s.current.Some? ==> s.current.value < |s.links|
    requires Next(s.client, cb).Write? ==> s.current.Some?
    ensures var t, next := Dispatch(s, cb), Next(s.client, cb);
            && t.client == Handle(s.client, cb) && |t.links| == |s.links|
            && (t.current == s.current || t.current == None)
            && forall i :: 0 <= i < |s.links| ==>
                 t.links[i].talk == if next.Write? && s.current == Some(i)
                                    then Asked(next.kind, Content(s.client, cb)) else s.links[i].talk
  {
    hide Handle, Content, Next, Frame;
    EffectsAre(s.client, cb);
    HandleIsOk(s.client, cb);
  }

  /** What a step of the server does to an exchange. */
  lemma ServerTalks(l: Link, e: Event)
    requires LinkOk(l)
    ensures var u := ServerStep(l, e).talk;
            && MovesOn(l.talk, u)
            && (u.Answered? && u != l.talk ==>
                  e.ServerReadsPayload? && e.made.Some? && u.data == e.made.value)
  {
    hide Frame, AfterHeader;
  }

  /** A request long enough for its type is answered with the data produced for it. */
  lemma ReplyTalks(l: Link, link: nat, data: Data)
    requires LinkOk(l) && l.server.AwaitPayload? && |l.toServer| >= l.server.len && |data| < LIMIT
    requires l.server.len >= if l.talk.kind == Registration then 32 else 36
    ensures ServerStep(l, ServerReadsPayload(link, true, Some(data))).talk == Answered(l.talk.kind, data)
  {
    hide Frame;
  }

  lemma HeaderTakenOk(l: Link, c: Client, kind: Kind)
    requires LinkOk(l) && InStep(Header(kind), c, l) && |l.toClient| >= HEADER
    ensures LinkOk(HeaderTaken(l))
    ensures var hdr := l.toClient[..HEADER];
            forall d: Client :: d.hdr == hdr ==> InStep(Payload(kind, FromBE(hdr[1..])), d, HeaderTaken(l))
  {
    hide FromBE, ToBE, Frame;
    HeaderOf(kind.ReplyType(), l.talk.data, l.toClient);
    assert l.toClient[..HEADER][1..] == l.toClient[1..HEADER];
  }

  lemma HeaderIsStored(c: Client, kind: Kind, hdr: Data)
    requires |hdr| == HEADER
    ensures Handle(c, HeaderDone(kind, true, hdr)).hdr == hdr
  {
  }

  lemma HeaderFailsOk(s: System, kind: Kind)
    requires InvariantWith(s, Header(kind))
    ensures Invariant(Dispatch(s, HeaderDone(kind, false, [0, 0, 0, 0, 0])))
  {
    hide LinkOk, FromBE;
    DispatchOk(s, HeaderDone(kind, false, [0, 0, 0, 0, 0]));
  }

  lemma HeaderReadOk(s: System, kind: Kind)
    requires InvariantWith(s, Header(kind)) && s.current.Some?
    requires |s.links[s.current.value].toClient| >= HEADER
    ensures var l := s.links[s.current.value];
            Invariant(Dispatch(Put(s, s.current.value, HeaderTaken(l)), HeaderDone(kind, true, l.toClient[..HEADER])))
  {
    var i := s.current.value;
    var l := s.links[i];
    var hdr := l.toClient[..HEADER];
    var t := Put(s, i, HeaderTaken(l));
    HeaderTakenOk(l, s.client, kind);
    HeaderIsStored(t.client, kind, hdr);
    hide LinkOk, FromBE, InStep, Handle, Dispatch, HeaderTaken;
    DispatchOk(t, HeaderDone(kind, true, hdr));
  }

  lemma HeaderStepOk(s: System, kind: Kind, ok: bool)
    requires Invariant(s)
    ensures Header(kind) in s.client.pending && Linked(s) ==> Invariant(ReadHeader(s, kind, ok))
  {
    if Header(kind) in s.client.pending && Linked(s) {
      OpIs(s, Header(kind));
      hide Dispatch, Invariant, InvariantWith, HeaderTaken;
      if !ok {
        HeaderFailsOk(s, kind);
      } else if |s.links[s.current.value].toClient| >= HEADER {
        HeaderReadOk(s, kind);
      }
    }
  }

  lemma {:induction false} PayloadStepOk(s: System, kind: Kind, len: nat, ok: bool, readable: bool, body: Data)
    requires Invariant(s)
    ensures Payload(kind, len) in s.client.pending && Linked(s) && Bounded(body) ==>
              Invariant(ReadPayload(s, kind, len, ok, readable, body))
  {
    if Payload(kind, len) in s.client.pending && Linked(s) && Bounded(body) {
      OpIs(s, Payload(kind, len));
      hide Frame;
      var i := s.current.value;
      var l := s.links[i];
      if !ok {
        DispatchOk(s, PayloadDone(kind, len, false, [], readable, body));
      } else if |l.toClient| >= len {
        assert l.toClient[len..] == [];
        var t := Put(s, i, l.(toClient := [], talk := Quiet));
        DispatchOk(t, PayloadDone(kind, len, true, l.toClient[..len], readable, body));
      }
    }
  }

  lemma {:induction false} ConnectStepOk(s: System, ok: bool, publicKey: Data, body: Data)
    requires Invariant(s)
    ensures Invariant(Step(s, Connects(ok, publicKey, body)))
  {
    if Connect in s.client.pending && Bounded(body) {
      OpIs(s, Connect);
      var t := if ok then s.(links := s.links + [FRESH], current := Some(|s.links|)) else s;
      hide Frame, Handle;
      EffectsAre(t.client, ConnectDone(ok, publicKey, body));
      DispatchOk(t, ConnectDone(ok, publicKey, body));
    }
  }

  lemma {:induction false} TimerStepOk(s: System, body: Data)
    requires Invariant(s)
    ensures Invariant(Step(s, TimerFires(body)))
  {
    if Timer in s.client.pending && Bounded(body) {
      OpIs(s, Timer);
      hide Frame, LinkOk, Handle;
      EffectsAre(s.client, TimerFired(body));
      DispatchOk(s, TimerFired(body));
    }
  }

  lemma {:induction false} WriteStepOk(s: System, kind: Kind, ok: bool)
    requires Invariant(s)
    ensures Invariant(Step(s, ClientWrites(kind, ok)))
  {
    hide LinkOk, Frame, Handle;
    if Write(kind) in s.client.pending {
      OpIs(s, Write(kind));
      WriteCases(s.client, kind, ok);
      DispatchOk(s, WriteDone(kind, ok));
    }
  }

  lemma FlipStepOk(s: System, switched: bool)
    requires Invariant(s)
    ensures Invariant(Step(s, Flip(switched)))
  {
    var op :| InvariantWith(s, op);
    hide LinkOk;
    assert InvariantWith(Step(s, Flip(switched)), op);
  }

  lemma LinkStepOk(s: System, i: nat, e: Event)
    requires Invariant(s) && i < |s.links|
    ensures Invariant(Put(s, i, ServerStep(s.links[i], e)))
  {
    var op :| InvariantWith(s, op);
    ServerStepOk(s.links[i], e);
    hide LinkOk, ServerStep, InStep;
    assert InvariantWith(Put(s, i, ServerStep(s.links[i], e)), op);
  }

  lemma StepOk(s: System, e: Event)
    requires Invariant(s)
    ensures Invariant(Step(s, e))
  {
    hide Invariant, ServerStep, ReadHeader, ReadPayload, Dispatch;
    match e
    case Flip(switched) => FlipStepOk(s, switched);
    case TimerFires(body) => TimerStepOk(s, body);
    case Connects(ok, publicKey, body) => ConnectStepOk(s, ok, publicKey, body);
    case ClientWrites(kind, ok) => WriteStepOk(s, kind, ok);
    case ClientReadsHeader(kind, ok) => HeaderStepOk(s, kind, ok);
    case ClientReadsPayload(kind, len, ok, readable, body) => PayloadStepOk(s, kind, len, ok, readable, body);
    case _ =>
      if e.link < |s.links| {
        LinkStepOk(s, e.link, e);
      }
  }

  lemma InitialOk(switched: bool, registered: bool)
    ensures Invariant(Initial(switched, registered))
  {
    StartIsOk(switched, registered);
    var s := Initial(switched, registered);
    var op := if switched then Connect else Timer;
    assert CancelTimers(multiset{}) == multiset{};
    assert InvariantWith(s, op);
  }

  // ---- Over every run

  function Run(switched: bool, registered: bool, events: seq<Event>): System
    decreases |events|
  {
    if events == [] then Initial(switched, registered)
    else Step(Run(switched, registered, events[..|events| - 1]), events[|events| - 1])
  }

  lemma {:induction false} RunOk(switched: bool, registered: bool, events: seq<Event>)
    ensures Invariant(Run(switched, registered, events))
    decreases |events|
  {
    hide Invariant, Step, Initial;
    if events == [] {
      InitialOk(switched, registered);
    } else {
      RunOk(switched, registered, events[..|events| - 1]);
      StepOk(Run(switched, registered, events[..|events| - 1]), events[|events| - 1]);
    }
  }

  /** For every interleaving of connects, failures, timers, reads, writes and flips of the switch: the client has
      exactly one operation pending; on every connection at most one request is unanswered; and a payload about to
      be read belongs to a reply of the type the client waits for. */
  lemma {:induction false} KeepsStep(switched: bool, registered: bool, events: seq<Event>)
    ensures var s := Run(switched, registered, events);
            && |s.client.pending| == 1
            && (forall i :: 0 <= i < |s.links| ==> s.links[i].replies <= s.links[i].requests <= s.links[i].replies + 1)
            && (forall kind, len :: Payload(kind, len) in s.client.pending ==>
                  s.client.hdr != [] && s.client.hdr[0] == kind.ReplyType())
            && (Timer in s.client.pending && s.client.open ==> s.client.registered)
  {
    hide Run, Frame;
    RunOk(switched, registered, events);
    var s := Run(switched, registered, events);
    var op :| InvariantWith(s, op);
    forall i | 0 <= i < |s.links|
      ensures s.links[i].replies <= s.links[i].requests <= s.links[i].replies + 1
    {
      assert LinkOk(s.links[i]);
    }
    forall kind, len | Payload(kind, len) in s.client.pending
      ensures s.client.hdr != [] && s.client.hdr[0] == kind.ReplyType()
    {
      OpIs(s, Payload(kind, len));
    }
  }

  /** In every run the payload the client is handed is, whole, what the server put into the reply of the awaited
      type. */
  lemma {:induction false} PayloadIsTheReply(switched: bool, registered: bool, events: seq<Event>, kind: Kind, len: nat)
    requires Payload(kind, len) in Run(switched, registered, events).client.pending
    ensures var s := Run(switched, registered, events);
            && Linked(s)
            && var l := s.links[s.current.value];
               && l.talk.Reading? && l.talk.kind == kind
               && (|l.toClient| >= len ==> l.toClient[..len] == l.talk.data)
  {
    hide Run;
    RunOk(switched, registered, events);
    OpIs(Run(switched, registered, events), Payload(kind, len));
  }

  /** In every run the payload the server processes is, whole, what the client put into its request, under the
      type of that request. */
  lemma {:induction false} RequestIsWhatWasSent(switched: bool, registered: bool, events: seq<Event>, i: nat)
    requires i < |Run(switched, registered, events).links|
    requires Run(switched, registered, events).links[i].server.AwaitPayload?
    ensures var l := Run(switched, registered, events).links[i];
            && l.talk.Received? && l.server.kind == l.talk.kind.RequestType()
            && (|l.toServer| >= l.server.len ==> l.toServer[..l.server.len] == l.talk.data)
  {
    hide Run;
    RunOk(switched, registered, events);
    var s := Run(switched, registered, events);
    var op :| InvariantWith(s, op);
    assert LinkOk(s.links[i]);
  }

  /** In every run a check-in is written only by a registered client whose switch is on at that moment. */
  lemma {:induction false} CheckInsNeedRegistration(switched: bool, registered: bool, events: seq<Event>, cb: Callback)
    requires cb.WellFormed() && cb.Completes() in Run(switched, registered, events).client.pending
    ensures var d := Handle(Run(switched, registered, events).client, cb);
            forall i :: 0 <= i < |d.effects| && d.effects[i].Sent? ==>
              && |d.effects[i].bytes| >= HEADER
              && (d.effects[i].bytes[0] == 0x03 ==> d.registered && d.switched)
              && (d.effects[i].bytes[0] == 0x01 ==> !d.registered)
              && d.effects[i].bytes[0] in {0x01, 0x03}
  {
    hide Run, Handle;
    RunOk(switched, registered, events);
    var s := Run(switched, registered, events);
    OpIs(s, cb.Completes());
    FramesNeedTheirState(s.client, cb);
  }

  // ---- A check-in that nothing disturbs

  /** The client waits for its timer on an intact, quiet connection; the server waits for a header. */
  predicate Idle(s: System, i: nat) {
    && s.current == Some(i) && i < |s.links| && s.client.pending == multiset{Timer}
    && s.client.switched && s.client.open && s.client.registered
    && s.links[i].up && s.links[i].server == AwaitHeader && s.links[i].talk == Quiet
    && s.links[i].toServer == [] && s.links[i].toClient == []
  }

  /** The same client and the same connections but for one of each, with what is given here. */
  predicate Now(t: System, s: System, i: nat, op: Op, l: Link) {
    && i < |s.links| && t.links == s.links[i := l] && t.current == Some(i)
    && t.client.pending == multiset{op} && t.client.switched && t.client.open && t.client.registered
  }

  lemma TimerSends(s: System, i: nat, body: Data)
    requires Idle(s, i) && |body| < LIMIT
    ensures Now(Step(s, TimerFires(body)), s, i, Write(Routine),
                s.links[i].(toServer := Frame(0x03, body), talk := Asked(Routine, body), requests := s.links[i].requests + 1))
  {
    TimerCases(s.client, body);
    SwitchIsOnlyRead(s.client, TimerFired(body));
    hide Frame, Handle;
    assert Timer in s.client.pending;
    assert Handle(s.client, TimerFired(body)).effects[0].Sent?;
  }

  lemma WriteEnds(s: System, i: nat)
    requires s.current == Some(i) && i < |s.links| && s.client.pending == multiset{Write(Routine)}
    requires s.client.switched && s.client.open && s.client.registered
    ensures Now(Step(s, ClientWrites(Routine, true)), s, i, Header(Routine), s.links[i])
  {
    WriteCases(s.client, Routine, true);
    SwitchIsOnlyRead(s.client, WriteDone(Routine, true));
    hide Handle;
    assert Write(Routine) in s.client.pending;
    assert s.links[i := s.links[i]] == s.links;
  }

  lemma ServerTakesHeader(s: System, i: nat, data: Data)
    requires i < |s.links| && s.links[i].server == AwaitHeader && s.links[i].toServer == Frame(0x03, data)
    requires |data| <= LONGEST_REQUEST && s.links[i].talk == Asked(Routine, data)
    ensures Step(s, ServerReadsHeader(i, true)) ==
            Put(s, i, s.links[i].(server := AwaitPayload(0x03, |data|), toServer := data, talk := Received(Routine, data)))
  {
    var f := Frame(0x03, data);
    FrameIs(0x03, data);
    HeaderOf(0x03, data, f);
    hide Frame, FromBE;
    assert f[..HEADER][1..] == f[1..HEADER] && f[..HEADER][0] == f[0];
  }

  lemma ServerAnswers(s: System, i: nat, data: Data, made: Data)
    requires i < |s.links| && s.links[i].server == AwaitPayload(0x03, |data|) && s.links[i].toServer == data
    requires |data| >= 36 && |made| < LIMIT && s.links[i].talk == Received(Routine, data) && s.links[i].toClient == []
    ensures Step(s, ServerReadsPayload(i, true, Some(made))) ==
            Put(s, i, s.links[i].(server := Writing, toServer := [], toClient := Frame(0x04, made),
                                  replies := s.links[i].replies + 1, talk := Answered(Routine, made)))
  {
    hide Frame;
    assert data[..|data|] == data && data[|data|..] == [];
    assert [] + Frame(0x04, made) == Frame(0x04, made);
  }

  lemma ServerReady(s: System, i: nat)
    requires i < |s.links| && s.links[i].server == Writing
    ensures Step(s, ServerWritten(i, true)) == Put(s, i, s.links[i].(server := AwaitHeader))
  {
  }

  lemma ClientTakesHeader(s: System, i: nat, made: Data)
    requires s.current == Some(i) && i < |s.links| && s.client.pending == multiset{Header(Routine)}
    requires s.client.switched && s.client.open && s.client.registered
    requires s.links[i].toClient == Frame(0x04, made) && |made| < LIMIT && s.links[i].talk == Answered(Routine, made)
    ensures Now(Step(s, ClientReadsHeader(Routine, true)), s, i, Payload(Routine, |made|),
                s.links[i].(toClient := made, talk := Reading(Routine, made)))
  {
    var f := Frame(0x04, made);
    FrameIs(0x04, made);
    HeaderOf(0x04, made, f);
    var hdr := f[..HEADER];
    assert hdr[1..] == f[1..HEADER];
    var r := Put(s, i, HeaderTaken(s.links[i]));
    HeaderCases(r.client, Routine, true, hdr);
    SwitchIsOnlyRead(r.client, HeaderDone(Routine, true, hdr));
    hide Frame, FromBE, Handle;
    assert Header(Routine) in s.client.pending;
  }

  lemma ClientTakesAnswer(s: System, i: nat, made: Data)
    requires s.current == Some(i) && i < |s.links| && s.client.pending == multiset{Payload(Routine, |made|)}
    requires s.client.switched && s.client.open && s.client.registered
    requires s.links[i].toClient == made && s.links[i].talk == Reading(Routine, made)
    ensures Now(Step(s, ClientReadsPayload(Routine, |made|, true, true, [])), s, i, Timer,
                s.links[i].(toClient := [], talk := Quiet))
  {
    assert made[..|made|] == made && made[|made|..] == [];
    PayloadCases(s.client, Routine, |made|, true, made, true, []);
    SwitchIsOnlyRead(s.client, PayloadDone(Routine, |made|, true, made, true, []));
    hide Handle;
    assert Payload(Routine, |made|) in s.client.pending;
  }

  /** The seven steps of a check-in: the timer, the request written and read, the reply written and read. */
  function Round(s: System, i: nat, body: Data, made: Data): System {
    var s1 := Step(s, TimerFires(body));
    var s2 := Step(s1, ClientWrites(Routine, true));
    var s3 := Step(s2, ServerReadsHeader(i, true));
    var s4 := Step(s3, ServerReadsPayload(i, true, Some(made)));
    var s5 := Step(s4, ServerWritten(i, true));
    var s6 := Step(s5, ClientReadsHeader(Routine, true));
    Step(s6, ClientReadsPayload(Routine, |made|, true, true, []))
  }

  /** When nothing fails, every check-in of 36 bytes up to 512 KiB is answered, and both ends are ready for the next
      one on the same connection. */
  lemma CheckInCompletes(s: System, i: nat, body: Data, made: Data)
    requires Idle(s, i) && 36 <= |body| <= 524288 && |made| < 4294967296
    ensures var t := Round(s, i, body, made);
            && Idle(t, i)
            && t.links == s.links[i := s.links[i].(requests := s.links[i].requests + 1, replies := s.links[i].replies + 1)]
  {
    hide Step, Frame;
    var s1 := Step(s, TimerFires(body));
    TimerSends(s, i, body);
    var s2 := Step(s1, ClientWrites(Routine, true));
    WriteEnds(s1, i);
    var s3 := Step(s2, ServerReadsHeader(i, true));
    ServerTakesHeader(s2, i, body);
    var s4 := Step(s3, ServerReadsPayload(i, true, Some(made)));
    ServerAnswers(s3, i, body, made);
    var s5 := Step(s4, ServerWritten(i, true));
    ServerReady(s4, i);
    var s6 := Step(s5, ClientReadsHeader(Routine, true));
    ClientTakesHeader(s5, i, made);
    ClientTakesAnswer(s6, i, made);
  }
}
