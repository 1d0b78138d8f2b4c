/** `tcp_c_client`: the callback machine that registers with the coordinating server and checks in every two
    seconds, under a switch the user may flip at any moment.

    Every handler is a function of the client's state and of what its operation brought from outside; the class at
    the end runs the same handlers on its fields. The invariant is that exactly one operation is pending, in a
    state that fits it. */
module CoordinationClient {
  import opened Bytes

  /** Which reply a pending exchange waits for. */
  datatype Kind = Registration | Routine {
    function RequestType(): byte {
      match this case Registration => 0x01 case Routine => 0x03
    }
    function ReplyType(): byte {
      match this case Registration => 0x02 case Routine => 0x04
    }
  }

  /** An asynchronous operation whose handler has not run yet. A cancelled timer still runs its handler, which
      then does nothing. */
  datatype Op =
    | Timer
    | Cancelled
    | Connect
    | Write(kind: Kind)
    | Header(kind: Kind)
    | Payload(kind: Kind, len: nat)

  /** What a handler does to the connection. */
  datatype Effect = Sent(bytes: Data) | Closed

  /** `switched` is the user's switch, `open` whether the socket object is open, `hdr` the last header read. */
  datatype Client = Client(switched: bool, registered: bool, open: bool, pending: multiset<Op>, hdr: Data,
                           effects: seq<Effect>)

  const HEADER := 5
  const SHORTEST_REGISTRATION := 36 + 32 + 16 + 1

  function Frame(kind: byte, data: Data): (f: Data)
    ensures |f| == HEADER + |data|
  {
    [kind] + ToBE(|data|, 4) + data
  }

  // ---- The handlers, as functions; `pending` is what is left after the handled operation was taken out

  function CancelTimers(ops: multiset<Op>): multiset<Op> {
    ops[Cancelled := ops[Cancelled] + ops[Timer]][Timer := 0]
  }

  function Close(c: Client): Client {
    c.(open := false, effects := c.effects + [Closed])
  }

  function ScheduleRetry(c: Client): Client {
    var d := if !c.switched && c.open then Close(c).(registered := false) else c;
    d.(pending := CancelTimers(d.pending) + multiset{Timer})
  }

  function Reconnect(c: Client): Client {
    ScheduleRetry(Close(c))
  }

  function SendFrame(c: Client, kind: Kind, data: Data): Client {
    c.(pending := c.pending + multiset{Write(kind)}, effects := c.effects + [Sent(Frame(kind.RequestType(), data))])
  }

  function DoConnect(c: Client): Client {
    if !c.switched then ScheduleRetry(c)
    else c.(open := true, pending := c.pending + multiset{Connect})
  }

  /** `publicKey` is the content of the key file. */
  function DoRegister(c: Client, publicKey: Data): Client {
    if |publicKey| < 32 then Reconnect(c) else SendFrame(c, Registration, publicKey[..32])
  }

  /** `body` is the UUID followed by the encrypted request. */
  function DoRoutine(c: Client, body: Data): Client {
    if !c.switched then
      ScheduleRetry(if c.open then Close(c).(registered := false) else c)
    else SendFrame(c, Routine, body)
  }

  function Start(c: Client): Client {
    if !c.switched then ScheduleRetry(c) else DoConnect(c)
  }

  function OnTimer(c: Client, body: Data): Client {
    if !c.switched then ScheduleRetry(c)
    else if !c.open then DoConnect(c)
    else DoRoutine(c, body)
  }

  function OnConnect(c: Client, ok: bool, publicKey: Data, body: Data): Client {
    if !ok then Reconnect(c)
    else if !c.registered then DoRegister(c, publicKey)
    else DoRoutine(c, body)
  }

  function OnWrite(c: Client, kind: Kind, ok: bool): Client {
    if !ok then Reconnect(c) else c.(pending := c.pending + multiset{Header(kind)})
  }

  /** The type byte of the header is stored and never looked at. */
  function OnHeader(c: Client, kind: Kind, ok: bool, hdr: Data): Client
    requires |hdr| == HEADER
  {
    if !ok then Reconnect(c)
    else c.(hdr := hdr, pending := c.pending + multiset{Payload(kind, FromBE(hdr[1..]))})
  }

  /** `readable` says whether the decryption of the payload succeeds. */
  function OnPayload(c: Client, kind: Kind, ok: bool, payload: Data, readable: bool, body: Data): Client {
    if !ok then Reconnect(c)
    else match kind
      case Registration =>
        if |payload| < SHORTEST_REGISTRATION || !readable then Reconnect(c)
        else DoRoutine(c.(registered := true), body)
      case Routine => ScheduleRetry(c)
  }

  /** One callback: its input from outside, and whether the operation succeeded. */
  datatype Callback =
    | TimerFired(body: Data)
    | ConnectDone(ok: bool, publicKey: Data, body: Data)
    | WriteDone(kind: Kind, ok: bool)
    | HeaderDone(kind: Kind, ok: bool, hdr: Data)
    | PayloadDone(kind: Kind, len: nat, ok: bool, payload: Data, readable: bool, body: Data)
  {
    function Completes(): Op {
      match this
      case TimerFired(_) => Timer
      case ConnectDone(_, _, _) => Connect
      case WriteDone(kind, _) => Write(kind)
      case HeaderDone(kind, _, _) => Header(kind)
      case PayloadDone(kind, len, _, _, _, _) => Payload(kind, len)
    }

    predicate WellFormed() {
      && (HeaderDone? ==> |hdr| == HEADER)
      && (PayloadDone? && ok ==> |payload| == len)
    }
  }

  function Handle(c: Client, cb: Callback): Client
    requires cb.WellFormed()
  {
    var d := c.(pending := c.pending - multiset{cb.Completes()}, effects := []);
    match cb
    case TimerFired(body) => OnTimer(d, body)
    case ConnectDone(ok, publicKey, body) => OnConnect(d, ok, publicKey, body)
    case WriteDone(kind, ok) => OnWrite(d, kind, ok)
    case HeaderDone(kind, ok, hdr) => OnHeader(d, kind, ok, hdr)
    case PayloadDone(kind, _, ok, payload, readable, body) => OnPayload(d, kind, ok, payload, readable, body)
  }

  // ---- The invariant

  /** Exactly one operation is pending; a socket operation has its socket, a timer on an open socket means the
      client is registered, and a reply is awaited in the state that asked for it. */
  ghost predicate Ok(c: Client) {
    exists op :: OkWith(c, op)
  }

  predicate OkWith(c: Client, op: Op) {
    && c.pending == multiset{op}
    && match op
       case Timer => c.open ==> c.registered
       case Cancelled => false
       case Connect => c.open
       case Write(kind) => c.open && (kind == Routine <==> c.registered)
       case Header(kind) => c.open && (kind == Routine <==> c.registered)
       case Payload(kind, _) => c.open && (kind == Routine <==> c.registered)
  }

  lemma StartIsOk(switched: bool, registered: bool)
    ensures Ok(Start(Client(switched, registered, false, multiset{}, [], [])))
  {
    var c := Start(Client(switched, registered, false, multiset{}, [], []));
    assert CancelTimers(multiset{}) == multiset{};
    assert OkWith(c, if switched then Connect else Timer);
  }

  /** The operation pending after a callback. */
  function Next(c: Client, cb: Callback): Op
    requires cb.WellFormed()
  {
    match cb
    case TimerFired(_) =>
      if !c.switched then Timer else if !c.open then Connect else Write(Routine)
    case ConnectDone(ok, publicKey, _) =>
      if !ok then Timer
      else if !c.registered then (if |publicKey| < 32 then Timer else Write(Registration))
      else if c.switched then Write(Routine) else Timer
    case WriteDone(kind, ok) => if ok then Header(kind) else Timer
    case HeaderDone(kind, ok, hdr) => if ok then Payload(kind, FromBE(hdr[1..])) else Timer
    case PayloadDone(kind, _, ok, payload, readable, _) =>
      if ok && kind == Registration && |payload| >= SHORTEST_REGISTRATION && readable && c.switched then Write(Routine)
      else Timer
  }

  lemma RetryIsOk(c: Client)
    requires c.pending == multiset{}
    ensures c.open && c.switched ==> ScheduleRetry(c).registered == c.registered
    ensures (c.open && c.switched ==> c.registered) ==> OkWith(ScheduleRetry(c), Timer)
    ensures OkWith(Reconnect(c), Timer)
  {
    assert CancelTimers(multiset{}) == multiset{};
  }

  lemma FrameIsOk(c: Client, kind: Kind, data: Data)
    requires c.pending == multiset{} && c.open && (kind == Routine <==> c.registered)
    ensures OkWith(SendFrame(c, kind, data), Write(kind))
  {
    assert multiset{} + multiset{Write(kind)} == multiset{Write(kind)};
  }

  lemma RoutineIsOk(c: Client, body: Data)
    requires c.pending == multiset{} && c.open && c.registered
    ensures OkWith(DoRoutine(c, body), if c.switched then Write(Routine) else Timer)
  {
    hide ScheduleRetry, SendFrame;
    if c.switched {
      FrameIsOk(c, Routine, body);
    } else {
      RetryIsOk(Close(c).(registered := false));
    }
  }

  lemma ConnectIsOk(c: Client)
    requires c.pending == multiset{} && c.switched
    ensures OkWith(DoConnect(c), Connect)
  {
    assert multiset{} + multiset{Connect} == multiset{Connect};
  }

  lemma TimerIsOk(c: Client, body: Data)
    requires c.pending == multiset{} && (c.open ==> c.registered)
    ensures OkWith(OnTimer(c, body), if !c.switched then Timer else if !c.open then Connect else Write(Routine))
  {
    hide ScheduleRetry, DoRoutine, DoConnect;
    RetryIsOk(c);
    if c.switched && c.open {
      RoutineIsOk(c, body);
    } else if c.switched {
      ConnectIsOk(c);
    }
  }

  lemma ConnectedIsOk(c: Client, ok: bool, publicKey: Data, body: Data)
    requires c.pending == multiset{} && c.open
    ensures OkWith(OnConnect(c, ok, publicKey, body), Next(c, ConnectDone(ok, publicKey, body)))
  {
    hide Reconnect, DoRoutine, SendFrame;
    RetryIsOk(c);
    if c.registered {
      RoutineIsOk(c, body);
    } else if |publicKey| >= 32 {
      FrameIsOk(c, Registration, publicKey[..32]);
    }
  }

  lemma WrittenIsOk(c: Client, kind: Kind, ok: bool)
    requires c.pending == multiset{} && c.open && (kind == Routine <==> c.registered)
    ensures OkWith(OnWrite(c, kind, ok), if ok then Header(kind) else Timer)
  {
    hide Reconnect;
    RetryIsOk(c);
    assert multiset{} + multiset{Header(kind)} == multiset{Header(kind)};
  }

  lemma HeaderIsOk(c: Client, kind: Kind, ok: bool, hdr: Data)
    requires c.pending == multiset{} && c.open && (kind == Routine <==> c.registered) && |hdr| == HEADER
    ensures OkWith(OnHeader(c, kind, ok, hdr), if ok then Payload(kind, FromBE(hdr[1..])) else Timer)
  {
    hide Reconnect, FromBE;
    RetryIsOk(c);
    var op := Payload(kind, FromBE(hdr[1..]));
    assert multiset{} + multiset{op} == multiset{op};
  }

  lemma PayloadIsOk(c: Client, kind: Kind, ok: bool, payload: Data, readable: bool, body: Data)
    requires c.pending == multiset{} && c.open && (kind == Routine <==> c.registered)
    ensures OkWith(OnPayload(c, kind, ok, payload, readable, body),
                   Next(c, PayloadDone(kind, |payload|, ok, payload, readable, body)))
  {
    hide Reconnect, DoRoutine, ScheduleRetry;
    RetryIsOk(c);
    RoutineIsOk(c.(registered := true), body);
  }

  /** The handler starts with nothing pending, in the state its operation waited in. */
  lemma Taken(c: Client, cb: Callback) returns (d: Client)
    requires cb.WellFormed() && OkWith(c, cb.Completes())
    ensures d == c.(pending := c.pending - multiset{cb.Completes()}, effects := [])
    ensures d.pending == multiset{} && Next(d, cb) == Next(c, cb)
    ensures if cb.TimerFired? then d.open ==> d.registered
            else d.open && (cb.ConnectDone? || (cb.kind == Routine <==> d.registered))
  {
    d := c.(pending := c.pending - multiset{cb.Completes()}, effects := []);
    hide FromBE;
  }

  /** Whatever callback comes, one operation is pending again, and the invariant holds. */
  lemma HandleIsOk(c: Client, cb: Callback)
    requires cb.WellFormed() && OkWith(c, cb.Completes())
    ensures OkWith(Handle(c, cb), Next(c, cb))
    ensures Ok(Handle(c, cb))
  {
    hide FromBE, OnTimer, OnConnect, OnWrite, OnHeader, OnPayload, OkWith;
    var d := Taken(c, cb);
    match cb {
      case TimerFired(body) => TimerIsOk(d, body);
      case ConnectDone(ok, publicKey, body) => ConnectedIsOk(d, ok, publicKey, body);
      case WriteDone(kind, ok) => WrittenIsOk(d, kind, ok);
      case HeaderDone(kind, ok, hdr) => HeaderIsOk(d, kind, ok, hdr);
      case PayloadDone(kind, _, ok, payload, readable, body) => PayloadIsOk(d, kind, ok, payload, readable, body);
    }
    assert OkWith(Handle(c, cb), Next(c, cb));
  }

  /** A check-in frame leaves only a registered client whose switch is on when the frame is built; a
      registration frame only an unregistered one. */
  lemma FramesNeedTheirState(c: Client, cb: Callback)
    requires cb.WellFormed() && OkWith(c, cb.Completes())
    ensures var d := Handle(c, cb);
            forall i :: 0 <= i < |d.effects| && d.effects[i].Sent? ==>
              && |d.effects[i].bytes| >= HEADER
              && (d.effects[i].bytes[0] == 0x03 ==> d.registered && d.switched)
              && (d.effects[i].bytes[0] == 0x01 ==> !d.registered)
              && d.effects[i].bytes[0] in {0x01, 0x03}
  {
    hide FromBE, ToBE, CancelTimers;
  }

  /** A callback that runs with the switch off and leaves the client waiting for its timer has closed the socket.
      It never registers the client, and a tick on an open socket or an answered check-in drops the registration.
      The one frame it may still send is a registration on a connection just made. */
  lemma SwitchedOffClosesUp(c: Client, cb: Callback)
    requires cb.WellFormed() && OkWith(c, cb.Completes()) && !c.switched
    ensures var d := Handle(c, cb);
            && (Next(c, cb) == Timer ==> !d.open)
            && (d.registered ==> c.registered)
            && (cb.TimerFired? && c.open ==> !d.registered)
            && (cb.PayloadDone? && cb.ok && cb.kind == Routine ==> !d.registered)
            && (Next(c, cb).Write? ==> cb.ConnectDone? && !c.registered)
  {
    HandleIsOk(c, cb);
    hide FromBE, Frame;
  }

  /** The pending operation is the one the state fits. */
  lemma OneIsFit(c: Client, op: Op)
    requires Ok(c) && c.pending == multiset{op}
    ensures OkWith(c, op)
  {
    var p :| OkWith(c, p);
    assert p in multiset{op};
  }

  /** Only the handling of a readable registration reply registers the client. */
  lemma RegisteredByReply(c: Client, cb: Callback)
    requires cb.WellFormed() && Handle(c, cb).registered
    ensures c.registered || (cb.PayloadDone? && cb.ok && cb.kind == Registration && cb.readable
                             && |cb.payload| >= SHORTEST_REGISTRATION)
  {
    hide FromBE, Frame, CancelTimers;
  }

  /** The content of the frame a callback sends, if it sends one. */
  function Content(c: Client, cb: Callback): Data {
    match cb
    case TimerFired(body) => body
    case ConnectDone(_, publicKey, body) =>
      if c.registered then body else if |publicKey| < 32 then [] else publicKey[..32]
    case PayloadDone(_, _, _, _, _, body) => body
    case _ => []
  }

  lemma RetryEffects(c: Client)
    requires c.effects == []
    ensures var d := ScheduleRetry(c);
            (d.effects == [] || d.effects == [Closed]) && (d.open <==> c.open && d.effects == [])
    ensures Reconnect(c).effects == [Closed] && !Reconnect(c).open
    ensures var d := ScheduleRetry(Close(c).(registered := false)); d.effects == [Closed] && !d.open
  {
    hide CancelTimers;
  }

  /** A callback sends at most one frame or closes the socket, never both. */
  lemma EffectsAre(c: Client, cb: Callback)
    requires cb.WellFormed() && OkWith(c, cb.Completes())
    ensures var d := Handle(c, cb);
            match Next(c, cb)
            case Write(kind) => d.effects == [Sent(Frame(kind.RequestType(), Content(c, cb)))]
            case Timer => (d.effects == [] || d.effects == [Closed]) && (d.open <==> c.open && d.effects == [])
            case _ => d.effects == []
  {
    hide FromBE, Frame, CancelTimers, ScheduleRetry, Reconnect;
    var d := c.(pending := c.pending - multiset{cb.Completes()}, effects := []);
    RetryEffects(d);
    RetryEffects(d.(registered := true));
  }

  /** The same, told by what was done: the socket was closed and the client waits, or one frame went out. */
  lemma OneEffect(c: Client, cb: Callback)
    requires cb.WellFormed() && OkWith(c, cb.Completes())
    ensures var d := Handle(c, cb);
            && d.switched == c.switched && |d.pending| == 1 && |d.effects| <= 1
            && (Closed in d.effects ==> !d.open && d.pending == multiset{Timer})
            && forall e :: e in d.effects && e.Sent? ==>
                 d.open && |e.bytes| >= HEADER
                 && if d.registered then e.bytes[0] == 0x03 && d.switched && d.pending == multiset{Write(Routine)}
                    else e.bytes[0] == 0x01 && d.pending == multiset{Write(Registration)}
  {
    HandleIsOk(c, cb);
    EffectsAre(c, cb);
    SwitchIsOnlyRead(c, cb);
    hide Handle, Next, Content, FromBE, Frame, Ok;
    var d, next := Handle(c, cb), Next(c, cb);
    if next.Write? {
      assert d.effects == [Sent(Frame(next.kind.RequestType(), Content(c, cb)))];
      FrameStart(next.kind.RequestType(), Content(c, cb));
    }
  }

  lemma FrameStart(kind: byte, data: Data)
    ensures |Frame(kind, data)| >= HEADER && Frame(kind, data)[0] == kind
  {
  }

  lemma SwitchIsOnlyRead(c: Client, cb: Callback)
    requires cb.WellFormed()
    ensures Handle(c, cb).switched == c.switched
  {
    hide FromBE, Frame, CancelTimers;
  }

  // ---- Every callback, case by case

  /** The client waits for its timer on a closed socket. */
  predicate Down(d: Client, registered: bool, closed: bool) {
    && d.pending == multiset{Timer} && !d.open && d.registered == registered
    && d.effects == if closed then [Closed] else []
  }

  /** The client goes on with `op` on its open socket, having sent these bytes, if any. */
  predicate Up(d: Client, op: Op, registered: bool, sent: Data) {
    && d.pending == multiset{op} && d.open && d.registered == registered
    && d.effects == if sent == [] then [] else [Sent(sent)]
  }

  /** A handler starts with nothing pending and nothing done. */
  predicate Begun(c: Client) {
    c.pending == multiset{} && c.effects == []
  }

  lemma GivesUp(c: Client)
    requires Begun(c)
    ensures Down(Reconnect(c), c.registered, true)
  {
    assert CancelTimers(multiset{}) == multiset{};
    assert multiset{} + multiset{Timer} == multiset{Timer};
    hide CancelTimers;
  }

  lemma WaitsOff(c: Client)
    requires Begun(c) && !c.switched
    ensures Down(ScheduleRetry(c), c.registered && !c.open, c.open)
  {
    assert CancelTimers(multiset{}) == multiset{};
    assert multiset{} + multiset{Timer} == multiset{Timer};
    hide CancelTimers;
  }

  /** A check-in or a registration goes out on the open socket. */
  lemma FrameGoesOut(c: Client, kind: Kind, data: Data)
    requires Begun(c) && c.open
    ensures Up(SendFrame(c, kind, data), Write(kind), c.registered, [kind.RequestType()] + ToBE(|data|, 4) + data)
  {
    hide ToBE;
    assert multiset{} + multiset{Write(kind)} == multiset{Write(kind)};
    assert [] + [Sent(Frame(kind.RequestType(), data))] == [Sent(Frame(kind.RequestType(), data))];
  }

  lemma RoutineCases(c: Client, body: Data)
    requires Begun(c) && c.open && c.registered
    ensures var d := DoRoutine(c, body);
            if c.switched then Up(d, Write(Routine), true, [0x03] + ToBE(|body|, 4) + body) else Down(d, false, true)
  {
    hide ToBE, CancelTimers, SendFrame;
    if c.switched {
      FrameGoesOut(c, Routine, body);
    } else {
      assert CancelTimers(multiset{}) == multiset{} by {
        NothingToCancel();
      }
      assert multiset{} + multiset{Timer} == multiset{Timer};
    }
  }

  lemma NothingToCancel()
    ensures CancelTimers(multiset{}) == multiset{}
  {
  }

  lemma TimerCases(c: Client, body: Data)
    requires OkWith(c, Timer)
    ensures var d := Handle(c, TimerFired(body));
            if !c.switched then Down(d, c.registered && !c.open, c.open)
            else if !c.open then Up(d, Connect, c.registered, [])
            else Up(d, Write(Routine), true, [0x03] + ToBE(|body|, 4) + body)
  {
    var d := Taken(c, TimerFired(body));
    hide ToBE, OkWith, ScheduleRetry, DoRoutine, Down;
    if !c.switched {
      WaitsOff(d);
    } else if c.open {
      RoutineCases(d, body);
    } else {
      assert multiset{} + multiset{Connect} == multiset{Connect};
    }
  }

  lemma ConnectCases(c: Client, ok: bool, publicKey: Data, body: Data)
    requires OkWith(c, Connect)
    ensures var d := Handle(c, ConnectDone(ok, publicKey, body));
            if !ok || (!c.registered && |publicKey| < 32) then Down(d, c.registered, true)
            else if !c.registered then Up(d, Write(Registration), false, [0x01] + ToBE(32, 4) + publicKey[..32])
            else if !c.switched then Down(d, false, true)
            else Up(d, Write(Routine), true, [0x03] + ToBE(|body|, 4) + body)
  {
    var d := Taken(c, ConnectDone(ok, publicKey, body));
    hide ToBE, OkWith, Reconnect, DoRoutine, SendFrame, Down, Up;
    GivesUp(d);
    if ok && c.registered {
      RoutineCases(d, body);
    } else if ok && |publicKey| >= 32 {
      FrameGoesOut(d, Registration, publicKey[..32]);
    }
  }

  lemma WriteCases(c: Client, kind: Kind, ok: bool)
    requires OkWith(c, Write(kind))
    ensures var d := Handle(c, WriteDone(kind, ok));
            if ok then Up(d, Header(kind), c.registered, []) else Down(d, c.registered, true)
  {
    var d := Taken(c, WriteDone(kind, ok));
    hide OkWith, Reconnect, Down;
    GivesUp(d);
    assert multiset{} + multiset{Header(kind)} == multiset{Header(kind)};
  }

  lemma HeaderCases(c: Client, kind: Kind, ok: bool, hdr: Data)
    requires OkWith(c, Header(kind)) && |hdr| == HEADER
    ensures var d := Handle(c, HeaderDone(kind, ok, hdr));
            if ok then Up(d, Payload(kind, FromBE(hdr[1..])), c.registered, []) && d.hdr == hdr
            else Down(d, c.registered, true)
  {
    var d := Taken(c, HeaderDone(kind, ok, hdr));
    hide FromBE, OkWith, Reconnect, Down;
    GivesUp(d);
    var op := Payload(kind, FromBE(hdr[1..]));
    assert multiset{} + multiset{op} == multiset{op};
  }

  /** A short or unreadable registration reply ends the connection, a good one registers and leads straight to a
      check-in; an answered check-in leaves everything as it is until the timer fires. */
  lemma PayloadCases(c: Client, kind: Kind, len: nat, ok: bool, payload: Data, readable: bool, body: Data)
    requires OkWith(c, Payload(kind, len)) && (ok ==> |payload| == len)
    ensures var d := Handle(c, PayloadDone(kind, len, ok, payload, readable, body));
            if !ok || (kind == Registration && (|payload| < 85 || !readable)) then Down(d, c.registered, true)
            else if !c.switched then Down(d, false, true)
            else if kind == Registration then Up(d, Write(Routine), true, [0x03] + ToBE(|body|, 4) + body)
            else d.pending == multiset{Timer} && d.open && d.registered && d.effects == []
  {
    var d := Taken(c, PayloadDone(kind, len, ok, payload, readable, body));
    hide ToBE, OkWith, Reconnect, DoRoutine, ScheduleRetry;
    GivesUp(d);
    RoutineCases(d.(registered := true), body);
    if !c.switched {
      WaitsOff(d);
    } else {
      WaitsOn(d);
    }
  }

  lemma WaitsOn(c: Client)
    requires Begun(c) && c.switched
    ensures ScheduleRetry(c) == c.(pending := multiset{Timer})
  {
    NothingToCancel();
    hide CancelTimers;
    assert multiset{} + multiset{Timer} == multiset{Timer};
  }

  // ---- The object of the client

  /** `pending` are the operations started and not yet handled, `effects` what the running handler did to the
      connection. */
  class TcpClient {
    var switched: bool
    var registered: bool
    var socketOpen: bool
    var hdr: Data
    var pending: multiset<Op>
    var effects: seq<Effect>

    function Value(): Client
      reads this
    {
      Client(switched, registered, socketOpen, pending, hdr, effects)
    }

    /** Exactly one operation is pending, in a state that fits it. */
    ghost predicate Valid()
      reads this
    {
      Ok(Value())
    }

    /** The client is built and started. */
    constructor (switched: bool, registered: bool)
      ensures Valid() && this.switched == switched && this.registered == registered
      ensures pending == multiset{if switched then Connect else Timer} && socketOpen == switched
      ensures Value() == Start(Client(switched, registered, false, multiset{}, [], []))
    {
      this.switched, this.registered := switched, registered;
      socketOpen, hdr, pending, effects := false, [], multiset{}, [];
      new;
      StartIsOk(switched, registered);
      assert CancelTimers(multiset{}) == multiset{};
      if !switched {
        Retry();
      } else {
        BeginConnect();
      }
    }

    method CloseSocket()
      modifies this`socketOpen, this`effects
      ensures !socketOpen && effects == old(effects) + [Closed]
    {
      socketOpen := false;
      effects := effects + [Closed];
    }

    /** `schedule_retry`: whatever waits were armed, one is armed now, and the others are cancelled. Switched off,
        the socket is closed, and a registration does not outlive it; switched on, neither changes. */
    method Retry()
      modifies this`socketOpen, this`registered, this`pending, this`effects
      ensures pending[Timer] == 1 && pending[Cancelled] == old(pending)[Cancelled] + old(pending)[Timer]
      ensures forall op :: op != Timer && op != Cancelled ==> pending[op] == old(pending)[op]
      ensures socketOpen <==> switched && old(socketOpen)
      ensures registered <==> old(registered) && (switched || !old(socketOpen))
      ensures effects == old(effects) + if old(socketOpen) && !switched then [Closed] else []
      ensures Value() == ScheduleRetry(old(Value()))
    {
      pending := CancelTimers(pending);
      if !switched {
        if socketOpen {
          CloseSocket();
          registered := false;
        }
      }
      pending := pending + multiset{Timer};
    }

    /** `reconnect`: the socket is closed, and nothing but the timer is left. */
    method GiveUp()
      requires pending == multiset{}
      modifies this`socketOpen, this`registered, this`pending, this`effects
      ensures !socketOpen && registered == old(registered) && pending == multiset{Timer}
      ensures effects == old(effects) + [Closed]
      ensures Value() == Reconnect(old(Value()))
    {
      CloseSocket();
      Retry();
    }

    /** `send_frame`. A check-in goes out only registered and switched on, a registration only unregistered. */
    method Transmit(kind: Kind, data: Data)
      requires socketOpen && (kind == Routine ==> registered && switched) && (kind == Registration ==> !registered)
      modifies this`pending, this`effects
      ensures pending == old(pending) + multiset{Write(kind)}
      ensures effects == old(effects) + [Sent(Frame(kind.RequestType(), data))]
    {
      effects := effects + [Sent(Frame(kind.RequestType(), data))];
      pending := pending + multiset{Write(kind)};
    }

    method BeginConnect()
      modifies this
      ensures Value() == DoConnect(old(Value()))
    {
      if !switched {
        Retry();
        return;
      }
      socketOpen := true;
      pending := pending + multiset{Connect};
    }

    method Register(publicKey: Data)
      requires pending == multiset{} && socketOpen && !registered
      modifies this
      ensures Value() == DoRegister(old(Value()), publicKey)
    {
      if |publicKey| < 32 {
        GiveUp();
        return;
      }
      Transmit(Registration, publicKey[..32]);
    }

    method CheckIn(body: Data)
      requires pending == multiset{} && (switched ==> socketOpen && registered)
      modifies this
      ensures Value() == DoRoutine(old(Value()), body)
    {
      hide Frame, CancelTimers;
      if !switched {
        if socketOpen {
          CloseSocket();
          registered := false;
        }
        Retry();
        return;
      }
      Transmit(Routine, body);
    }

    method TimerHandler(body: Data)
      requires pending == multiset{} && (socketOpen ==> registered)
      modifies this
      ensures Value() == OnTimer(old(Value()), body)
    {
      if !switched {
        Retry();
      } else if !socketOpen {
        BeginConnect();
      } else {
        CheckIn(body);
      }
    }

    method ConnectHandler(ok: bool, publicKey: Data, body: Data)
      requires pending == multiset{} && socketOpen
      modifies this
      ensures Value() == OnConnect(old(Value()), ok, publicKey, body)
    {
      if !ok {
        GiveUp();
      } else if !registered {
        Register(publicKey);
      } else {
        CheckIn(body);
      }
    }

    method WriteHandler(kind: Kind, ok: bool)
      requires pending == multiset{}
      modifies this
      ensures Value() == OnWrite(old(Value()), kind, ok)
    {
      if !ok {
        GiveUp();
      } else {
        pending := pending + multiset{Header(kind)};
      }
    }

    method HeaderHandler(kind: Kind, ok: bool, header: Data)
      requires pending == multiset{} && |header| == HEADER
      modifies this
      ensures Value() == OnHeader(old(Value()), kind, ok, header)
    {
      if !ok {
        GiveUp();
      } else {
        hdr := header;
        pending := pending + multiset{Payload(kind, FromBE(header[1..]))};
      }
    }

    method PayloadHandler(kind: Kind, ok: bool, payload: Data, readable: bool, body: Data)
      requires pending == multiset{} && socketOpen && (kind == Routine <==> registered)
      modifies this
      ensures Value() == OnPayload(old(Value()), kind, ok, payload, readable, body)
    {
      if !ok {
        GiveUp();
      } else if kind == Registration {
        if |payload| < SHORTEST_REGISTRATION || !readable {
          GiveUp();
        } else {
          registered := true;
          CheckIn(body);
        }
      } else {
        Retry();
      }
    }

    /** The io loop hands the finished operation to its handler. One operation is pending again, in a state that
        fits it; at most one thing was done to the connection: either it was closed, or one frame went out, a
        check-in only registered and switched on, a registration only unregistered. The switch is only read. */
    method Run(cb: Callback)
      requires cb.WellFormed() && pending == multiset{cb.Completes()} && Valid()
      modifies this
      ensures Valid() && |pending| == 1 && switched == old(switched)
      ensures |effects| <= 1 && (Closed in effects ==> !socketOpen && pending == multiset{Timer})
      ensures forall e :: e in effects && e.Sent? ==>
                socketOpen && |e.bytes| >= HEADER
                && if registered then e.bytes[0] == 0x03 && switched && pending == multiset{Write(Routine)}
                   else e.bytes[0] == 0x01 && pending == multiset{Write(Registration)}
      ensures Value() == Handle(old(Value()), cb)
    {
      hide OnTimer, OnConnect, OnWrite, OnHeader, OnPayload, Next, OkWith;
      ghost var before := Value();
      OneIsFit(before, cb.Completes());
      HandleIsOk(before, cb);
      OneEffect(before, cb);
      ghost var begun := Taken(before, cb);
      pending := pending - multiset{cb.Completes()};
      effects := [];
      assert Value() == begun;
      match cb {
        case TimerFired(body) => TimerHandler(body);
        case ConnectDone(ok, publicKey, body) => ConnectHandler(ok, publicKey, body);
        case WriteDone(kind, ok) => WriteHandler(kind, ok);
        case HeaderDone(kind, ok, header) => HeaderHandler(kind, ok, header);
        case PayloadDone(kind, len, ok, payload, readable, body) => PayloadHandler(kind, ok, payload, readable, body);
      }
    }
  }
}
