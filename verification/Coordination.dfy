/** The coordinating client and the server as one system: a registration hands the client a number and a key, and
    its check-ins and the server's answers travel under that key. The byte streams are those of `Lockstep`; here
    their contents are computed, and other clients come and go at will. */
module Coordination {
  import opened Bytes
  import opened Crypto
  import opened CoordinationClient
  import W = Wire
  import K = KeyExchange
  import S = Server
  import R = Rendezvous
  import L = Lockstep

  /** What is fixed over a run: the cipher, the wrapping of keys, and the client's secret. */
  datatype Setup = Setup(c: Cipher, w: K.Wrap, secret: Key)

  ghost predicate SetupOk(x: Setup) {
    Lawful(x.c) && K.WrapLawful(x.w)
  }

  /** What the exchange on a connection is about; part of the history, read by neither end. */
  datatype Note =
    | Nothing
    | CheckingIn(uuid: Data, key: Key, ask: W.Parsed, iv: nat)
    | Assigned(uuid: Data, key: Key, r: nat)
    | Listed(uuid: Data, key: Key, peers: seq<W.Peer>, iv: nat)

  /** `uuid` and `key` are the client's, `notes` go with the connections of `net`. */
  datatype World = World(net: L.System, uuid: Data, key: Key, server: S.State, notes: seq<Note>)

  /** `ask` is what the client wants to tell and to know at that moment, `iv` and `r` are random choices. A number
      and a key given out at a registration are random as well; `Elsewhere` is an event of another client. */
  datatype Event =
    | Flip(switched: bool)
    | TimerFires(ask: W.Parsed, iv: nat)
    | Connects(ok: bool, keyFile: bool, ask: W.Parsed, iv: nat)
    | ClientWrites(kind: Kind, ok: bool)
    | ClientReadsHeader(kind: Kind, ok: bool)
    | ClientReadsPayload(kind: Kind, len: nat, ok: bool, ask: W.Parsed, iv: nat)
    | ServerReadsHeader(link: nat, ok: bool)
    | ServerRegisters(link: nat, uuid: Data, key: Key, r: nat)
    | ServerChecksIn(link: nat, publicIp: Data, now: nat, iv: nat)
    | ServerFails(link: nat)
    | ServerWritten(link: nat, ok: bool)
    | Break(link: nat, keptToServer: nat, keptToClient: nat)
    | Elsewhere(e: R.Event)

  // ---- The contents

  function PublicKey(x: Setup): Key {
    x.w.publicOf(x.secret)
  }

  /** A check-in: the client's number in the clear, the request encrypted. */
  function Body(x: Setup, uuid: Data, key: Key, ask: W.Parsed, iv: nat): Data {
    uuid + x.c.enc(W.Request(ask.ip, ask.ports, ask.targets), key, iv)
  }

  /** A registration reply: the new number and the new key wrapped for the public key that came with the request. */
  function Handout(x: Setup, pub: Key, uuid: Data, key: Key, r: nat): Data {
    uuid + x.w.wrap(key, pub, r)
  }

  function List(x: Setup, peers: seq<W.Peer>, key: Key, iv: nat): Data {
    x.c.enc(W.Response(peers), key, iv)
  }

  // ---- The steps

  /** The notes after a step: one is written where a request was sent. */
  function Renote(was: L.System, now: L.System, notes: seq<Note>, entry: Note): seq<Note> {
    seq(|now.links|, i requires 0 <= i < |now.links| =>
      if now.links[i].talk.Asked? && !(i < |was.links| && was.links[i].talk == now.links[i].talk) then entry
      else if i < |notes| then notes[i] else Nothing)
  }

  function Via(s: World, e: L.Event, entry: Note): World {
    var net := L.Step(s.net, e);
    s.(net := net, notes := Renote(s.net, net, s.notes, entry))
  }

  /** The bytes of a payload that is due and has arrived whole. */
  function Arrived(s: World, kind: Kind, len: nat): Option<Data> {
    if Payload(kind, len) in s.net.client.pending && L.Linked(s.net)
       && |s.net.links[s.net.current.value].toClient| >= len
    then Some(s.net.links[s.net.current.value].toClient[..len])
    else None
  }

  /** `handle_register_response`: the number is taken over at once, the key when it can be unwrapped. */
  function TakesHandout(x: Setup, s: World, len: nat, payload: Data, ask: W.Parsed, iv: nat): World
    requires |payload| >= SHORTEST_REGISTRATION
  {
    var uuid := payload[..W.UUID];
    var found := x.w.unwrap(payload[W.UUID..], x.secret);
    var key := if found.Some? then found.value else s.key;
    var body := Body(x, uuid, key, ask, iv);
    if !L.Bounded(body) then s
    else Via(s, L.ClientReadsPayload(Registration, len, true, found.Some?, body), CheckingIn(uuid, key, ask, iv))
         .(uuid := uuid, key := key)
  }

  /** The payload of request type `kind` the server has read on a connection. */
  function Asking(s: World, link: nat, kind: Kind): Option<Data> {
    if link < |s.net.links| && s.net.links[link].server.AwaitPayload?
       && s.net.links[link].server.kind == kind.RequestType()
       && |s.net.links[link].toServer| >= s.net.links[link].server.len
    then Some(s.net.links[link].toServer[..s.net.links[link].server.len])
    else None
  }

  function Noted(notes: seq<Note>, link: nat, note: Note): seq<Note> {
    if link < |notes| then notes[link := note] else notes
  }

  /** The reply goes out, and `note` says what it is about. */
  function Replies(s: World, link: nat, data: Data, note: Note): World {
    s.(net := L.Step(s.net, L.ServerReadsPayload(link, true, Some(data))), notes := Noted(s.notes, link, note))
  }

  /** The number given out was not used before. */
  function Registers(x: Setup, s: World, link: nat, uuid: Data, key: Key, r: nat): World {
    match Asking(s, link, Registration)
    case None => s
    case Some(payload) =>
      if |payload| < 32 || |uuid| != W.UUID || uuid in s.server.keys then s
      else
        var data := Handout(x, payload[..32], uuid, key, r);
        if !L.Bounded(data) then s
        else Replies(s, link, data, Assigned(uuid, key, r)).(server := s.server.(keys := s.server.keys[uuid := key]))
  }

  /** `process_payload` on a check-in: a request that is not accepted ends the connection. */
  function ChecksIn(x: Setup, s: World, link: nat, publicIp: Data, now: nat, iv: nat): World {
    match Asking(s, link, Routine)
    case None => s
    case Some(payload) =>
      if |payload| < W.UUID || |publicIp| > 255 then s
      else
        var uuid, encrypted := payload[..W.UUID], payload[W.UUID..];
        match S.Accepted(x.c, s.server, uuid, encrypted)
        case None => s.(net := L.Step(s.net, L.ServerReadsPayload(link, true, None)))
        case Some(request) =>
          var key := S.KeyOf(s.server, uuid).value;
          var peers := S.Answer(s.server, uuid, publicIp, request, now);
          var data := List(x, peers, key, iv);
          if !L.Bounded(data) then s
          else Replies(s, link, data, Listed(uuid, key, peers, iv))
               .(server := R.Step(x.c, s.server, R.Request(uuid, encrypted, publicIp, now, iv)))
  }

  /** Another client may send whatever it likes, also under this client's number; numbers are given out once. */
  predicate Possible(server: S.State, e: R.Event) {
    R.WellFramed(e) && (e.Register? ==> e.uuid !in server.keys)
  }

  function Step(x: Setup, s: World, e: Event): World {
    match e
    case Flip(switched) => Via(s, L.Flip(switched), Nothing)
    case TimerFires(ask, iv) =>
      Via(s, L.TimerFires(Body(x, s.uuid, s.key, ask, iv)), CheckingIn(s.uuid, s.key, ask, iv))
    case Connects(ok, keyFile, ask, iv) =>
      Via(s, L.Connects(ok, if keyFile then PublicKey(x) else [], Body(x, s.uuid, s.key, ask, iv)),
          CheckingIn(s.uuid, s.key, ask, iv))
    case ClientWrites(kind, ok) => Via(s, L.ClientWrites(kind, ok), Nothing)
    case ClientReadsHeader(kind, ok) => Via(s, L.ClientReadsHeader(kind, ok), Nothing)
    case ClientReadsPayload(kind, len, ok, ask, iv) =>
      var payload := Arrived(s, kind, len);
      if ok && kind == Registration && payload.Some? && |payload.value| >= SHORTEST_REGISTRATION
      then TakesHandout(x, s, len, payload.value, ask, iv)
      else Via(s, L.ClientReadsPayload(kind, len, ok, false, []), Nothing)
    case ServerReadsHeader(link, ok) => Via(s, L.ServerReadsHeader(link, ok), Nothing)
    case ServerRegisters(link, uuid, key, r) => Registers(x, s, link, uuid, key, r)
    case ServerChecksIn(link, publicIp, now, iv) => ChecksIn(x, s, link, publicIp, now, iv)
    case ServerFails(link) => Via(s, L.ServerReadsPayload(link, false, None), Nothing)
    case ServerWritten(link, ok) => Via(s, L.ServerWritten(link, ok), Nothing)
    case Break(link, m, n) => Via(s, L.Break(link, m, n), Nothing)
    case Elsewhere(other) =>
      if Possible(s.server, other) then s.(server := R.Step(x.c, s.server, other)) else s
  }

  // ---- The invariant

  /** The server keeps this key for this number. */
  predicate Holds(keys: map<Data, Key>, uuid: Data, key: Key) {
    |uuid| == W.UUID && uuid in keys && keys[uuid] == key
  }

  ghost predicate MeansRequest(x: Setup, keys: map<Data, Key>, kind: Kind, data: Data, note: Note) {
    match kind
    case Registration => data == PublicKey(x)
    case Routine =>
      && note.CheckingIn? && Holds(keys, note.uuid, note.key)
      && data == Body(x, note.uuid, note.key, note.ask, note.iv)
  }

  ghost predicate MeansReply(x: Setup, keys: map<Data, Key>, kind: Kind, data: Data, note: Note) {
    match kind
    case Registration =>
      && note.Assigned? && Holds(keys, note.uuid, note.key)
      && data == Handout(x, PublicKey(x), note.uuid, note.key, note.r)
    case Routine =>
      && note.Listed? && Holds(keys, note.uuid, note.key)
      && data == List(x, note.peers, note.key, note.iv)
      && W.ParseResponse(W.Response(note.peers)) == Some(note.peers)
  }

  ghost predicate Means(x: Setup, keys: map<Data, Key>, talk: L.Talk, note: Note) {
    match talk
    case Quiet => true
    case Asked(kind, data) => MeansRequest(x, keys, kind, data, note)
    case Received(kind, data) => MeansRequest(x, keys, kind, data, note)
    case Answered(kind, data) => MeansReply(x, keys, kind, data, note)
    case Reading(kind, data) => MeansReply(x, keys, kind, data, note)
  }

  /** A check-in and its answer on the client's own connection are under the client's own number and key. */
  predicate Own(uuid: Data, key: Key, talk: L.Talk, note: Note) {
    talk.Quiet? || talk.kind == Registration || (!note.Nothing? && note.uuid == uuid && note.key == key)
  }

  ghost predicate LinksMean(x: Setup, keys: map<Data, Key>, links: seq<L.Link>, notes: seq<Note>) {
    |notes| == |links| && forall i :: 0 <= i < |links| ==> Means(x, keys, links[i].talk, notes[i])
  }

  ghost predicate OwnLink(net: L.System, notes: seq<Note>, uuid: Data, key: Key) {
    L.Linked(net) && |notes| == |net.links| ==>
      Own(uuid, key, net.links[net.current.value].talk, notes[net.current.value])
  }

  predicate KeysKept(server: S.State) {
    forall u :: u in server.table ==> u in server.keys && server.table[u].key == server.keys[u]
  }

  ghost predicate ServerOk(server: S.State) {
    KeysKept(server) && R.TableOk(server.table)
  }

  predicate ClientOk(s: World) {
    s.net.client.registered ==> Holds(s.server.keys, s.uuid, s.key)
  }

  ghost predicate Invariant(x: Setup, s: World) {
    && L.Invariant(s.net)
    && LinksMean(x, s.server.keys, s.net.links, s.notes)
    && OwnLink(s.net, s.notes, s.uuid, s.key)
    && ClientOk(s)
    && ServerOk(s.server)
  }

  // ---- The server's memory

  /** Keys are only ever added. */
  ghost predicate Grows(keys: map<Data, Key>, more: map<Data, Key>) {
    forall u :: u in keys ==> u in more && more[u] == keys[u]
  }

  lemma MeansGrows(x: Setup, keys: map<Data, Key>, more: map<Data, Key>, talk: L.Talk, note: Note)
    requires Grows(keys, more) && Means(x, keys, talk, note)
    ensures Means(x, more, talk, note)
  {
    hide Body, Handout, List, PublicKey, W.Response, W.ParseResponse;
  }

  lemma LinksGrow(x: Setup, keys: map<Data, Key>, more: map<Data, Key>, links: seq<L.Link>, notes: seq<Note>)
    requires Grows(keys, more) && LinksMean(x, keys, links, notes)
    ensures LinksMean(x, more, links, notes)
  {
    hide Means, Grows;
    forall i | 0 <= i < |links|
      ensures Means(x, more, links[i].talk, notes[i])
    {
      MeansGrows(x, keys, more, links[i].talk, notes[i]);
    }
  }

  lemma KeyIsKept(server: S.State, uuid: Data)
    requires KeysKept(server)
    ensures S.KeyOf(server, uuid) == if uuid in server.keys then Some(server.keys[uuid]) else None
  {
  }

  /** Whatever happens at the server, a key once saved stays the key of its number. */
  lemma ServerKeeps(c: Cipher, server: S.State, e: R.Event)
    requires ServerOk(server) && Possible(server, e)
    ensures ServerOk(R.Step(c, server, e)) && Grows(server.keys, R.Step(c, server, e).keys)
  {
    R.StepKeepsTable(c, server, e);
    hide R.TableOk;
    if e.Request? {
      KeyIsKept(server, e.uuid);
      hide S.Accepted;
    }
  }

  // ---- Callbacks of the client

  /** What a callback may start from: `pre` is the connections when its handler runs, `notes` those before the
      event. A request it sends goes out on a quiet connection and is what `entry` says. */
  ghost predicate Ready(x: Setup, keys: map<Data, Key>, was: L.System, pre: L.System, notes: seq<Note>,
                        cb: Callback, entry: Note) {
    && cb.WellFormed() && OkWith(pre.client, cb.Completes())
    && |notes| == |was.links| <= |pre.links|
    && (pre.current.Some? ==> pre.current.value < |pre.links|)
    && (forall i :: 0 <= i < |was.links| ==>
          Means(x, keys, pre.links[i].talk, notes[i])
          && (pre.links[i].talk.Asked? ==> pre.links[i].talk == was.links[i].talk))
    && (forall i :: |was.links| <= i < |pre.links| ==> pre.links[i].talk == L.Quiet)
    && (Next(pre.client, cb).Write? ==>
          && pre.current.Some? && pre.links[pre.current.value].talk == L.Quiet
          && (pre.current.value < |was.links| ==> !was.links[pre.current.value].talk.Asked?)
          && MeansRequest(x, keys, Next(pre.client, cb).kind, Content(pre.client, cb), entry))
  }

  lemma CallbackMeans(x: Setup, keys: map<Data, Key>, was: L.System, pre: L.System, notes: seq<Note>,
                      cb: Callback, entry: Note)
    requires Ready(x, keys, was, pre, notes, cb, entry)
    ensures var net := L.Dispatch(pre, cb);
            LinksMean(x, keys, net.links, Renote(was, net, notes, entry))
  {
    hide Next, Content, Handle, OkWith, MeansRequest, MeansReply, L.Dispatch;
    L.DispatchTalks(pre, cb);
    var net := L.Dispatch(pre, cb);
    var noted := Renote(was, net, notes, entry);
    forall i | 0 <= i < |net.links|
      ensures Means(x, keys, net.links[i].talk, noted[i])
    {
      if Next(pre.client, cb).Write? && pre.current == Some(i) {
        assert noted[i] == entry;
      } else {
        assert net.links[i].talk == pre.links[i].talk;
      }
    }
  }

  lemma CallbackOwns(x: Setup, keys: map<Data, Key>, was: L.System, pre: L.System, notes: seq<Note>,
                     cb: Callback, entry: Note, uuid: Data, key: Key)
    requires Ready(x, keys, was, pre, notes, cb, entry)
    requires Next(pre.client, cb) == Write(Routine) ==> !entry.Nothing? && entry.uuid == uuid && entry.key == key
    requires pre.current.Some? && pre.current.value < |was.links| ==>
               Own(uuid, key, pre.links[pre.current.value].talk, notes[pre.current.value])
    ensures var net := L.Dispatch(pre, cb);
            OwnLink(net, Renote(was, net, notes, entry), uuid, key)
  {
    hide Next, Content, Handle, OkWith, MeansRequest, MeansReply, Means, L.Dispatch;
    L.DispatchTalks(pre, cb);
  }

  lemma CallbackKeeps(x: Setup, s: World, e: L.Event, pre: L.System, cb: Callback, entry: Note, uuid: Data, key: Key)
    requires Invariant(x, s) && Ready(x, s.server.keys, s.net, pre, s.notes, cb, entry)
    requires L.Step(s.net, e) == L.Dispatch(pre, cb)
    requires Next(pre.client, cb) == Write(Routine) ==> !entry.Nothing? && entry.uuid == uuid && entry.key == key
    requires pre.current.Some? && pre.current.value < |s.net.links| ==>
               Own(uuid, key, pre.links[pre.current.value].talk, s.notes[pre.current.value])
    requires Handle(pre.client, cb).registered ==> Holds(s.server.keys, uuid, key)
    ensures Invariant(x, Via(s, e, entry).(uuid := uuid, key := key))
  {
    L.StepOk(s.net, e);
    CallbackMeans(x, s.server.keys, s.net, pre, s.notes, cb, entry);
    CallbackOwns(x, s.server.keys, s.net, pre, s.notes, cb, entry, uuid, key);
    L.DispatchTalks(pre, cb);
    hide L.Dispatch, L.Step, L.Invariant, LinksMean, OwnLink, ServerOk, Holds, Renote, Next, Handle;
  }

  /** The same when the client's number and key stay. */
  lemma CallbackStays(x: Setup, s: World, e: L.Event, pre: L.System, cb: Callback, entry: Note)
    requires Invariant(x, s) && Ready(x, s.server.keys, s.net, pre, s.notes, cb, entry)
    requires L.Step(s.net, e) == L.Dispatch(pre, cb) && pre.client == s.net.client
    requires Next(pre.client, cb) == Write(Routine) ==> !entry.Nothing? && entry.uuid == s.uuid && entry.key == s.key
    requires pre.current.Some? && pre.current.value < |s.net.links| ==>
               Own(s.uuid, s.key, pre.links[pre.current.value].talk, s.notes[pre.current.value])
    requires Handle(pre.client, cb).registered ==> pre.client.registered
    ensures Invariant(x, Via(s, e, entry))
  {
    var t := Via(s, e, entry);
    assert t.(uuid := s.uuid, key := s.key) == t;
    hide Ready, Via, Handle, Next, L.Step, L.Dispatch, Holds;
    CallbackKeeps(x, s, e, pre, cb, entry, s.uuid, s.key);
  }

  lemma Unmoved(x: Setup, s: World, e: L.Event, entry: Note)
    requires Invariant(x, s) && L.Step(s.net, e) == s.net
    ensures Via(s, e, entry) == s
  {
    hide L.Step, L.Invariant, Means;
    assert Renote(s.net, s.net, s.notes, entry) == s.notes;
  }

  /** A pending operation that waits on a quiet connection, or on none, may be handled. */
  lemma TimerKeeps(x: Setup, s: World, ask: W.Parsed, iv: nat)
    requires Invariant(x, s)
    ensures Invariant(x, Step(x, s, TimerFires(ask, iv)))
  {
    var body, entry := Body(x, s.uuid, s.key, ask, iv), CheckingIn(s.uuid, s.key, ask, iv);
    var e, cb := L.TimerFires(body), TimerFired(body);
    hide Body, Via, L.Dispatch, Means;
    if Timer in s.net.client.pending && L.Bounded(body) {
      L.OpIs(s.net, Timer);
      Unregistering(s.net.client, cb);
      assert Ready(x, s.server.keys, s.net, s.net, s.notes, cb, entry);
      CallbackStays(x, s, e, s.net, cb, entry);
    } else {
      Unmoved(x, s, e, entry);
    }
  }

  lemma Unregistering(c: Client, cb: Callback)
    requires cb.WellFormed() && !(cb.PayloadDone? && cb.ok && cb.kind == Registration && cb.readable
                                  && |cb.payload| >= SHORTEST_REGISTRATION)
    ensures Handle(c, cb).registered ==> c.registered
  {
    hide Handle;
    if Handle(c, cb).registered {
      RegisteredByReply(c, cb);
    }
  }

  /** A connection just made is quiet. */
  lemma ReadyConnected(x: Setup, s: World, cb: Callback, entry: Note)
    requires LinksMean(x, s.server.keys, s.net.links, s.notes)
    requires cb.WellFormed() && OkWith(s.net.client, cb.Completes())
    requires Next(s.net.client, cb).Write? ==>
               MeansRequest(x, s.server.keys, Next(s.net.client, cb).kind, Content(s.net.client, cb), entry)
    ensures var pre := s.net.(links := s.net.links + [L.FRESH], current := Some(|s.net.links|));
            Ready(x, s.server.keys, s.net, pre, s.notes, cb, entry)
  {
    hide Means, MeansRequest, Next, Content, OkWith;
  }

  /** What a client sends on a connection just made. */
  lemma FirstFrame(x: Setup, s: World, ok: bool, keyFile: bool, ask: W.Parsed, iv: nat)
    requires ClientOk(s)
    ensures var publicKey: Data := if keyFile then PublicKey(x) else [];
            var cb := ConnectDone(ok, publicKey, Body(x, s.uuid, s.key, ask, iv));
            var next := Next(s.net.client, cb);
            && (next.Write? ==> ok)
            && (next.Write? ==> MeansRequest(x, s.server.keys, next.kind, Content(s.net.client, cb),
                                             CheckingIn(s.uuid, s.key, ask, iv)))
  {
    hide Body, Holds;
    assert PublicKey(x)[..32] == PublicKey(x);
  }

  lemma ConnectKeeps(x: Setup, s: World, ok: bool, keyFile: bool, ask: W.Parsed, iv: nat)
    requires Invariant(x, s)
    ensures Invariant(x, Step(x, s, Connects(ok, keyFile, ask, iv)))
  {
    var body, entry := Body(x, s.uuid, s.key, ask, iv), CheckingIn(s.uuid, s.key, ask, iv);
    var publicKey: Data := if keyFile then PublicKey(x) else [];
    var e := L.Connects(ok, publicKey, body);
    hide Body, Via, L.Dispatch, PublicKey, Invariant;
    if Connect in s.net.client.pending && L.Bounded(body) {
      ConnectHandled(x, s, ok, keyFile, ask, iv);
    } else {
      Unmoved(x, s, e, entry);
    }
  }

  lemma ConnectHandled(x: Setup, s: World, ok: bool, keyFile: bool, ask: W.Parsed, iv: nat)
    requires Invariant(x, s) && Connect in s.net.client.pending && L.Bounded(Body(x, s.uuid, s.key, ask, iv))
    ensures var body := Body(x, s.uuid, s.key, ask, iv);
            Invariant(x, Via(s, L.Connects(ok, if keyFile then PublicKey(x) else [], body),
                             CheckingIn(s.uuid, s.key, ask, iv)))
  {
    var body, entry := Body(x, s.uuid, s.key, ask, iv), CheckingIn(s.uuid, s.key, ask, iv);
    var publicKey: Data := if keyFile then PublicKey(x) else [];
    var e, cb := L.Connects(ok, publicKey, body), ConnectDone(ok, publicKey, body);
    L.OpIs(s.net, Connect);
    FirstFrame(x, s, ok, keyFile, ask, iv);
    hide Body, Via, L.Dispatch, PublicKey, Next, Content, MeansRequest, Handle, L.Invariant, ServerOk;
    Unregistering(s.net.client, cb);
    if ok {
      ReadyConnected(x, s, cb, entry);
      var pre := s.net.(links := s.net.links + [L.FRESH], current := Some(|s.net.links|));
      hide Ready, LinksMean, OwnLink, L.InvariantWith;
      CallbackStays(x, s, e, pre, cb, entry);
    } else {
      NoFrame(x, s, e, cb, entry);
    }
  }

  /** The connection the client reads from is put back with an exchange moved on, and not newly asked. */
  lemma ReadyWith(x: Setup, s: World, l: L.Link, cb: Callback, entry: Note)
    requires LinksMean(x, s.server.keys, s.net.links, s.notes) && L.Linked(s.net)
    requires cb.WellFormed() && OkWith(s.net.client, cb.Completes())
    requires !l.talk.Asked? && Means(x, s.server.keys, l.talk, s.notes[s.net.current.value])
    requires Next(s.net.client, cb).Write? ==>
               && l.talk == L.Quiet && !s.net.links[s.net.current.value].talk.Asked?
               && MeansRequest(x, s.server.keys, Next(s.net.client, cb).kind, Content(s.net.client, cb), entry)
    ensures Ready(x, s.server.keys, s.net, L.Put(s.net, s.net.current.value, l), s.notes, cb, entry)
  {
    hide Means, MeansRequest, Next, Content, OkWith;
  }

  /** A callback that sends nothing. */
  lemma NoFrame(x: Setup, s: World, e: L.Event, cb: Callback, entry: Note)
    requires Invariant(x, s) && cb.WellFormed() && L.InvariantWith(s.net, cb.Completes())
    requires !Next(s.net.client, cb).Write? && !(cb.PayloadDone? && cb.readable)
    requires L.Step(s.net, e) == L.Dispatch(s.net, cb)
    ensures Invariant(x, Via(s, e, entry))
  {
    hide Next, Handle, L.Step, L.Dispatch, Means, L.Invariant, Via, L.InStep, OkWith;
    Unregistering(s.net.client, cb);
    assert Ready(x, s.server.keys, s.net, s.net, s.notes, cb, entry);
    CallbackStays(x, s, e, s.net, cb, entry);
  }

  lemma WriteKeeps(x: Setup, s: World, kind: Kind, ok: bool)
    requires Invariant(x, s)
    ensures Invariant(x, Step(x, s, ClientWrites(kind, ok)))
  {
    var e := L.ClientWrites(kind, ok);
    hide Via, L.Dispatch, Means, L.InvariantWith, Invariant;
    assert L.Invariant(s.net) by { NetIsOk(x, s); }
    if Write(kind) in s.net.client.pending {
      L.OpIs(s.net, Write(kind));
      NoFrame(x, s, e, WriteDone(kind, ok), Nothing);
    } else {
      Unmoved(x, s, e, Nothing);
    }
  }

  lemma NetIsOk(x: Setup, s: World)
    requires Invariant(x, s)
    ensures L.Invariant(s.net)
  {
  }

  lemma HeaderKeeps(x: Setup, s: World, kind: Kind, ok: bool)
    requires Invariant(x, s)
    ensures Invariant(x, Step(x, s, ClientReadsHeader(kind, ok)))
  {
    var e := L.ClientReadsHeader(kind, ok);
    hide Via, L.Dispatch, Means, L.InvariantWith, Invariant, FromBE, L.HeaderTaken;
    NetIsOk(x, s);
    if Header(kind) in s.net.client.pending && L.Linked(s.net) {
      L.OpIs(s.net, Header(kind));
      if !ok {
        NoFrame(x, s, e, HeaderDone(kind, false, [0, 0, 0, 0, 0]), Nothing);
      } else if |s.net.links[s.net.current.value].toClient| < HEADER {
        Unmoved(x, s, e, Nothing);
      } else {
        HeaderReadKeeps(x, s, kind);
      }
    } else {
      Unmoved(x, s, e, Nothing);
    }
  }

  lemma HeaderReadKeeps(x: Setup, s: World, kind: Kind)
    requires Invariant(x, s) && L.InvariantWith(s.net, Header(kind)) && L.Linked(s.net)
    requires |s.net.links[s.net.current.value].toClient| >= HEADER
    ensures Invariant(x, Via(s, L.ClientReadsHeader(kind, true), Nothing))
  {
    var i, e := s.net.current.value, L.ClientReadsHeader(kind, true);
    var l := s.net.links[i];
    var cb := HeaderDone(kind, true, l.toClient[..HEADER]);
    var pre := L.Put(s.net, i, L.HeaderTaken(l));
    assert Means(x, s.server.keys, l.talk, s.notes[i]);
    hide Via, L.Dispatch, FromBE, Handle, MeansRequest, MeansReply, L.LinkOk, L.Invariant, LinksMean, ServerOk;
    Unregistering(pre.client, cb);
    ReadyWith(x, s, L.HeaderTaken(l), cb, Nothing);
    hide Ready, OkWith, Means;
    CallbackStays(x, s, e, pre, cb, Nothing);
  }

  lemma PayloadKeeps(x: Setup, s: World, kind: Kind, len: nat, ok: bool)
    requires Invariant(x, s)
    ensures Invariant(x, Via(s, L.ClientReadsPayload(kind, len, ok, false, []), Nothing))
  {
    var e := L.ClientReadsPayload(kind, len, ok, false, []);
    hide Via, L.Dispatch, Means, L.InvariantWith, Invariant;
    NetIsOk(x, s);
    if Payload(kind, len) in s.net.client.pending && L.Linked(s.net) {
      L.OpIs(s.net, Payload(kind, len));
      if !ok {
        NoFrame(x, s, e, PayloadDone(kind, len, false, [], false, []), Nothing);
      } else if |s.net.links[s.net.current.value].toClient| < len {
        Unmoved(x, s, e, Nothing);
      } else {
        PayloadReadKeeps(x, s, kind, len);
      }
    } else {
      Unmoved(x, s, e, Nothing);
    }
  }

  lemma PayloadReadKeeps(x: Setup, s: World, kind: Kind, len: nat)
    requires Invariant(x, s) && L.InvariantWith(s.net, Payload(kind, len)) && L.Linked(s.net)
    requires |s.net.links[s.net.current.value].toClient| >= len
    ensures Invariant(x, Via(s, L.ClientReadsPayload(kind, len, true, false, []), Nothing))
  {
    var i, e := s.net.current.value, L.ClientReadsPayload(kind, len, true, false, []);
    var l := s.net.links[i];
    var cb := PayloadDone(kind, len, true, l.toClient[..len], false, []);
    var pre := L.Put(s.net, i, l.(toClient := l.toClient[len..], talk := L.Quiet));
    hide Via, L.Dispatch, FromBE, Handle, MeansRequest, MeansReply, L.LinkOk, L.Invariant, LinksMean, ServerOk;
    Unregistering(pre.client, cb);
    ReadyWith(x, s, l.(toClient := l.toClient[len..], talk := L.Quiet), cb, Nothing);
    hide Ready, OkWith, Means;
    CallbackStays(x, s, e, pre, cb, Nothing);
  }

  /** A handout is read back: the number in front, the key behind it. */
  lemma HandoutRead(x: Setup, uuid: Data, key: Key, r: nat)
    requires SetupOk(x) && |uuid| == W.UUID
    ensures var data := Handout(x, PublicKey(x), uuid, key, r);
            && |data| >= SHORTEST_REGISTRATION && data[..W.UUID] == uuid
            && x.w.unwrap(data[W.UUID..], x.secret) == Some(key)
  {
    var wrapped := x.w.wrap(key, PublicKey(x), r);
    assert |wrapped| == K.WRAPPED && x.w.unwrap(wrapped, x.secret) == Some(key);
    var data := Handout(x, PublicKey(x), uuid, key, r);
    assert data[..W.UUID] == uuid && data[W.UUID..] == wrapped;
  }

  /** The payload the client is handed is what its note says. */
  lemma PayloadMeans(x: Setup, s: World, kind: Kind, len: nat)
    requires Invariant(x, s) && Arrived(s, kind, len).Some?
    ensures L.InvariantWith(s.net, Payload(kind, len))
    ensures var i := s.net.current.value;
            && MeansReply(x, s.server.keys, kind, Arrived(s, kind, len).value, s.notes[i])
            && (kind == Routine ==> s.notes[i].uuid == s.uuid && s.notes[i].key == s.key)
  {
    L.OpIs(s.net, Payload(kind, len));
    var i := s.net.current.value;
    assert L.LinkOk(s.net.links[i]) && Means(x, s.server.keys, s.net.links[i].talk, s.notes[i]);
    hide MeansReply, MeansRequest, Frame, L.Invariant, ServerOk;
  }

  /** What the client reads in a registration reply. */
  lemma HandoutMeans(x: Setup, s: World, len: nat)
    requires SetupOk(x) && Invariant(x, s) && Arrived(s, Registration, len).Some?
    ensures var payload, note := Arrived(s, Registration, len).value, s.notes[s.net.current.value];
            && note.Assigned? && Holds(s.server.keys, note.uuid, note.key)
            && |payload| >= SHORTEST_REGISTRATION && payload[..W.UUID] == note.uuid
            && x.w.unwrap(payload[W.UUID..], x.secret) == Some(note.key)
  {
    PayloadMeans(x, s, Registration, len);
    var note := s.notes[s.net.current.value];
    HandoutRead(x, note.uuid, note.key, note.r);
    hide Handout, SetupOk, Invariant;
  }

  lemma HandoutKeeps(x: Setup, s: World, len: nat, ask: W.Parsed, iv: nat)
    requires SetupOk(x) && Invariant(x, s) && Arrived(s, Registration, len).Some?
    requires |Arrived(s, Registration, len).value| >= SHORTEST_REGISTRATION
    ensures Invariant(x, TakesHandout(x, s, len, Arrived(s, Registration, len).value, ask, iv))
  {
    PayloadMeans(x, s, Registration, len);
    HandoutMeans(x, s, len);
    hide MeansReply, L.LinkOk, L.Invariant, SetupOk, LinksMean, ServerOk, Body, Via, Holds;
    var i, payload := s.net.current.value, Arrived(s, Registration, len).value;
    var l, note := s.net.links[i], s.notes[i];
    var body, entry := Body(x, note.uuid, note.key, ask, iv), CheckingIn(note.uuid, note.key, ask, iv);
    if L.Bounded(body) {
      var e := L.ClientReadsPayload(Registration, len, true, true, body);
      var cb := PayloadDone(Registration, len, true, payload, true, body);
      var m := l.(toClient := l.toClient[len..], talk := L.Quiet);
      hide L.Dispatch, Handle;
      ReadyWith(x, s, m, cb, entry);
      hide Ready, OkWith, Means;
      CallbackKeeps(x, s, e, L.Put(s.net, i, m), cb, entry, note.uuid, note.key);
    }
  }

  // ---- The server

  lemma NotesStay(s: World, link: nat, l: L.Link)
    requires link < |s.net.links| == |s.notes| && (l.talk.Asked? ==> l.talk == s.net.links[link].talk)
    ensures Renote(s.net, L.Put(s.net, link, l), s.notes, Nothing) == s.notes
  {
  }

  lemma MovedOnMeans(x: Setup, keys: map<Data, Key>, t: L.Talk, u: L.Talk, note: Note)
    requires Means(x, keys, t, note) && L.MovesOn(t, u) && (u.Answered? ==> u == t)
    ensures Means(x, keys, u, note)
    ensures forall uuid, key :: Own(uuid, key, t, note) ==> Own(uuid, key, u, note)
  {
    hide MeansRequest, MeansReply;
  }

  /** One connection is exchanged for another that means the same. */
  lemma LinkPut(x: Setup, s: World, link: nat, l: L.Link)
    requires LinksMean(x, s.server.keys, s.net.links, s.notes) && link < |s.net.links|
    requires OwnLink(s.net, s.notes, s.uuid, s.key)
    requires Means(x, s.server.keys, l.talk, s.notes[link])
    requires forall uuid, key :: Own(uuid, key, s.net.links[link].talk, s.notes[link]) ==> Own(uuid, key, l.talk, s.notes[link])
    ensures LinksMean(x, s.server.keys, L.Put(s.net, link, l).links, s.notes)
    ensures OwnLink(L.Put(s.net, link, l), s.notes, s.uuid, s.key)
  {
    hide Means, Own;
  }

  /** A step of the server that sends nothing. */
  lemma SilentKeeps(x: Setup, s: World, link: nat, e: L.Event)
    requires Invariant(x, s) && link < |s.net.links|
    requires L.Step(s.net, e) == L.Put(s.net, link, L.ServerStep(s.net.links[link], e))
    requires !(e.ServerReadsPayload? && e.made.Some?)
    ensures Invariant(x, s.(net := L.Step(s.net, e))) && Via(s, e, Nothing) == s.(net := L.Step(s.net, e))
  {
    L.StepOk(s.net, e);
    LinkIsOk(s.net, link);
    hide L.Step, L.ServerStep, L.Invariant, ServerOk, Means, L.LinkOk;
    var l := L.ServerStep(s.net.links[link], e);
    L.ServerTalks(s.net.links[link], e);
    NotesStay(s, link, l);
    MovedOnMeans(x, s.server.keys, s.net.links[link].talk, l.talk, s.notes[link]);
    hide Renote, LinksMean, OwnLink, Own, L.Put, ClientOk;
    LinkPut(x, s, link, l);
    PutKeepsClient(s.net, link, l);
    hide Via;
    ViaIs(s, e);
    SameClient(s, L.Step(s.net, e));
  }

  lemma PutKeepsClient(net: L.System, link: nat, l: L.Link)
    requires link < |net.links|
    ensures L.Put(net, link, l).client == net.client
  {
  }

  lemma ViaIs(s: World, e: L.Event)
    requires Renote(s.net, L.Step(s.net, e), s.notes, Nothing) == s.notes
    ensures Via(s, e, Nothing) == s.(net := L.Step(s.net, e))
  {
    hide Renote, L.Step;
  }

  lemma SameClient(s: World, net: L.System)
    requires ClientOk(s) && net.client == s.net.client
    ensures ClientOk(s.(net := net))
  {
  }

  lemma LinkIsOk(net: L.System, link: nat)
    requires L.Invariant(net) && link < |net.links|
    ensures L.LinkOk(net.links[link])
  {
    var op :| L.InvariantWith(net, op);
  }

  /** The payload the server has read is what its note says. */
  lemma RequestMeans(x: Setup, s: World, link: nat, kind: Kind)
    requires Invariant(x, s) && Asking(s, link, kind).Some?
    ensures var l := s.net.links[link];
            && L.LinkOk(l) && l.talk.Received? && l.talk.kind == kind
            && |Asking(s, link, kind).value| == l.server.len
            && MeansRequest(x, s.server.keys, kind, Asking(s, link, kind).value, s.notes[link])
  {
    LinkIsOk(s.net, link);
    assert Means(x, s.server.keys, s.net.links[link].talk, s.notes[link]);
    hide MeansRequest, MeansReply, L.Invariant, ServerOk, Frame;
  }

  /** A reply goes out: its note says what it is, and no key is forgotten meanwhile. */
  lemma ReplyKeeps(x: Setup, s: World, link: nat, kind: Kind, data: Data, note: Note, server: S.State)
    requires Invariant(x, s) && Asking(s, link, kind).Some? && L.Bounded(data)
    requires |Asking(s, link, kind).value| >= if kind == Registration then 32 else 36
    requires Grows(s.server.keys, server.keys) && ServerOk(server)
    requires MeansReply(x, server.keys, kind, data, note)
    requires kind == Routine ==> !s.notes[link].Nothing? && note.uuid == s.notes[link].uuid && note.key == s.notes[link].key
    ensures Invariant(x, Replies(s, link, data, note).(server := server))
  {
    var e, l := L.ServerReadsPayload(link, true, Some(data)), s.net.links[link];
    RequestMeans(x, s, link, kind);
    L.StepOk(s.net, e);
    L.ReplyTalks(l, link, data);
    LinksGrow(x, s.server.keys, server.keys, s.net.links, s.notes);
    var net := L.Step(s.net, e);
    assert net == L.Put(s.net, link, L.ServerStep(l, e));
    hide L.Step, L.ServerStep, MeansRequest, MeansReply, L.Invariant, ServerOk, L.LinkOk;
    forall i | 0 <= i < |net.links|
      ensures Means(x, server.keys, net.links[i].talk, Noted(s.notes, link, note)[i])
    {
      if i != link {
        assert Means(x, server.keys, s.net.links[i].talk, s.notes[i]);
      }
    }
  }

  lemma RegistersKeeps(x: Setup, s: World, link: nat, uuid: Data, key: Key, r: nat)
    requires Invariant(x, s)
    ensures Invariant(x, Registers(x, s, link, uuid, key, r))
  {
    var asking := Asking(s, link, Registration);
    if asking.Some? && |asking.value| >= 32 && |uuid| == W.UUID && uuid !in s.server.keys {
      RequestMeans(x, s, link, Registration);
      assert asking.value[..32] == PublicKey(x);
      var server := s.server.(keys := s.server.keys[uuid := key]);
      ServerKeeps(x.c, s.server, R.Register(uuid, key));
      var data, note := Handout(x, PublicKey(x), uuid, key, r), Assigned(uuid, key, r);
      if L.Bounded(data) {
        hide Replies, Invariant, ServerOk, Handout;
        ReplyKeeps(x, s, link, Registration, data, note, server);
      }
    }
  }

  lemma ChecksInKeeps(x: Setup, s: World, link: nat, publicIp: Data, now: nat, iv: nat)
    requires Invariant(x, s)
    ensures Invariant(x, ChecksIn(x, s, link, publicIp, now, iv))
  {
    var asking := Asking(s, link, Routine);
    if asking.Some? && |asking.value| >= W.UUID && |publicIp| <= 255 {
      var uuid, encrypted := asking.value[..W.UUID], asking.value[W.UUID..];
      var e := R.Request(uuid, encrypted, publicIp, now, iv);
      match S.Accepted(x.c, s.server, uuid, encrypted) {
        case None =>
          hide L.Step;
          StepAtServer(s.net, link, None);
          SilentKeeps(x, s, link, L.ServerReadsPayload(link, true, None));
        case Some(request) =>
          RequestMeans(x, s, link, Routine);
          BodyCut(x, s.notes[link].uuid, s.notes[link].key, s.notes[link].ask, s.notes[link].iv);
          KeyIsKept(s.server, uuid);
          ServerKeeps(x.c, s.server, e);
          R.AnswerIsGood(x.c, s.server, e);
          var key := S.KeyOf(s.server, uuid).value;
          var peers := S.Answer(s.server, uuid, publicIp, request, now);
          var data := List(x, peers, key, iv);
          hide Replies, Invariant, S.Answer, W.Response, W.ParseResponse, S.Accepted, R.Step, R.GoodPorts, ServerOk, List, Body;
          if L.Bounded(data) {
            ReplyKeeps(x, s, link, Routine, data, Listed(uuid, key, peers, iv), R.Step(x.c, s.server, e));
          }
      }
    }
  }

  lemma StepAtServer(net: L.System, link: nat, made: Option<Data>)
    requires link < |net.links|
    ensures var e := L.ServerReadsPayload(link, true, made);
            L.Step(net, e) == L.Put(net, link, L.ServerStep(net.links[link], e))
  {
  }

  lemma BodyCut(x: Setup, uuid: Data, key: Key, ask: W.Parsed, iv: nat)
    requires |uuid| == W.UUID
    ensures Body(x, uuid, key, ask, iv)[..W.UUID] == uuid
    ensures Body(x, uuid, key, ask, iv)[W.UUID..] == x.c.enc(W.Request(ask.ip, ask.ports, ask.targets), key, iv)
  {
    hide W.Request;
  }

  // ---- Every step

  lemma ServerEventKeeps(x: Setup, s: World, link: nat, e: L.Event)
    requires Invariant(x, s)
    requires e == L.ServerReadsHeader(link, true) || e == L.ServerReadsHeader(link, false)
             || e == L.ServerReadsPayload(link, false, None) || e == L.ServerWritten(link, true)
             || e == L.ServerWritten(link, false) || (e.Break? && e.link == link)
    ensures Invariant(x, Via(s, e, Nothing))
  {
    if link < |s.net.links| {
      SilentKeeps(x, s, link, e);
    } else {
      Unmoved(x, s, e, Nothing);
    }
    hide Invariant, Via, L.ServerStep;
  }

  lemma FlipKeeps(x: Setup, s: World, switched: bool)
    requires Invariant(x, s)
    ensures Invariant(x, Via(s, L.Flip(switched), Nothing))
  {
    L.FlipStepOk(s.net, switched);
    hide Means, L.Invariant, ServerOk;
    var net := L.Step(s.net, L.Flip(switched));
    assert Renote(s.net, net, s.notes, Nothing) == s.notes;
  }

  lemma ElsewhereKeeps(x: Setup, s: World, e: R.Event)
    requires Invariant(x, s) && Possible(s.server, e)
    ensures Invariant(x, s.(server := R.Step(x.c, s.server, e)))
  {
    ServerKeeps(x.c, s.server, e);
    LinksGrow(x, s.server.keys, R.Step(x.c, s.server, e).keys, s.net.links, s.notes);
    hide Means, LinksMean, L.Invariant, ServerOk, R.Step;
  }

  lemma StepKeeps(x: Setup, s: World, e: Event)
    requires SetupOk(x) && Invariant(x, s)
    ensures Invariant(x, Step(x, s, e))
  {
    hide Invariant, SetupOk, Via, Registers, ChecksIn, TakesHandout;
    match e
    case Flip(switched) => FlipKeeps(x, s, switched);
    case TimerFires(ask, iv) => TimerKeeps(x, s, ask, iv);
    case Connects(ok, keyFile, ask, iv) => ConnectKeeps(x, s, ok, keyFile, ask, iv);
    case ClientWrites(kind, ok) => WriteKeeps(x, s, kind, ok);
    case ClientReadsHeader(kind, ok) => HeaderKeeps(x, s, kind, ok);
    case ClientReadsPayload(kind, len, ok, ask, iv) =>
      var payload := Arrived(s, kind, len);
      if ok && kind == Registration && payload.Some? && |payload.value| >= SHORTEST_REGISTRATION {
        HandoutKeeps(x, s, len, ask, iv);
      } else {
        PayloadKeeps(x, s, kind, len, ok);
      }
    case ServerReadsHeader(link, ok) => ServerEventKeeps(x, s, link, L.ServerReadsHeader(link, ok));
    case ServerRegisters(link, uuid, key, r) => RegistersKeeps(x, s, link, uuid, key, r);
    case ServerChecksIn(link, publicIp, now, iv) => ChecksInKeeps(x, s, link, publicIp, now, iv);
    case ServerFails(link) => ServerEventKeeps(x, s, link, L.ServerReadsPayload(link, false, None));
    case ServerWritten(link, ok) => ServerEventKeeps(x, s, link, L.ServerWritten(link, ok));
    case Break(link, m, n) => ServerEventKeeps(x, s, link, L.Break(link, m, n));
    case Elsewhere(other) =>
      if Possible(s.server, other) {
        ElsewhereKeeps(x, s, other);
      }
  }

  /** A client that has just been started, and a server that already holds the client's key if the client is
      registered from an earlier run. */
  ghost predicate Begins(s: World) {
    && s.net == L.Initial(s.net.client.switched, s.net.client.registered)
    && s.notes == [] && ClientOk(s) && ServerOk(s.server)
  }

  lemma BeginningIsOk(x: Setup, s: World)
    requires Begins(s)
    ensures Invariant(x, s)
  {
    L.InitialOk(s.net.client.switched, s.net.client.registered);
  }

  function Run(x: Setup, start: World, events: seq<Event>): World
    decreases |events|
  {
    if events == [] then start
    else Step(x, Run(x, start, events[..|events| - 1]), events[|events| - 1])
  }

  lemma {:induction false} RunKeeps(x: Setup, start: World, events: seq<Event>)
    requires SetupOk(x) && Begins(start)
    ensures Invariant(x, Run(x, start, events))
    decreases |events|
  {
    hide Invariant, Step, SetupOk, Begins;
    if events == [] {
      BeginningIsOk(x, start);
    } else {
      RunKeeps(x, start, events[..|events| - 1]);
      StepKeeps(x, Run(x, start, events[..|events| - 1]), events[|events| - 1]);
    }
  }

  // ---- What every run guarantees

  /** In every run, through lost connections, flips of the switch and whatever other clients do: a client that
      thinks itself registered holds the very key the server has saved for its number. */
  lemma {:induction false} KeysMatch(x: Setup, start: World, events: seq<Event>)
    requires SetupOk(x) && Begins(start)
    ensures var s := Run(x, start, events);
            s.net.client.registered ==> S.KeyOf(s.server, s.uuid) == Some(s.key)
  {
    RunKeeps(x, start, events);
    KeyIsKept(Run(x, start, events).server, Run(x, start, events).uuid);
    hide Run, SetupOk, L.Invariant, LinksMean, R.TableOk;
  }

  /** What the two-byte counters and the fields of a request can say. */
  predicate Sayable(ask: W.Parsed) {
    && |ask.ports| < 0x1_0000 && (forall i :: 0 <= i < |ask.ports| ==> ask.ports[i] < 0x1_0000)
    && |ask.targets| < 0x1_0000 && (forall i :: 0 <= i < |ask.targets| ==> |ask.targets[i]| == W.UUID)
  }

  /** In every run a check-in that has reached the server is taken exactly as the client meant it, if and only if it
      names at most 100 ports and 32 peers; otherwise it is refused. */
  lemma {:induction false} CheckInsAreTakenIff(x: Setup, start: World, events: seq<Event>, link: nat)
    requires SetupOk(x) && Begins(start) && Asking(Run(x, start, events), link, Routine).Some?
    ensures var s := Run(x, start, events);
            link < |s.notes| &&
            var payload, note := Asking(s, link, Routine).value, s.notes[link];
            && note.CheckingIn? && |payload| >= W.UUID && payload[..W.UUID] == note.uuid
            && (Sayable(note.ask) ==>
                  S.Accepted(x.c, s.server, note.uuid, payload[W.UUID..]) ==
                  if |note.ask.ports| <= 100 && |note.ask.targets| <= 32
                  then Some(W.Parsed(W.ShortIp(note.ask.ip), note.ask.ports, note.ask.targets)) else None)
  {
    RunKeeps(x, start, events);
    var s := Run(x, start, events);
    hide Run;
    RequestMeans(x, s, link, Routine);
    var note := s.notes[link];
    KeyIsKept(s.server, note.uuid);
    BodyCut(x, note.uuid, note.key, note.ask, note.iv);
    var text := W.Request(note.ask.ip, note.ask.ports, note.ask.targets);
    LawfulAt(x.c, text, note.key, note.iv);
    if Sayable(note.ask) {
      W.RequestTakenIff(note.ask.ip, note.ask.ports, note.ask.targets);
    }
    hide Body, W.Request, W.Parse, Invariant, Lawful, K.WrapLawful;
  }

  /** In every run the answer to a check-in that has reached the client decrypts under the client's key, and the
      client reads exactly the peers that the server found for it when it took a check-in of this client on this
      connection, earlier in the run. */
  lemma {:induction false} AnswersAreRead(x: Setup, start: World, events: seq<Event>, len: nat)
    requires SetupOk(x) && Begins(start) && Arrived(Run(x, start, events), Routine, len).Some?
    ensures var s := Run(x, start, events);
            s.net.current.value < |s.notes| &&
            var note, text := s.notes[s.net.current.value], x.c.dec(Arrived(s, Routine, len).value, s.key);
            && note.Listed? && text.Some? && W.ParseResponse(text.value) == Some(note.peers)
            && note.uuid == s.uuid && exists j :: AnsweredAt(x, start, events, j, s.net.current.value, note)
  {
    RunKeeps(x, start, events);
    var s := Run(x, start, events);
    hide Run, W.Response, W.ParseResponse;
    PayloadMeans(x, s, Routine, len);
    var note := s.notes[s.net.current.value];
    LawfulAt(x.c, W.Response(note.peers), note.key, note.iv);
    ListsAreAnswers(x, start, events, s.net.current.value);
    hide AnsweredAt, Invariant;
  }

  /** In every run a registration reply that has reached the client is long enough and can be unwrapped, and the key
      in it is the one the server has saved for the number in it. */
  lemma {:induction false} RegistrationsAreRead(x: Setup, start: World, events: seq<Event>, len: nat)
    requires SetupOk(x) && Begins(start) && Arrived(Run(x, start, events), Registration, len).Some?
    ensures var s := Run(x, start, events);
            var payload := Arrived(s, Registration, len).value;
            && |payload| >= SHORTEST_REGISTRATION
            && x.w.unwrap(payload[W.UUID..], x.secret).Some?
            && S.KeyOf(s.server, payload[..W.UUID]) == x.w.unwrap(payload[W.UUID..], x.secret)
  {
    RunKeeps(x, start, events);
    var s := Run(x, start, events);
    hide Run;
    HandoutMeans(x, s, len);
    KeyIsKept(s.server, s.notes[s.net.current.value].uuid);
  }

  // ---- Where an answer comes from

  /** Event `j` of the run was the taking of a check-in on connection `link`, under the number the note names, and
      the peers noted are those the server answered with in the state it was in at that moment. */
  ghost predicate AnsweredAt(x: Setup, start: World, events: seq<Event>, j: nat, link: nat, note: Note) {
    && j < |events| && events[j].ServerChecksIn? && events[j].link == link && note.Listed?
    && var s := Run(x, start, events[..j]);
       var payload := Asking(s, link, Routine);
       && |events[j].publicIp| <= 255
       && payload.Some? && |payload.value| >= W.UUID && payload.value[..W.UUID] == note.uuid
       && var request := S.Accepted(x.c, s.server, note.uuid, payload.value[W.UUID..]);
          && request.Some? && S.KeyOf(s.server, note.uuid).Some?
          && note.peers == S.Answer(s.server, note.uuid, events[j].publicIp, request.value, events[j].now)
  }

  /** A step leaves every list in the notes as it is, but for the connection it answers a check-in on. */
  lemma ListsStay(x: Setup, s: World, e: Event, i: nat)
    requires i < |Step(x, s, e).notes| && Step(x, s, e).notes[i].Listed?
    requires |s.notes| == |s.net.links|
    ensures (i < |s.notes| && s.notes[i] == Step(x, s, e).notes[i]) || (e.ServerChecksIn? && e.link == i)
  {
    hide L.Step, Body, Handout, S.Accepted, S.Answer, L.Bounded, R.Step, Arrived, Asking;
  }

  lemma AnsweredNow(x: Setup, s: World, e: Event, link: nat)
    requires e.ServerChecksIn? && e.link == link && link < |s.notes| == |s.net.links|
    requires Step(x, s, e).notes != s.notes && Step(x, s, e).notes[link].Listed?
    ensures var note, payload := Step(x, s, e).notes[link], Asking(s, link, Routine);
            && |e.publicIp| <= 255
            && payload.Some? && |payload.value| >= W.UUID && payload.value[..W.UUID] == note.uuid
            && var request := S.Accepted(x.c, s.server, note.uuid, payload.value[W.UUID..]);
               && request.Some? && S.KeyOf(s.server, note.uuid).Some?
               && note.peers == S.Answer(s.server, note.uuid, e.publicIp, request.value, e.now)
  {
    hide L.Step, W.Parse, S.Answer, R.Step, List, Asking;
  }

  lemma {:induction false} ListsAreAnswers(x: Setup, start: World, events: seq<Event>, link: nat)
    requires SetupOk(x) && Begins(start)
    requires link < |Run(x, start, events).notes| && Run(x, start, events).notes[link].Listed?
    ensures exists j :: AnsweredAt(x, start, events, j, link, Run(x, start, events).notes[link])
    decreases |events|
  {
    if events != [] {
      var init, e := events[..|events| - 1], events[|events| - 1];
      var s := Run(x, start, init);
      RunKeeps(x, start, init);
      NotesFit(x, s);
      var note := Run(x, start, events).notes[link];
      RunLast(x, start, events);
      hide *;
      ListsStay(x, s, e, link);
      if link < |s.notes| && s.notes[link] == note {
        ListsAreAnswers(x, start, init, link);
        var j :| AnsweredAt(x, start, init, j, link, note);
        AnsweredEarlier(x, start, events, j, link, note);
      } else {
        LinkOfNote(x, s, e, link);
        AnsweredNow(x, s, e, link);
        AnsweredLast(x, start, events, link, note);
      }
    } else {
      NoNotesYet(start);
    }
  }

  lemma NoNotesYet(start: World)
    requires Begins(start)
    ensures start.notes == []
  {
  }

  lemma RunLast(x: Setup, start: World, events: seq<Event>)
    ensures Run(x, start, []) == start
    ensures events != [] ==>
              Run(x, start, events) == Step(x, Run(x, start, events[..|events| - 1]), events[|events| - 1])
  {
    hide Step;
  }

  lemma AnsweredEarlier(x: Setup, start: World, events: seq<Event>, j: nat, link: nat, note: Note)
    requires events != [] && AnsweredAt(x, start, events[..|events| - 1], j, link, note)
    ensures AnsweredAt(x, start, events, j, link, note)
  {
    assert events[..j] == events[..|events| - 1][..j];
    hide Run, S.Accepted, S.Answer, Asking, S.KeyOf;
  }

  lemma AnsweredLast(x: Setup, start: World, events: seq<Event>, link: nat, note: Note)
    requires events != []
    requires var s, e := Run(x, start, events[..|events| - 1]), events[|events| - 1];
             && e.ServerChecksIn? && e.link == link && note.Listed? && |e.publicIp| <= 255
             && var payload := Asking(s, link, Routine);
                && payload.Some? && |payload.value| >= W.UUID && payload.value[..W.UUID] == note.uuid
                && var request := S.Accepted(x.c, s.server, note.uuid, payload.value[W.UUID..]);
                   && request.Some? && S.KeyOf(s.server, note.uuid).Some?
                   && note.peers == S.Answer(s.server, note.uuid, e.publicIp, request.value, e.now)
    ensures AnsweredAt(x, start, events, |events| - 1, link, note)
  {
    hide Run, S.Accepted, S.Answer, Asking, S.KeyOf;
  }

  lemma NotesFit(x: Setup, s: World)
    requires Invariant(x, s)
    ensures |s.notes| == |s.net.links|
  {
  }

  lemma LinkOfNote(x: Setup, s: World, e: Event, link: nat)
    requires e.ServerChecksIn? && link < |Step(x, s, e).notes|
    ensures |Step(x, s, e).notes| == |s.notes|
  {
    hide L.Step, S.Accepted, S.Answer, R.Step;
  }

  // ---- What taking a check-in does

  /** An accepted check-in is stored under its number, with what it said and where it came from, beside all other
      sessions as they were; and it is answered on its connection with the list found for it. */
  lemma {:induction false} CheckInsAreStored(x: Setup, start: World, events: seq<Event>, link: nat, publicIp: Data,
                                             now: nat, iv: nat)
    requires SetupOk(x) && Begins(start) && |publicIp| <= 255
    requires var asking := Asking(Run(x, start, events), link, Routine);
             asking.Some? && |asking.value| >= W.UUID
             && S.Accepted(x.c, Run(x, start, events).server, asking.value[..W.UUID], asking.value[W.UUID..]).Some?
    ensures var s := Run(x, start, events);
            var t := Step(x, s, ServerChecksIn(link, publicIp, now, iv));
            var payload := Asking(s, link, Routine).value;
            var uuid := payload[..W.UUID];
            var request := S.Accepted(x.c, s.server, uuid, payload[W.UUID..]).value;
            && uuid in t.server.table && S.KeyOf(s.server, uuid).Some?
            && t.server.table[uuid].localIp == request.ip && t.server.table[uuid].publicIp == publicIp
            && (forall q: nat :: q in t.server.table[uuid].ports <==> q in request.ports)
            && t.server.table[uuid].targets == request.targets && t.server.table[uuid].lastSeen == now
            && (forall u :: u != uuid ==>
                  ((u in t.server.table <==> u in s.server.table)
                   && (u in t.server.table ==> t.server.table[u] == s.server.table[u])))
            && link < |t.net.links|
            && t.net.links[link].talk ==
               L.Answered(Routine, x.c.enc(W.Response(S.Answer(s.server, uuid, publicIp, request, now)),
                                           S.KeyOf(s.server, uuid).value, iv))
  {
    assert W.UUID == 36;
    hide *;
    var s := Run(x, start, events);
    RunKeeps(x, start, events);
    ServerIsOk(x, s);
    RequestMeans(x, s, link, Routine);
    var payload := Asking(s, link, Routine).value;
    var e := R.Request(payload[..W.UUID], payload[W.UUID..], publicIp, now, iv);
    Framed(e);
    StoredByStep(x.c, s.server, e);
    ReplyFits(x, s.server, e);
    AnsweredOnLink(x, s, link, publicIp, now, iv);
    StepIsChecksIn(x, s, link, publicIp, now, iv);
  }

  lemma ServerIsOk(x: Setup, s: World)
    requires Invariant(x, s)
    ensures ServerOk(s.server)
  {
  }

  lemma Framed(e: R.Event)
    requires e.Request? && |e.uuid| == W.UUID && |e.publicIp| <= 255
    ensures R.WellFramed(e)
  {
  }

  lemma StepIsChecksIn(x: Setup, s: World, link: nat, publicIp: Data, now: nat, iv: nat)
    ensures Step(x, s, ServerChecksIn(link, publicIp, now, iv)) == ChecksIn(x, s, link, publicIp, now, iv)
    ensures forall peers, key :: List(x, peers, key, iv) == x.c.enc(W.Response(peers), key, iv)
  {
    hide ChecksIn;
  }

  lemma StoredByStep(c: Cipher, server: S.State, e: R.Event)
    requires e.Request? && S.Accepted(c, server, e.uuid, e.encrypted).Some?
    ensures var t, request := R.Step(c, server, e).table, S.Accepted(c, server, e.uuid, e.encrypted).value;
            && e.uuid in t && S.KeyOf(server, e.uuid).Some?
            && t[e.uuid].localIp == request.ip && t[e.uuid].publicIp == e.publicIp
            && (forall q: nat :: q in t[e.uuid].ports <==> q in request.ports)
            && t[e.uuid].targets == request.targets && t[e.uuid].lastSeen == e.now
            && forall u :: u != e.uuid ==> ((u in t <==> u in server.table) && (u in t ==> t[u] == server.table[u]))
  {
    hide W.Parse;
  }

  lemma ReplyFits(x: Setup, server: S.State, e: R.Event)
    requires SetupOk(x) && ServerOk(server) && R.WellFramed(e) && e.Request?
    requires S.Accepted(x.c, server, e.uuid, e.encrypted).Some?
    ensures var request := S.Accepted(x.c, server, e.uuid, e.encrypted).value;
            S.KeyOf(server, e.uuid).Some?
            && L.Bounded(List(x, S.Answer(server, e.uuid, e.publicIp, request, e.now), S.KeyOf(server, e.uuid).value, e.iv))
  {
    R.AnswerIsShort(x.c, server, e);
    var request := S.Accepted(x.c, server, e.uuid, e.encrypted).value;
    var text := W.Response(S.Answer(server, e.uuid, e.publicIp, request, e.now));
    LawfulAt(x.c, text, S.KeyOf(server, e.uuid).value, e.iv);
    hide W.Response, S.Answer, W.Parse, R.TableOk;
  }

  lemma AnsweredOnLink(x: Setup, s: World, link: nat, publicIp: Data, now: nat, iv: nat)
    requires Asking(s, link, Routine).Some? && |Asking(s, link, Routine).value| >= W.UUID && |publicIp| <= 255
    requires L.LinkOk(s.net.links[link]) && s.net.links[link].talk.Received? && s.net.links[link].talk.kind == Routine
    requires var payload := Asking(s, link, Routine).value;
             var uuid, request := payload[..W.UUID], S.Accepted(x.c, s.server, payload[..W.UUID], payload[W.UUID..]);
             && request.Some? && S.KeyOf(s.server, uuid).Some?
             && L.Bounded(List(x, S.Answer(s.server, uuid, publicIp, request.value, now), S.KeyOf(s.server, uuid).value, iv))
    ensures var payload := Asking(s, link, Routine).value;
            var uuid := payload[..W.UUID];
            var request := S.Accepted(x.c, s.server, uuid, payload[W.UUID..]).value;
            var data := List(x, S.Answer(s.server, uuid, publicIp, request, now), S.KeyOf(s.server, uuid).value, iv);
            var t := ChecksIn(x, s, link, publicIp, now, iv);
            && t.server == R.Step(x.c, s.server, R.Request(uuid, payload[W.UUID..], publicIp, now, iv))
            && link < |t.net.links| && t.net.links[link].talk == L.Answered(Routine, data)
  {
    var payload := Asking(s, link, Routine).value;
    var uuid := payload[..W.UUID];
    var request := S.Accepted(x.c, s.server, uuid, payload[W.UUID..]).value;
    var data := List(x, S.Answer(s.server, uuid, publicIp, request, now), S.KeyOf(s.server, uuid).value, iv);
    StepAtServer(s.net, link, Some(data));
    L.ReplyTalks(s.net.links[link], link, data);
    hide L.Step, L.ServerStep, S.Accepted, S.Answer, R.Step, L.LinkOk, List;
  }

  // ---- What a registration does

  /** A registration that has reached the server is answered: the number and the key are saved, and go back in the
      reply, the key wrapped for the client. */
  lemma {:induction false} RegistrationsAreAnswered(x: Setup, start: World, events: seq<Event>, link: nat, uuid: Data,
                                                    key: Key, r: nat)
    requires SetupOk(x) && Begins(start) && Asking(Run(x, start, events), link, Registration).Some?
    requires |uuid| == W.UUID && uuid !in Run(x, start, events).server.keys
    ensures var s := Run(x, start, events);
            var t := Step(x, s, ServerRegisters(link, uuid, key, r));
            && t.server == s.server.(keys := s.server.keys[uuid := key])
            && link < |t.net.links|
            && t.net.links[link].talk == L.Answered(Registration, uuid + x.w.wrap(key, x.w.publicOf(x.secret), r))
  {
    hide *;
    var s := Run(x, start, events);
    RunKeeps(x, start, events);
    RequestMeans(x, s, link, Registration);
    NotesFit(x, s);
    PublicKeyMeant(x, s, link);
    HandoutIs(x, uuid, key, r);
    RegisteredOnLink(x, s, link, uuid, key, r);
  }

  lemma PublicKeyMeant(x: Setup, s: World, link: nat)
    requires |s.notes| == |s.net.links| && Asking(s, link, Registration).Some?
    requires MeansRequest(x, s.server.keys, Registration, Asking(s, link, Registration).value, s.notes[link])
    ensures Asking(s, link, Registration) == Some(PublicKey(x))
  {
    hide PublicKey;
  }

  lemma HandoutIs(x: Setup, uuid: Data, key: Key, r: nat)
    requires SetupOk(x) && |uuid| == W.UUID
    ensures Handout(x, PublicKey(x), uuid, key, r) == uuid + x.w.wrap(key, x.w.publicOf(x.secret), r)
    ensures L.Bounded(Handout(x, PublicKey(x), uuid, key, r)) && |PublicKey(x)| == 32
  {
    assert |x.w.wrap(key, PublicKey(x), r)| == K.WRAPPED;
  }

  lemma RegisteredOnLink(x: Setup, s: World, link: nat, uuid: Data, key: Key, r: nat)
    requires Asking(s, link, Registration) == Some(PublicKey(x)) && |PublicKey(x)| == 32
    requires |uuid| == W.UUID && uuid !in s.server.keys && L.Bounded(Handout(x, PublicKey(x), uuid, key, r))
    requires L.LinkOk(s.net.links[link]) && s.net.links[link].talk.Received?
             && s.net.links[link].talk.kind == Registration
    ensures var t := Step(x, s, ServerRegisters(link, uuid, key, r));
            && t.server == s.server.(keys := s.server.keys[uuid := key])
            && link < |t.net.links|
            && t.net.links[link].talk == L.Answered(Registration, Handout(x, PublicKey(x), uuid, key, r))
  {
    var data := Handout(x, PublicKey(x), uuid, key, r);
    assert PublicKey(x)[..32] == PublicKey(x);
    StepAtServer(s.net, link, Some(data));
    L.ReplyTalks(s.net.links[link], link, data);
    hide L.Step, L.ServerStep, Handout, L.LinkOk, PublicKey;
  }

  /** A registration reply that has reached the client, its switch still on, registers it under the number and the
      key given out, and is followed at once by a check-in under both. */
  lemma {:induction false} RegistrationsAreTaken(x: Setup, start: World, events: seq<Event>, len: nat, ask: W.Parsed,
                                                 iv: nat)
    requires SetupOk(x) && Begins(start) && Arrived(Run(x, start, events), Registration, len).Some?
    requires var s := Run(x, start, events);
             var payload := Arrived(s, Registration, len).value;
             s.net.client.switched && |payload| >= SHORTEST_REGISTRATION && x.w.unwrap(payload[W.UUID..], x.secret).Some?
             && L.Bounded(Body(x, payload[..W.UUID], x.w.unwrap(payload[W.UUID..], x.secret).value, ask, iv))
    ensures var s := Run(x, start, events);
            var t := Step(x, s, ClientReadsPayload(Registration, len, true, ask, iv));
            var payload := Arrived(s, Registration, len).value;
            && t.uuid == payload[..W.UUID] && Some(t.key) == x.w.unwrap(payload[W.UUID..], x.secret)
            && t.net.client.registered && S.KeyOf(t.server, t.uuid) == Some(t.key)
            && var body := t.uuid + x.c.enc(W.Request(ask.ip, ask.ports, ask.targets), t.key, iv);
               t.net.client.effects == [Sent([0x03] + ToBE(|body|, 4) + body)]
  {
    hide *;
    var s := Run(x, start, events);
    RegistrationsAreRead(x, start, events, len);
    RunKeeps(x, start, events);
    PayloadMeans(x, s, Registration, len);
    TakenHandout(x, s, len, ask, iv);
  }

  lemma TakenHandout(x: Setup, s: World, len: nat, ask: W.Parsed, iv: nat)
    requires Arrived(s, Registration, len).Some? && L.InvariantWith(s.net, Payload(Registration, len))
    requires var payload := Arrived(s, Registration, len).value;
             s.net.client.switched && |payload| >= SHORTEST_REGISTRATION && x.w.unwrap(payload[W.UUID..], x.secret).Some?
             && L.Bounded(Body(x, payload[..W.UUID], x.w.unwrap(payload[W.UUID..], x.secret).value, ask, iv))
    ensures var t := Step(x, s, ClientReadsPayload(Registration, len, true, ask, iv));
            var payload := Arrived(s, Registration, len).value;
            && t.uuid == payload[..W.UUID] && Some(t.key) == x.w.unwrap(payload[W.UUID..], x.secret)
            && t.server == s.server && t.net.client.registered
            && var body := t.uuid + x.c.enc(W.Request(ask.ip, ask.ports, ask.targets), t.key, iv);
               t.net.client.effects == [Sent([0x03] + ToBE(|body|, 4) + body)]
  {
    hide W.Request, ToBE, FromBE, L.LinkOk, Handle;
    var payload := Arrived(s, Registration, len).value;
    var body := Body(x, payload[..W.UUID], x.w.unwrap(payload[W.UUID..], x.secret).value, ask, iv);
    PayloadCases(s.net.client, Registration, len, true, payload, true, body);
  }

  // ---- The server of a run is a run of the server

  /** What a step is to the server, if anything: a registration, a check-in, whether or not it is accepted, or what
      another client does. */
  function AtServer(s: World, e: Event): seq<R.Event> {
    match e
    case ServerRegisters(link, uuid, key, _) =>
      if Asking(s, link, Registration).Some? && |uuid| == W.UUID && uuid !in s.server.keys
      then [R.Register(uuid, key)] else []
    case ServerChecksIn(link, publicIp, now, iv) =>
      var payload := Asking(s, link, Routine);
      if payload.Some? && |payload.value| >= W.UUID && |publicIp| <= 255
      then [R.Request(payload.value[..W.UUID], payload.value[W.UUID..], publicIp, now, iv)] else []
    case Elsewhere(other) => if Possible(s.server, other) then [other] else []
    case _ => []
  }

  function ServerEvents(x: Setup, start: World, events: seq<Event>): seq<R.Event> {
    if events == [] then []
    else
      var init := events[..|events| - 1];
      ServerEvents(x, start, init) + AtServer(Run(x, start, init), events[|events| - 1])
  }

  /** The connections, the reading and writing of frames, lost replies and flips of the switch leave no trace in the
      server: it goes through exactly the registrations, check-ins and sweeps that reached it, all well framed. So
      what holds over the server's runs holds here. */
  lemma {:induction false} ServerRuns(x: Setup, start: World, events: seq<Event>)
    requires SetupOk(x) && Begins(start)
    ensures var es := ServerEvents(x, start, events);
            && Run(x, start, events).server == R.RunFrom(x.c, start.server, es)
            && forall i :: 0 <= i < |es| ==> R.WellFramed(es[i])
    decreases |events|
  {
    hide *;
    RunLast(x, start, events);
    EventsLast(x, start, events);
    if events == [] {
      RunNone(x.c, start.server);
    } else {
      var init, e := events[..|events| - 1], events[|events| - 1];
      var s := Run(x, start, init);
      ServerRuns(x, start, init);
      RunKeeps(x, start, init);
      ServerFollows(x, s, e);
      if AtServer(s, e) != [] {
        OneMore(x.c, start.server, ServerEvents(x, start, init), AtServer(s, e)[0]);
        assert ServerEvents(x, start, events) == ServerEvents(x, start, init) + [AtServer(s, e)[0]];
      } else {
        assert ServerEvents(x, start, events) == ServerEvents(x, start, init);
      }
    }
  }

  lemma RunNone(c: Cipher, s: S.State)
    ensures R.RunFrom(c, s, []) == s
  {
  }

  lemma OneMore(c: Cipher, s: S.State, events: seq<R.Event>, e: R.Event)
    ensures R.RunFrom(c, s, events + [e]) == R.Step(c, R.RunFrom(c, s, events), e)
  {
    hide R.Step;
    assert (events + [e])[..|events|] == events;
  }

  lemma EventsLast(x: Setup, start: World, events: seq<Event>)
    ensures ServerEvents(x, start, []) == []
    ensures events != [] ==>
              var init := events[..|events| - 1];
              ServerEvents(x, start, events) ==
              ServerEvents(x, start, init) + AtServer(Run(x, start, init), events[|events| - 1])
  {
    hide AtServer, Run;
  }

  /** One step of the world is at most one step of the server. */
  lemma ServerFollows(x: Setup, s: World, e: Event)
    requires SetupOk(x) && Invariant(x, s)
    ensures var es := AtServer(s, e);
            if es == [] then Step(x, s, e).server == s.server
            else |es| == 1 && R.WellFramed(es[0]) && Step(x, s, e).server == R.Step(x.c, s.server, es[0])
  {
    hide *;
    match e {
      case ServerRegisters(link, uuid, key, r) => RegistrationFollows(x, s, link, uuid, key, r);
      case ServerChecksIn(link, publicIp, now, iv) => CheckInFollows(x, s, link, publicIp, now, iv);
      case _ => OthersFollow(x, s, e);
    }
  }

  lemma OthersFollow(x: Setup, s: World, e: Event)
    requires !e.ServerRegisters? && !e.ServerChecksIn?
    ensures var es := AtServer(s, e);
            if es == [] then Step(x, s, e).server == s.server
            else |es| == 1 && R.WellFramed(es[0]) && Step(x, s, e).server == R.Step(x.c, s.server, es[0])
  {
    hide L.Step, Body, Arrived, Asking, R.Step, Renote, L.Bounded;
  }

  lemma RegistrationFollows(x: Setup, s: World, link: nat, uuid: Data, key: Key, r: nat)
    requires SetupOk(x) && Invariant(x, s)
    ensures var es := AtServer(s, ServerRegisters(link, uuid, key, r));
            var t := Step(x, s, ServerRegisters(link, uuid, key, r));
            if es == [] then t.server == s.server
            else |es| == 1 && R.WellFramed(es[0]) && t.server == R.Step(x.c, s.server, es[0])
  {
    hide L.Step, Asking, Handout, PublicKey, SetupOk, MeansRequest, Invariant, L.LinkOk, L.Bounded;
    if Asking(s, link, Registration).Some? && |uuid| == W.UUID && uuid !in s.server.keys {
      RequestMeans(x, s, link, Registration);
      NotesFit(x, s);
      PublicKeyMeant(x, s, link);
      HandoutIs(x, uuid, key, r);
      RegisteredOnLink(x, s, link, uuid, key, r);
    }
  }

  lemma CheckInFollows(x: Setup, s: World, link: nat, publicIp: Data, now: nat, iv: nat)
    requires SetupOk(x) && Invariant(x, s)
    ensures var es := AtServer(s, ServerChecksIn(link, publicIp, now, iv));
            var t := Step(x, s, ServerChecksIn(link, publicIp, now, iv));
            if es == [] then t.server == s.server
            else |es| == 1 && R.WellFramed(es[0]) && t.server == R.Step(x.c, s.server, es[0])
  {
    hide L.Step, Asking, List, SetupOk, MeansRequest, Invariant, L.LinkOk, L.Bounded, S.Answer, W.Parse, ServerOk, S.CheckIn;
    var payload := Asking(s, link, Routine);
    if payload.Some? && |payload.value| >= W.UUID && |publicIp| <= 255 {
      var e := R.Request(payload.value[..W.UUID], payload.value[W.UUID..], publicIp, now, iv);
      RequestMeans(x, s, link, Routine);
      ServerIsOk(x, s);
      if S.Accepted(x.c, s.server, e.uuid, e.encrypted).Some? {
        ReplyFits(x, s.server, e);
      }
    }
  }

  /** What a client reads was consented to. The note of an answer lists B exactly when the check-in it answers asked
      for B, and B is the client itself or has, in what had reached the server by then, a latest accepted check-in
      that no sweep has expired and that asked for this client. */
  lemma {:induction false} ListedByConsent(x: Setup, start: World, events: seq<Event>, j: nat, link: nat, note: Note,
                                           b: Data)
    requires SetupOk(x) && Begins(start) && start.server == R.INITIAL && AnsweredAt(x, start, events, j, link, note)
    ensures var s := Run(x, start, events[..j]);
            var es := ServerEvents(x, start, events[..j]);
            var request := S.Accepted(x.c, s.server, note.uuid, Asking(s, link, Routine).value[W.UUID..]).value;
            (exists p :: p in note.peers && p.uuid == b) <==>
            && b in request.targets
            && (b == note.uuid ||
                exists i :: R.LiveFrom(x.c, es, i, b) && note.uuid in R.SessionAt(x.c, es, i, b).targets)
  {
    hide Run, S.Accepted, S.Answer, Asking, S.KeyOf, R.LiveFrom, R.SessionAt, R.RunFrom, ServerEvents, SetupOk, Begins;
    var s := Run(x, start, events[..j]);
    var es := ServerEvents(x, start, events[..j]);
    ServerRuns(x, start, events[..j]);
    var payload := Asking(s, link, Routine).value;
    var e := R.Request(note.uuid, payload[W.UUID..], events[j].publicIp, events[j].now, events[j].iv);
    R.Consent(x.c, es, e, b);
  }
}
