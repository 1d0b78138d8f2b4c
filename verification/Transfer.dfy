/** A sender, a network that loses, repeats, reorders and corrupts packets, and a receiver: what holds over every
    run. */
module Transfer {
  import opened Basics
  import opened Bytes
  import opened Crypto
  import opened Packet
  import FileNames
  import R = Receiver
  import S = Sender

  // ---- What an intact packet does to the receiver

  lemma {:induction false} HeaderOnWire(c: Cipher, key: Key, r: R.State, id: nat, data: Data, name: Data)
    requires id < 0x1_0000_0000 && S.Total(data) < 0x1_0000_0000_0000 && !r.stopped
    ensures var s := R.Handle(c, Some(key), r, S.Wire(c, S.HeaderFor(id, data, name)));
            && id in s.incoming
            && s == r.(incoming := r.incoming[id := R.Incoming(S.Total(data), s.incoming[id].name, map[])])
            && !FileNames.Exists(s.incoming[id].name, r.dir.Keys)
            && (FileNames.Valid(name) && 0 !in name && |name| <= S.LONGEST_NAME ==>
                  s.incoming[id].name == FileNames.StoredName(name, r.dir.Keys))
  {
    hide Frame, Deframe, FileNames.StoredName, FileNames.Valid;
    var p := S.PacketOf(c, S.HeaderFor(id, data, name));
    FrameRoundTrip(p);
    assert p.messageId % 0x1_0000_0000 == id;
    HeaderFields(data, name);
    FileNames.ChosenNameIsFree(p.payload[7..], id, r.dir.Keys);
  }

  lemma HeaderFields(data: Data, name: Data)
    requires S.Total(data) < 0x1_0000_0000_0000
    ensures FromBE(S.HeaderPayload(data, name)[0..6]) == S.Total(data)
    ensures 0 !in name && |name| <= S.LONGEST_NAME ==>
              FileNames.CString(S.HeaderPayload(data, name)[7..]) == name
  {
    hide ToBE, FromBE, S.Total;
    var s := S.HeaderPayload(data, name);
    var cut := name[..Min(|name|, S.LONGEST_NAME)];
    var zeros: Data := seq(PAYLOAD - 7 - |cut|, _ => 0);
    assert s[0..6] == ToBE(S.Total(data), 6);
    Widths();
    FromToBE(S.Total(data), 6);
    if 0 !in name && |name| <= S.LONGEST_NAME {
      assert cut == name;
      assert s[7..] == name + [0] + zeros[1..];
      FileNames.CStringOf(name, zeros[1..]);
    }
  }

  lemma {:induction false} ChunkOnWire(c: Cipher, key: Key, r: R.State, id: nat, data: Data, index: nat, iv: nat,
                                       again: bool)
    requires Lawful(c) && id < 0x1_0000_0000 && index < 0x1_0000_0000_0000 && !r.stopped
    ensures R.Handle(c, Some(key), r, S.Wire(c, S.ChunkFor(id, data, index, iv, key, again))) ==
            if id in r.incoming then R.Store(r, id, index, S.ChunkOf(data, index)) else r
  {
    var p := S.PacketOf(c, S.ChunkFor(id, data, index, iv, key, again));
    ChunkPacketIs(c, key, id, data, index, iv, again);
    HandleFramed(c, key, r, p);
    hide *;
    OpenedSealed(c, key, S.ChunkOf(data, index), iv);
    ChunkFits(data, index);
    Collects(c, key, r, p);
  }

  lemma ChunkPacketIs(c: Cipher, key: Key, id: nat, data: Data, index: nat, iv: nat, again: bool)
    ensures var sent := S.ChunkFor(id, data, index, iv, key, again);
            var p := S.PacketOf(c, sent);
            && S.Wire(c, sent) == Frame(p)
            && p.kind == FILE && p.quantity in {0, 2} && p.messageId == id && p.packetId == index
            && p.payload == Payload(Sealed(c.enc(S.ChunkOf(data, index), key, iv)))
  {
    hide Frame, Payload, Sealed, S.ChunkOf;
  }

  lemma ChunkFits(data: Data, index: nat)
    ensures |S.ChunkOf(data, index)| <= 461 && CipherLength(|S.ChunkOf(data, index)|) <= ROOM
  {
    hide S.From;
  }

  /** A framed packet whose numbers fit is handled as it was meant. */
  lemma HandleFramed(c: Cipher, key: Key, r: R.State, p: Packet)
    requires |p.payload| == PAYLOAD && p.messageId < 0x1_0000_0000 && p.packetId < 0x1_0000_0000_0000 && !r.stopped
    ensures R.Handle(c, Some(key), r, Frame(p)) == R.HandlePacket(c, Some(key), r, p)
  {
    hide Frame, Deframe, R.HandlePacket;
    FrameRoundTrip(p);
    assert p.messageId % 0x1_0000_0000 == p.messageId && p.packetId % 0x1_0000_0000_0000 == p.packetId;
  }

  lemma Collects(c: Cipher, key: Key, r: R.State, p: Packet)
    requires |p.payload| == PAYLOAD && p.kind == FILE && p.quantity in {0, 2}
    requires Opened(c, Some(key), p.payload).Some?
    ensures R.HandlePacket(c, Some(key), r, p) ==
            if p.messageId in r.incoming
            then R.Store(r, p.messageId, p.packetId, Opened(c, Some(key), p.payload).value) else r
  {
    hide R.Store, Opened;
  }

  lemma TextOnWire(c: Cipher, key: Key, r: R.State, id: nat, msg: Data, iv: nat, under: Option<Key>)
    ensures var s := R.Handle(c, Some(key), r, S.Wire(c, S.TextFor(id, msg, iv, under)));
            s == r.(saved := s.saved)
  {
    hide Frame, Deframe, SavedText;
    FrameRoundTrip(S.PacketOf(c, S.TextFor(id, msg, iv, under)));
  }

  /** What is saved of a packet: a text under the receiver's key if it has 1 to 463 bytes; a text in the clear, or
      under another key, only as far as its first bytes happen to announce something the cipher can open. */
  function SavedOf(c: Cipher, key: Key, sent: S.Sent): seq<Data> {
    match sent
    case TextFor(_, msg, _, under) =>
      if under == Some(key) then if 1 <= |msg| <= 463 then [msg] else []
      else
        (match SavedText(c, Some(key), S.PacketOf(c, sent))
         case None => []
         case Some(text) => [text])
    case _ => []
  }

  /** A text changes the saved texts and nothing else. */
  lemma TextOnWireSaved(c: Cipher, key: Key, r: R.State, sent: S.Sent)
    requires Lawful(c) && !r.stopped && sent.TextFor?
    ensures R.Handle(c, Some(key), r, S.Wire(c, sent)) == r.(saved := r.saved + SavedOf(c, key, sent))
  {
    hide Frame, Deframe, SavedText, R.Handle, TextPacket, Lawful;
    assert r.saved + [] == r.saved;
    if sent.under == Some(key) {
      R.TextIsSaved(c, key, r, sent.msg, sent.id, sent.iv);
    } else {
      OtherTextSaved(c, key, r, sent);
    }
  }

  lemma OtherTextSaved(c: Cipher, key: Key, r: R.State, sent: S.Sent)
    requires !r.stopped && sent.TextFor?
    ensures R.Handle(c, Some(key), r, S.Wire(c, sent)) ==
            match SavedText(c, Some(key), S.PacketOf(c, sent))
            case None => r
            case Some(text) => r.(saved := r.saved + [text])
  {
    hide Frame, Deframe;
    FrameRoundTrip(S.PacketOf(c, sent));
  }

  // ---- Chunk arithmetic

  lemma {:induction false} AssembleAll(data: Data, chunks: map<nat, Data>, i: nat)
    requires forall j :: i <= j < S.Total(data) ==> j in chunks && chunks[j] == S.ChunkOf(data, j)
    requires i <= S.Total(data)
    ensures R.Assemble(chunks, i, S.Total(data)) == (S.From(data, i), false)
    decreases S.Total(data) - i
  {
    if i < S.Total(data) {
      AssembleAll(data, chunks, i + 1);
      S.ChunkThenRest(data, i);
    } else {
      assert S.From(data, i) == [];
    }
  }

  // ---- The receiver's invariant, for a table of transfers

  datatype File = File(data: Data, name: Data)

  ghost predicate Known(files: map<nat, File>) {
    forall id :: id in files ==> id < 0x1_0000_0000 && S.Total(files[id].data) < 0x1_0000_0000_0000
  }

  predicate Genuine(files: map<nat, File>, key: Key, sent: S.Sent) {
    match sent
    case HeaderFor(id, data, name) => id in files && files[id] == File(data, name)
    case ChunkFor(id, data, index, _, under, _) =>
      id in files && files[id].data == data && index < S.Emitted(data) && under == key
    case TextFor(_, _, _, under) => under.Some? ==> under == Some(key)
  }

  ghost predicate CollectsFrom(data: Data, file: R.Incoming) {
    && file.total == S.Total(data)
    && (forall i :: i in file.chunks ==> i < S.Emitted(data) && file.chunks[i] == S.ChunkOf(data, i))
    && (file.total > 0 ==> |file.chunks| < file.total)
  }

  predicate Intact(files: map<nat, File>, w: R.Write) {
    w.messageId in files && w.data == files[w.messageId].data && w.data != [] && !w.broken
  }

  ghost predicate ReceiverOk(files: map<nat, File>, r: R.State) {
    && (forall id :: id in r.incoming ==> id in files && CollectsFrom(files[id].data, r.incoming[id]))
    && (forall i :: 0 <= i < |r.writes| ==> Intact(files, r.writes[i]))
  }

  /** A count equal to the announced total forces every chunk to be present. */
  lemma CountForcesAll(data: Data, chunks: map<nat, Data>)
    requires forall i: nat :: i in chunks ==> i < S.Emitted(data) && chunks[i] == S.ChunkOf(data, i)
    requires chunks != map[]
    ensures |chunks| == S.Total(data) <==> data != [] && chunks.Keys == Interval(0, S.Total(data))
    ensures |chunks| == S.Total(data) ==> R.Assemble(chunks, 0, S.Total(data)) == (data, false)
    ensures |chunks| <= S.Emitted(data)
  {
    hide S.ChunkOf;
    var n := S.Total(data);
    assert |chunks| == |chunks.Keys| > 0;
    assert chunks.Keys <= Interval(0, S.Emitted(data));
    SmallerSet(chunks.Keys, Interval(0, S.Emitted(data)));
    if |chunks| == n {
      Pigeonhole(chunks.Keys, n);
      AssembleAll(data, chunks, 0);
      assert S.From(data, 0) == data;
    }
  }

  /** What storing one genuine chunk does: the file is written exactly when its last missing chunk came. */
  lemma StoreGenuine(r: R.State, id: nat, data: Data, index: nat)
    requires id in r.incoming && CollectsFrom(data, r.incoming[id]) && index < S.Emitted(data)
    ensures var file := r.incoming[id];
            var chunks := file.chunks[index := S.ChunkOf(data, index)];
            var s := R.Store(r, id, index, S.ChunkOf(data, index));
            && chunks.Keys == file.chunks.Keys + {index}
            && if data != [] && chunks.Keys == Interval(0, S.Total(data)) then
                 s == r.(incoming := r.incoming - {id}, dir := r.dir[file.name := data],
                         writes := r.writes + [R.Write(id, file.name, data, false)])
               else
                 && s == r.(incoming := r.incoming[id := file.(chunks := chunks)])
                 && CollectsFrom(data, file.(chunks := chunks))
  {
    AddChunk(data, r.incoming[id], index);
    hide S.ChunkOf, R.Assemble, Interval, CollectsFrom, S.Total;
  }

  lemma AddChunk(data: Data, file: R.Incoming, index: nat)
    requires CollectsFrom(data, file) && index < S.Emitted(data)
    ensures var chunks := file.chunks[index := S.ChunkOf(data, index)];
            && chunks.Keys == file.chunks.Keys + {index}
            && (|chunks| == file.total <==> data != [] && chunks.Keys == Interval(0, S.Total(data)))
            && (|chunks| == file.total ==> R.Assemble(chunks, 0, file.total) == (data, false))
            && (|chunks| != file.total ==> CollectsFrom(data, file.(chunks := chunks)))
  {
    hide S.ChunkOf, R.Assemble, Interval;
    CountForcesAll(data, file.chunks[index := S.ChunkOf(data, index)]);
  }

  lemma ChunkKeepsReceiver(files: map<nat, File>, r: R.State, id: nat, data: Data, index: nat)
    requires ReceiverOk(files, r) && id in r.incoming && id in files && files[id].data == data
    requires index < S.Emitted(data)
    ensures ReceiverOk(files, R.Store(r, id, index, S.ChunkOf(data, index)))
  {
    hide R.Store, CollectsFrom, S.ChunkOf, S.Emitted, S.Total, Interval;
    StoreGenuine(r, id, data, index);
  }

  lemma HeaderKeepsReceiver(c: Cipher, key: Key, files: map<nat, File>, r: R.State, id: nat)
    requires Known(files) && id in files && ReceiverOk(files, r) && !r.stopped
    ensures ReceiverOk(files, R.Handle(c, Some(key), r, S.Wire(c, S.HeaderFor(id, files[id].data, files[id].name))))
  {
    hide R.Handle, S.Wire, CollectsFrom;
    HeaderOnWire(c, key, r, id, files[id].data, files[id].name);
    var s := R.Handle(c, Some(key), r, S.Wire(c, S.HeaderFor(id, files[id].data, files[id].name)));
    FreshCollects(files[id].data, s.incoming[id].name);
  }

  lemma GenuineKeepsReceiver(c: Cipher, key: Key, files: map<nat, File>, r: R.State, sent: S.Sent)
    requires Lawful(c) && Known(files) && Genuine(files, key, sent) && ReceiverOk(files, r)
    ensures ReceiverOk(files, R.Handle(c, Some(key), r, S.Wire(c, sent)))
  {
    hide R.Handle, S.Wire, R.Store, CollectsFrom, Lawful;
    if r.stopped {
      StoppedIgnores(c, key, r, sent);
      return;
    }
    match sent
    case HeaderFor(id, _, _) =>
      HeaderKeepsReceiver(c, key, files, r, id);
    case ChunkFor(id, data, index, iv, _, again) =>
      EmittedFits(data, index);
      ChunkOnWire(c, key, r, id, data, index, iv, again);
      if id in r.incoming {
        ChunkKeepsReceiver(files, r, id, data, index);
      }
    case TextFor(id, msg, iv, under) =>
      TextOnWire(c, key, r, id, msg, iv, under);
  }

  lemma StoppedIgnores(c: Cipher, key: Key, r: R.State, sent: S.Sent)
    requires r.stopped
    ensures R.Handle(c, Some(key), r, S.Wire(c, sent)) == r
  {
  }

  lemma FreshCollects(data: Data, name: Data)
    ensures CollectsFrom(data, R.Incoming(S.Total(data), name, map[]))
  {
  }

  lemma EmittedFits(data: Data, index: nat)
    requires S.Total(data) < 0x1_0000_0000_0000 && index < S.Emitted(data)
    ensures index < 0x1_0000_0000_0000
  {
  }

  // ---- Deliveries, one after the other

  function Deliveries(c: Cipher, key: Key, r: R.State, log: seq<S.Sent>): R.State
    decreases |log|
  {
    if log == [] then r else Deliveries(c, key, R.Handle(c, Some(key), r, S.Wire(c, log[0])), log[1..])
  }

  lemma {:induction false} DeliveriesConcat(c: Cipher, key: Key, r: R.State, a: seq<S.Sent>, b: seq<S.Sent>)
    ensures Deliveries(c, key, r, a + b) == Deliveries(c, key, Deliveries(c, key, r, a), b)
    decreases |a|
  {
    hide R.Handle, S.Wire;
    if a == [] {
      assert a + b == b;
    } else {
      assert (a + b)[1..] == a[1..] + b;
      DeliveriesConcat(c, key, R.Handle(c, Some(key), r, S.Wire(c, a[0])), a[1..], b);
    }
  }

  ghost predicate AllGenuine(files: map<nat, File>, key: Key, log: seq<S.Sent>) {
    forall i :: 0 <= i < |log| ==> Genuine(files, key, log[i])
  }

  lemma {:induction false} DeliveriesKeepReceiver(c: Cipher, key: Key, files: map<nat, File>, r: R.State, log: seq<S.Sent>)
    requires Lawful(c) && Known(files) && AllGenuine(files, key, log) && ReceiverOk(files, r)
    ensures ReceiverOk(files, Deliveries(c, key, r, log))
    decreases |log|
  {
    hide R.Handle, S.Wire, ReceiverOk, Known, Lawful, Genuine;
    if log != [] {
      assert Genuine(files, key, log[0]);
      GenuineKeepsReceiver(c, key, files, r, log[0]);
      DeliveriesKeepReceiver(c, key, files, R.Handle(c, Some(key), r, S.Wire(c, log[0])), log[1..]);
    }
  }

  // ---- Saved texts

  function TextsOf(c: Cipher, key: Key, log: seq<S.Sent>): seq<Data> {
    if log == [] then [] else SavedOf(c, key, log[0]) + TextsOf(c, key, log[1..])
  }

  lemma OneSaved(c: Cipher, key: Key, files: map<nat, File>, r: R.State, sent: S.Sent)
    requires Lawful(c) && !r.stopped && Known(files) && Genuine(files, key, sent)
    ensures R.Handle(c, Some(key), r, S.Wire(c, sent)).saved == r.saved + SavedOf(c, key, sent)
  {
    if sent.TextFor? {
      TextOnWireSaved(c, key, r, sent);
    } else {
      var d := S.Wire(c, sent);
      FrameParts(S.PacketOf(c, sent));
      R.OnlyItsOwn(c, Some(key), r, d);
      hide S.Wire, R.Handle, Frame;
      assert r.saved + [] == r.saved;
    }
  }

  lemma {:induction false} DeliveriesSave(c: Cipher, key: Key, files: map<nat, File>, r: R.State, log: seq<S.Sent>)
    requires Lawful(c) && !r.stopped && Known(files) && AllGenuine(files, key, log)
    ensures Deliveries(c, key, r, log).saved == r.saved + TextsOf(c, key, log)
    decreases |log|
  {
    hide R.Handle, S.Wire, Known, Lawful, Genuine, SavedOf;
    if log == [] {
      assert r.saved + [] == r.saved;
    } else {
      var next := R.Handle(c, Some(key), r, S.Wire(c, log[0]));
      assert Genuine(files, key, log[0]);
      OneSaved(c, key, files, r, log[0]);
      HandleStopsNothing(c, key, r, S.Wire(c, log[0]));
      DeliveriesSave(c, key, files, next, log[1..]);
    }
  }

  // ---- Counting writes

  function WritesOf(writes: seq<R.Write>, id: nat): nat {
    if writes == [] then 0
    else WritesOf(writes[..|writes| - 1], id) + (if writes[|writes| - 1].messageId == id then 1 else 0)
  }

  lemma WritesOfAppend(writes: seq<R.Write>, w: R.Write, id: nat)
    ensures WritesOf(writes + [w], id) == WritesOf(writes, id) + (if w.messageId == id then 1 else 0)
  {
    assert (writes + [w])[..|writes|] == writes;
  }

  predicate IsHeader(sent: S.Sent, id: nat) {
    sent.HeaderFor? && sent.id == id
  }

  function HeadersOf(log: seq<S.Sent>, id: nat): nat {
    if log == [] then 0 else (if IsHeader(log[0], id) then 1 else 0) + HeadersOf(log[1..], id)
  }

  /** The chunk numbers of one message among the delivered packets. */
  function IndicesOf(log: seq<S.Sent>, id: nat): set<nat> {
    if log == [] then {}
    else (if log[0].ChunkFor? && log[0].id == id then {log[0].index} else {}) + IndicesOf(log[1..], id)
  }

  function Open(r: R.State, id: nat): nat {
    if id in r.incoming then 1 else 0
  }

  /** What one genuine packet does to message `id`: the writes, and whether it is being collected. */
  lemma OneDelivery(c: Cipher, key: Key, files: map<nat, File>, r: R.State, sent: S.Sent, id: nat)
    requires Lawful(c) && Known(files) && Genuine(files, key, sent) && ReceiverOk(files, r)
    ensures var s := R.Handle(c, Some(key), r, S.Wire(c, sent));
            && WritesOf(s.writes, id) + Open(s, id) <=
               WritesOf(r.writes, id) + Open(r, id) + (if IsHeader(sent, id) then 1 else 0)
            && (r.stopped ==> s == r)
            && (!r.stopped && !IsHeader(sent, id) && !(sent.ChunkFor? && sent.id == id) ==>
                  && WritesOf(s.writes, id) == WritesOf(r.writes, id)
                  && (id in s.incoming <==> id in r.incoming)
                  && (id in r.incoming ==> s.incoming[id] == r.incoming[id]))
            && s.stopped == r.stopped
  {
    hide R.Handle, S.Wire, R.Store, CollectsFrom, Lawful, WritesOf;
    if r.stopped {
      StoppedIgnores(c, key, r, sent);
      return;
    }
    match sent
    case HeaderFor(id', data, name) =>
      HeaderOnWire(c, key, r, id', data, name);
    case ChunkFor(id', data, index, iv, _, again) =>
      EmittedFits(data, index);
      ChunkOnWire(c, key, r, id', data, index, iv, again);
      if id' in r.incoming {
        StoreGenuine(r, id', data, index);
        WritesOfAppend(r.writes, R.Write(id', r.incoming[id'].name, data, false), id);
      }
    case TextFor(id', msg, iv, under) =>
      TextOnWire(c, key, r, id', msg, iv, under);
  }

  /** A file is never written more often than its header was delivered. */
  lemma {:induction false} WritesBoundedByHeaders(c: Cipher, key: Key, files: map<nat, File>, r: R.State,
                                                  log: seq<S.Sent>, id: nat)
    requires Lawful(c) && Known(files) && AllGenuine(files, key, log) && ReceiverOk(files, r)
    ensures var s := Deliveries(c, key, r, log);
            WritesOf(s.writes, id) + Open(s, id) <= WritesOf(r.writes, id) + Open(r, id) + HeadersOf(log, id)
    decreases |log|
  {
    hide R.Handle, S.Wire, ReceiverOk, Known, Lawful, Genuine, WritesOf, Open, IsHeader;
    if log != [] {
      var next := R.Handle(c, Some(key), r, S.Wire(c, log[0]));
      assert Genuine(files, key, log[0]);
      OneDelivery(c, key, files, r, log[0], id);
      GenuineKeepsReceiver(c, key, files, r, log[0]);
      WritesBoundedByHeaders(c, key, files, next, log[1..], id);
    }
  }

  /** With no further header, a message that is not being collected is not written. */
  lemma {:induction false} ClosedStaysClosed(c: Cipher, key: Key, files: map<nat, File>, r: R.State,
                                             log: seq<S.Sent>, id: nat)
    requires Lawful(c) && Known(files) && AllGenuine(files, key, log) && ReceiverOk(files, r)
    requires HeadersOf(log, id) == 0 && id !in r.incoming
    ensures WritesOf(Deliveries(c, key, r, log).writes, id) == WritesOf(r.writes, id)
    decreases |log|
  {
    WritesBoundedByHeaders(c, key, files, r, log, id);
    WritesNeverShrink(c, key, files, r, log, id);
  }

  lemma {:induction false} WritesNeverShrink(c: Cipher, key: Key, files: map<nat, File>, r: R.State,
                                             log: seq<S.Sent>, id: nat)
    requires Lawful(c) && Known(files) && AllGenuine(files, key, log) && ReceiverOk(files, r)
    ensures WritesOf(Deliveries(c, key, r, log).writes, id) >= WritesOf(r.writes, id)
    decreases |log|
  {
    hide R.Handle, S.Wire, ReceiverOk, Known, Lawful, Genuine, WritesOf;
    if log != [] {
      assert Genuine(files, key, log[0]);
      WritesGrow(c, key, files, r, log[0], id);
      GenuineKeepsReceiver(c, key, files, r, log[0]);
      WritesNeverShrink(c, key, files, R.Handle(c, Some(key), r, S.Wire(c, log[0])), log[1..], id);
    }
  }

  lemma WritesGrow(c: Cipher, key: Key, files: map<nat, File>, r: R.State, sent: S.Sent, id: nat)
    requires Lawful(c) && Known(files) && Genuine(files, key, sent) && ReceiverOk(files, r)
    ensures WritesOf(R.Handle(c, Some(key), r, S.Wire(c, sent)).writes, id) >= WritesOf(r.writes, id)
  {
    hide R.Handle, S.Wire, R.Store, CollectsFrom, Lawful, WritesOf;
    if r.stopped {
      StoppedIgnores(c, key, r, sent);
      return;
    }
    match sent
    case HeaderFor(id', data, name) =>
      HeaderOnWire(c, key, r, id', data, name);
    case ChunkFor(id', data, index, iv, _, again) =>
      EmittedFits(data, index);
      ChunkOnWire(c, key, r, id', data, index, iv, again);
      if id' in r.incoming {
        StoreGenuine(r, id', data, index);
        WritesOfAppend(r.writes, R.Write(id', r.incoming[id'].name, data, false), id);
      }
    case TextFor(id', msg, iv, under) =>
      TextOnWire(c, key, r, id', msg, iv, under);
  }

  /** The step of the completion proof: a genuine chunk of the message being collected. */
  lemma OneChunk(c: Cipher, key: Key, files: map<nat, File>, r: R.State, sent: S.Sent, id: nat, data: Data)
    requires Lawful(c) && Known(files) && Genuine(files, key, sent) && ReceiverOk(files, r) && !r.stopped
    requires sent.ChunkFor? && sent.id == id && id in r.incoming
    requires id in files && files[id].data == data && data != []
    ensures var s := R.Handle(c, Some(key), r, S.Wire(c, sent));
            var seen := r.incoming[id].chunks.Keys + {sent.index};
            && !s.stopped
            && if seen == Interval(0, S.Total(data)) then
                 id !in s.incoming && WritesOf(s.writes, id) == WritesOf(r.writes, id) + 1
               else
                 id in s.incoming && s.incoming[id].chunks.Keys == seen && s.writes == r.writes
  {
    hide R.Handle, S.Wire, R.Store, CollectsFrom, Lawful, WritesOf, Interval;
    var index := sent.index;
    EmittedFits(data, index);
    ChunkOnWire(c, key, r, id, data, index, sent.iv, sent.again);
    StoreGenuine(r, id, data, index);
    WritesOfAppend(r.writes, R.Write(id, r.incoming[id].name, data, false), id);
  }

  lemma NotFull(data: Data, file: R.Incoming)
    requires CollectsFrom(data, file) && data != []
    ensures file.chunks.Keys <= Interval(0, S.Total(data)) && file.chunks.Keys != Interval(0, S.Total(data))
  {
    var n, keys := S.Total(data), file.chunks.Keys;
    assert n > 0 && |keys| < n;
    assert |Interval(0, n)| == n;
  }

  lemma FirstDelivery(c: Cipher, key: Key, r: R.State, log: seq<S.Sent>, id: nat)
    requires log != []
    ensures Deliveries(c, key, r, log) == Deliveries(c, key, R.Handle(c, Some(key), r, S.Wire(c, log[0])), log[1..])
    ensures IndicesOf(log, id) ==
            (if log[0].ChunkFor? && log[0].id == id then {log[0].index} else {}) + IndicesOf(log[1..], id)
    ensures HeadersOf(log, id) == 0 ==> !IsHeader(log[0], id) && HeadersOf(log[1..], id) == 0
  {
  }

  /** Message `id`, a non-empty file, is being collected, and `log` is to be delivered without a header of it. */
  ghost predicate Collecting(files: map<nat, File>, key: Key, r: R.State, log: seq<S.Sent>, id: nat, data: Data) {
    && Known(files) && AllGenuine(files, key, log) && ReceiverOk(files, r) && !r.stopped
    && HeadersOf(log, id) == 0
    && id in r.incoming && id in files && files[id].data == data && data != []
  }

  /** The last missing chunk arrives: one write now, none later. */
  lemma AfterLastChunk(c: Cipher, key: Key, files: map<nat, File>, next: R.State, rest: seq<S.Sent>, id: nat,
                       data: Data, before: set<nat>, index: nat, count: nat)
    requires Lawful(c) && Known(files) && AllGenuine(files, key, rest) && ReceiverOk(files, next)
    requires HeadersOf(rest, id) == 0 && id in files && files[id].data == data && data != []
    requires before + {index} == Interval(0, S.Total(data)) && id !in next.incoming
    requires WritesOf(next.writes, id) == count + 1
    ensures before + ({index} + IndicesOf(rest, id)) == Interval(0, S.Total(data))
    ensures WritesOf(Deliveries(c, key, next, rest).writes, id) == count + 1
  {
    hide *;
    IndicesAreEmitted(files, key, rest, id, data);
    UnionLaws(before, {index}, IndicesOf(rest, id));
    UnionLaws(before, before + {index}, IndicesOf(rest, id));
    ClosedStaysClosed(c, key, files, next, rest, id);
  }

  lemma UnionLaws(a: set<nat>, b: set<nat>, c: set<nat>)
    ensures a + (b + c) == (a + b) + c
    ensures c <= b ==> b + c == b
  {
  }

  lemma CollectingParts(files: map<nat, File>, key: Key, r: R.State, log: seq<S.Sent>, id: nat, data: Data)
    requires Collecting(files, key, r, log, id, data) && log != []
    ensures Known(files) && Genuine(files, key, log[0]) && AllGenuine(files, key, log[1..]) && ReceiverOk(files, r) && !r.stopped
    ensures HeadersOf(log[1..], id) == 0 && !IsHeader(log[0], id)
    ensures id in r.incoming && id in files && files[id].data == data && data != []
  {
  }

  lemma StillCollecting(c: Cipher, key: Key, files: map<nat, File>, r: R.State, log: seq<S.Sent>, id: nat, data: Data)
    requires Lawful(c) && Collecting(files, key, r, log, id, data) && log != []
    ensures var next := R.Handle(c, Some(key), r, S.Wire(c, log[0]));
            id in next.incoming ==> Collecting(files, key, next, log[1..], id, data)
  {
    CollectingParts(files, key, r, log, id, data);
    hide R.Handle, S.Wire, Lawful, WritesOf, ReceiverOk, Known, Genuine, Deliveries, IndicesOf, HeadersOf, AllGenuine;
    GenuineKeepsReceiver(c, key, files, r, log[0]);
    OneDelivery(c, key, files, r, log[0], id);
  }

  lemma {:induction false} AfterOwnChunk(c: Cipher, key: Key, files: map<nat, File>, r: R.State,
                                         log: seq<S.Sent>, id: nat, data: Data)
    requires Lawful(c) && Collecting(files, key, r, log, id, data)
    requires log != [] && log[0].ChunkFor? && log[0].id == id
    ensures WritesOf(Deliveries(c, key, r, log).writes, id) == WritesOf(r.writes, id) +
            (if r.incoming[id].chunks.Keys + IndicesOf(log, id) == Interval(0, S.Total(data)) then 1 else 0)
    decreases |log|, 0
  {
    hide *;
    var sent, rest := log[0], log[1..];
    var next := R.Handle(c, Some(key), r, S.Wire(c, sent));
    CollectingParts(files, key, r, log, id, data);
    StillCollecting(c, key, files, r, log, id, data);
    FirstDelivery(c, key, r, log, id);
    GenuineKeepsReceiver(c, key, files, r, sent);
    OneChunk(c, key, files, r, sent, id, data);
    var before := r.incoming[id].chunks.Keys;
    if before + {sent.index} == Interval(0, S.Total(data)) {
      AfterLastChunk(c, key, files, next, rest, id, data, before, sent.index, WritesOf(r.writes, id));
    } else {
      CompletionFrom(c, key, files, next, rest, id, data);
      UnionLaws(before, {sent.index}, IndicesOf(rest, id));
    }
  }

  lemma {:induction false} AfterOther(c: Cipher, key: Key, files: map<nat, File>, r: R.State,
                                      log: seq<S.Sent>, id: nat, data: Data)
    requires Lawful(c) && Collecting(files, key, r, log, id, data)
    requires log != [] && !(log[0].ChunkFor? && log[0].id == id)
    ensures WritesOf(Deliveries(c, key, r, log).writes, id) == WritesOf(r.writes, id) +
            (if r.incoming[id].chunks.Keys + IndicesOf(log, id) == Interval(0, S.Total(data)) then 1 else 0)
    decreases |log|, 0
  {
    hide *;
    CollectingParts(files, key, r, log, id, data);
    StillCollecting(c, key, files, r, log, id, data);
    FirstDelivery(c, key, r, log, id);
    OneDelivery(c, key, files, r, log[0], id);
    CompletionFrom(c, key, files, R.Handle(c, Some(key), r, S.Wire(c, log[0])), log[1..], id, data);
    assert {} + IndicesOf(log[1..], id) == IndicesOf(log[1..], id);
  }

  /** From a state that has some of the chunks: the file is written once more if the rest arrives, else not. */
  lemma {:induction false} CompletionFrom(c: Cipher, key: Key, files: map<nat, File>, r: R.State,
                                          log: seq<S.Sent>, id: nat, data: Data)
    requires Lawful(c) && Collecting(files, key, r, log, id, data)
    ensures WritesOf(Deliveries(c, key, r, log).writes, id) == WritesOf(r.writes, id) +
            (if r.incoming[id].chunks.Keys + IndicesOf(log, id) == Interval(0, S.Total(data)) then 1 else 0)
    decreases |log|, 1
  {
    if log == [] {
      NotFull(data, r.incoming[id]);
      assert r.incoming[id].chunks.Keys + IndicesOf(log, id) == r.incoming[id].chunks.Keys;
    } else if log[0].ChunkFor? && log[0].id == id {
      AfterOwnChunk(c, key, files, r, log, id, data);
    } else {
      AfterOther(c, key, files, r, log, id, data);
    }
  }

  lemma {:induction false} IndicesAreEmitted(files: map<nat, File>, key: Key, log: seq<S.Sent>, id: nat, data: Data)
    requires AllGenuine(files, key, log) && id in files && files[id].data == data && data != []
    ensures IndicesOf(log, id) <= Interval(0, S.Total(data))
    decreases |log|
  {
    if log != [] {
      assert Genuine(files, key, log[0]);
      IndicesAreEmitted(files, key, log[1..], id, data);
    }
  }

  /** After a header of a non-empty file and with no further header of it: exactly one write if every chunk is
      delivered at least once, in whatever order and however often, and none otherwise. */
  lemma {:induction false} Completion(c: Cipher, key: Key, files: map<nat, File>, r: R.State, log: seq<S.Sent>, id: nat)
    requires Lawful(c) && Known(files) && AllGenuine(files, key, log) && ReceiverOk(files, r) && !r.stopped
    requires HeadersOf(log, id) == 0 && id in files && files[id].data != []
    ensures var file := files[id];
            var s := Deliveries(c, key, r, [S.HeaderFor(id, file.data, file.name)] + log);
            WritesOf(s.writes, id) == WritesOf(r.writes, id) +
            (if forall i :: 0 <= i < S.Total(file.data) ==> i in IndicesOf(log, id) then 1 else 0)
  {
    hide *;
    var data, header := files[id].data, S.HeaderFor(id, files[id].data, files[id].name);
    var next := R.Handle(c, Some(key), r, S.Wire(c, header));
    HeaderOpens(c, key, files, r, log, id);
    DeliveriesFirst(c, key, r, header, log);
    CompletionFrom(c, key, files, next, log, id, data);
    assert next.incoming[id].chunks.Keys + IndicesOf(log, id) == IndicesOf(log, id);
    AllIndices(files, key, log, id, data);
  }

  lemma DeliveriesFirst(c: Cipher, key: Key, r: R.State, sent: S.Sent, log: seq<S.Sent>)
    ensures Deliveries(c, key, r, [sent] + log) == Deliveries(c, key, R.Handle(c, Some(key), r, S.Wire(c, sent)), log)
  {
    hide R.Handle, S.Wire;
    assert ([sent] + log)[1..] == log;
  }

  /** A delivered header starts an empty collection and writes nothing. */
  lemma HeaderOpens(c: Cipher, key: Key, files: map<nat, File>, r: R.State, log: seq<S.Sent>, id: nat)
    requires Lawful(c) && Known(files) && AllGenuine(files, key, log) && ReceiverOk(files, r) && !r.stopped
    requires HeadersOf(log, id) == 0 && id in files && files[id].data != []
    ensures var next := R.Handle(c, Some(key), r, S.Wire(c, S.HeaderFor(id, files[id].data, files[id].name)));
            && Collecting(files, key, next, log, id, files[id].data)
            && id in next.incoming && next.incoming[id].chunks.Keys == {} && next.writes == r.writes
  {
    hide R.Handle, S.Wire, Lawful, ReceiverOk, AllGenuine, HeadersOf;
    var file := files[id];
    HeaderOnWire(c, key, r, id, file.data, file.name);
    GenuineKeepsReceiver(c, key, files, r, S.HeaderFor(id, file.data, file.name));
  }

  lemma AllIndices(files: map<nat, File>, key: Key, log: seq<S.Sent>, id: nat, data: Data)
    requires AllGenuine(files, key, log) && id in files && files[id].data == data && data != []
    ensures IndicesOf(log, id) == Interval(0, S.Total(data)) <==>
            forall i :: 0 <= i < S.Total(data) ==> i in IndicesOf(log, id)
  {
    IndicesAreEmitted(files, key, log, id, data);
    hide IndicesOf, S.Total;
  }

  lemma {:induction false} IndexOfDelivered(log: seq<S.Sent>, id: nat, sent: S.Sent)
    requires sent in log && sent.ChunkFor? && sent.id == id
    ensures sent.index in IndicesOf(log, id)
    decreases |log|
  {
    if log[0] != sent {
      IndexOfDelivered(log[1..], id, sent);
    }
  }

  /** The two halves together, over any run of the sender from the start of a file on. Suppose the transfer was not
      cut and waits for nothing more. Then a header of it was sent; and deliver any such header and afterwards, from
      the packets sent, in any order and as often as the network likes, at least those of the timer for it. A
      non-empty file is then written, once. */
  lemma {:induction false} SentTransferIsWritten(c: Cipher, key: Key, files: map<nat, File>, r: R.State, s: S.State,
                                                 es: seq<S.Event>, id: nat, since: seq<S.Sent>)
    requires Lawful(c) && Known(files) && ReceiverOk(files, r) && !r.stopped
    requires id in files && files[id].data != [] && HeadersOf(since, id) == 0
    requires !s.stopped && S.Fresh(s, id) && forall e :: e in es && e.File? ==> e.id != id
    requires var started := S.Step(s, S.File(id, files[id].data, files[id].name));
             var t := S.Exec(started, es);
             && !S.CutIn(started, es, id) && S.Waiting(t, id) == 0
             && AllGenuine(files, key, t.log) && (forall sent :: sent in since ==> sent in t.log)
             && forall sent :: sent in S.TickChunks(t.log, id) ==> sent in since
    ensures var t := S.Exec(S.Step(s, S.File(id, files[id].data, files[id].name)), es);
            && (exists header :: header in t.log && IsHeader(header, id))
            && forall header :: header in t.log && IsHeader(header, id) ==>
                 WritesOf(Deliveries(c, key, r, [header] + since).writes, id) == WritesOf(r.writes, id) + 1
  {
    var data := files[id].data;
    HeaderWasSent(s, id, data, files[id].name, es);
    DrawnIsGenuine(files, key, S.Exec(S.SendFile(s, id, data, files[id].name), es).log, since, id);
    S.TransferIsSentIff(s, id, data, files[id].name, es);
    var chunks := S.TickChunks(S.Exec(S.SendFile(s, id, data, files[id].name), es).log, id);
    hide Lawful, Deliveries, WritesOf, ReceiverOk, S.TickChunks, S.Exec, S.SendFile, IndicesOf, HeadersOf, AllGenuine;
    forall i | 0 <= i < S.Total(data)
      ensures i in IndicesOf(since, id)
    {
      assert chunks[i] in since && chunks[i].ChunkFor? && chunks[i].index == i && chunks[i].id == id;
      IndexOfDelivered(since, id, chunks[i]);
    }
    Completion(c, key, files, r, since, id);
  }

  lemma HeaderWasSent(s: S.State, id: nat, data: Data, name: Data, es: seq<S.Event>)
    requires !s.stopped
    ensures S.HeaderFor(id, data, name) in S.Exec(S.SendFile(s, id, data, name), es).log
  {
    var started := S.SendFile(s, id, data, name);
    S.OthersOfStep(s, S.File(id, data, name));
    S.OthersAreSent(started.log);
    assert S.HeaderFor(id, data, name) in S.Others(started.log);
    S.LogGrows(started, es);
  }

  lemma DrawnIsGenuine(files: map<nat, File>, key: Key, log: seq<S.Sent>, since: seq<S.Sent>, id: nat)
    requires AllGenuine(files, key, log) && (forall sent :: sent in since ==> sent in log) && id in files
    ensures AllGenuine(files, key, since)
    ensures forall sent :: sent in log && IsHeader(sent, id) ==> sent == S.HeaderFor(id, files[id].data, files[id].name)
  {
    forall i | 0 <= i < |since|
      ensures Genuine(files, key, since[i])
    {
      assert since[i] in log;
    }
  }

  // ---- The whole system

  /** The events of the sender, with or without the key at hand; and what the network and the receiver do. */
  datatype Event =
    | StartFile(id: nat, data: Data, name: Data)
    | Expire
    | Serve(iv: nat, keyed: bool)
    | Resend(id: nat, index: nat, iv: nat, keyed: bool)
    | Text(id: nat, msg: Data, iv: nat, keyed: bool)
    | Deliver(which: nat)
    | DeliverCorrupted(which: nat, d: Data, at: nat)
    | StopSender
    | StopReceiver

  /** `delivered` lists the intact packets handed to the receiver while it was running, in order. */
  datatype System = System(sender: S.State, receiver: R.State, files: map<nat, File>, delivered: seq<S.Sent>)

  const INITIAL := System(S.START, R.START, map[], [])

  /** A datagram that differs from a frame, and only inside four consecutive bytes of its payload. */
  predicate Corrupts(frame: Data, d: Data, at: nat) {
    && |frame| == |d| == SIZE && 13 <= at && at + 4 <= 508
    && d[..at] == frame[..at] && d[at + 4..] == frame[at + 4..] && d != frame
  }

  function Found(key: Key, keyed: bool): Option<Key> {
    if keyed then Some(key) else None
  }

  /** What the sender does at an event of the system; starting a file needs a message number not used before and
      a size the six-byte counter can hold. */
  function SenderEvent(key: Key, files: map<nat, File>, e: Event): Option<S.Event> {
    match e
    case StartFile(id, data, name) =>
      if id in files || id >= 0x1_0000_0000 || S.Total(data) >= 0x1_0000_0000_0000 then None
      else Some(S.File(id, data, name))
    case Expire => Some(S.Expire)
    case Serve(iv, keyed) => Some(S.Serve(iv, Found(key, keyed)))
    case Resend(id, index, iv, keyed) =>
      if id in files then Some(S.Again(id, files[id].data, index, iv, Found(key, keyed))) else None
    case Text(id, msg, iv, keyed) => Some(S.Text(id, msg, iv, Found(key, keyed)))
    case StopSender => Some(S.Stop)
    case _ => None
  }

  /** A delivery picks any packet ever sent, so packets may be lost, repeated and reordered at will, and it may
      change a payload inside four consecutive bytes. */
  function Step(c: Cipher, key: Key, s: System, e: Event): System {
    match e
    case Deliver(which) =>
      if which >= |s.sender.log| || s.receiver.stopped then s
      else s.(receiver := R.Handle(c, Some(key), s.receiver, S.Wire(c, s.sender.log[which])),
              delivered := s.delivered + [s.sender.log[which]])
    case DeliverCorrupted(which, d, at) =>
      if which >= |s.sender.log| || !Corrupts(S.Wire(c, s.sender.log[which]), d, at) then s
      else s.(receiver := R.Handle(c, Some(key), s.receiver, d))
    case StopReceiver => s.(receiver := s.receiver.(stopped := true))
    case _ =>
      match SenderEvent(key, s.files, e)
      case None => s
      case Some(local) =>
        s.(sender := S.Step(s.sender, local),
           files := if local.File? then s.files[local.id := File(local.data, local.name)] else s.files)
  }

  function Run(c: Cipher, key: Key, events: seq<Event>): System {
    if events == [] then INITIAL
    else Step(c, key, Run(c, key, events[..|events| - 1]), events[|events| - 1])
  }

  ghost predicate JobKnown(files: map<nat, File>, job: S.Job) {
    S.JobOk(job) && job.id in files && files[job.id].data == job.data
  }

  ghost predicate SenderOk(key: Key, s: System) {
    && Known(s.files)
    && AllGenuine(s.files, key, s.sender.log)
    && AllGenuine(s.files, key, s.delivered)
    && (s.sender.armed.Some? ==> JobKnown(s.files, s.sender.armed.value))
    && forall i :: 0 <= i < |s.sender.due| ==> JobKnown(s.files, s.sender.due[i])
  }

  ghost predicate Invariant(c: Cipher, key: Key, s: System) {
    && SenderOk(key, s)
    && s.receiver.(stopped := false) == Deliveries(c, key, R.START, s.delivered)
  }

  lemma HeaderIsGenuine(files: map<nat, File>, key: Key, id: nat, file: File)
    ensures Genuine(files[id := file], key, S.HeaderFor(id, file.data, file.name))
  {
  }

  lemma StartStep(c: Cipher, key: Key, s: System, e: Event)
    requires SenderOk(key, s) && e.StartFile?
    ensures SenderOk(key, Step(c, key, s, e))
  {
    hide R.Handle, S.Wire, S.Total, Genuine;
    if SenderEvent(key, s.files, e).Some? {
      var file := File(e.data, e.name);
      GrowFiles(s.files, key, s.sender.log, e.id, file);
      GrowFiles(s.files, key, s.delivered, e.id, file);
      HeaderIsGenuine(s.files, key, e.id, file);
    }
  }

  lemma SenderStep(c: Cipher, key: Key, s: System, e: Event)
    requires SenderOk(key, s)
    ensures SenderOk(key, Step(c, key, s, e))
  {
    hide R.Handle, S.Wire;
    match e
    case StartFile(id, data, name) =>
      StartStep(c, key, s, e);
    case Resend(id, index, iv, keyed) =>
      if id in s.files && index * S.CHUNK < |s.files[id].data| {
        assert index < S.Emitted(s.files[id].data);
      }
    case _ =>
  }

  lemma GrowFiles(files: map<nat, File>, key: Key, log: seq<S.Sent>, id: nat, file: File)
    requires AllGenuine(files, key, log) && id !in files
    ensures AllGenuine(files[id := file], key, log)
  {
    forall i | 0 <= i < |log|
      ensures Genuine(files[id := file], key, log[i])
    {
      assert Genuine(files, key, log[i]);
    }
  }

  lemma {:induction false} StoppedStays(c: Cipher, key: Key, r: R.State, log: seq<S.Sent>)
    requires !r.stopped
    ensures !Deliveries(c, key, r, log).stopped
    decreases |log|
  {
    hide R.Handle, S.Wire;
    if log != [] {
      HandleStopsNothing(c, key, r, S.Wire(c, log[0]));
      StoppedStays(c, key, R.Handle(c, Some(key), r, S.Wire(c, log[0])), log[1..]);
    }
  }

  lemma HandleStopsNothing(c: Cipher, key: Key, r: R.State, d: Data)
    requires |d| == SIZE
    ensures R.Handle(c, Some(key), r, d).stopped == r.stopped
  {
    hide Deframe, SavedText, Opened, R.Assemble;
  }

  lemma DeliverStep(c: Cipher, key: Key, s: System, which: nat)
    requires Invariant(c, key, s) && which < |s.sender.log| && !s.receiver.stopped
    ensures Invariant(c, key, Step(c, key, s, Deliver(which)))
  {
    hide R.Handle, S.Wire, AllGenuine;
    SenderStep(c, key, s, Deliver(which));
    var sent := s.sender.log[which];
    DeliveriesConcat(c, key, R.START, s.delivered, [sent]);
    assert s.receiver.(stopped := false) == s.receiver;
    assert Deliveries(c, key, s.receiver, [sent]) == R.Handle(c, Some(key), s.receiver, S.Wire(c, sent)) by {
      assert [sent][1..] == [];
    }
    StoppedStays(c, key, R.START, s.delivered + [sent]);
  }

  lemma InvariantStep(c: Cipher, key: Key, s: System, e: Event)
    requires Invariant(c, key, s)
    ensures Invariant(c, key, Step(c, key, s, e))
  {
    if e.Deliver? && e.which < |s.sender.log| && !s.receiver.stopped {
      DeliverStep(c, key, s, e.which);
    } else {
      SenderStep(c, key, s, e);
      hide R.Handle, S.Wire, SenderOk, Deliveries, SenderEvent;
      if e.DeliverCorrupted? {
        CorruptedStep(c, key, s, e);
      }
    }
  }

  /** A corrupted delivery leaves no trace. */
  lemma CorruptedStep(c: Cipher, key: Key, s: System, e: Event)
    requires e.DeliverCorrupted?
    ensures Step(c, key, s, e) == s
  {
    hide Frame, R.Handle;
    if e.which < |s.sender.log| && Corrupts(S.Wire(c, s.sender.log[e.which]), e.d, e.at) {
      R.CorruptedIsIgnored(c, Some(key), s.receiver, S.PacketOf(c, s.sender.log[e.which]), e.d, e.at);
    }
  }

  lemma {:induction false} RunInvariant(c: Cipher, key: Key, events: seq<Event>)
    ensures Invariant(c, key, Run(c, key, events))
    decreases |events|
  {
    if events != [] {
      RunInvariant(c, key, events[..|events| - 1]);
      hide Step, Invariant;
      InvariantStep(c, key, Run(c, key, events[..|events| - 1]), events[|events| - 1]);
    }
  }

  /** In every run every file the receiver writes is byte for byte the data of the transfer with that message
      number, and assembling it never meets a missing chunk. An empty file, whose header announces no chunk, is
      never written. */
  lemma {:induction false} EveryWriteIsIntact(c: Cipher, key: Key, events: seq<Event>)
    requires Lawful(c)
    ensures var s := Run(c, key, events);
            forall i :: 0 <= i < |s.receiver.writes| ==> Intact(s.files, s.receiver.writes[i])
  {
    hide R.Handle, S.Wire, Lawful;
    RunInvariant(c, key, events);
    var s := Run(c, key, events);
    DeliveriesKeepReceiver(c, key, s.files, R.START, s.delivered);
  }

  /** The texts of 1 to 463 bytes among the packets, in order. */
  function ReadableTexts(log: seq<S.Sent>): seq<Data> {
    if log == [] then []
    else if log[0].TextFor? && 1 <= |log[0].msg| <= 463 then [log[0].msg] + ReadableTexts(log[1..])
    else ReadableTexts(log[1..])
  }

  lemma {:induction false} KeyedTexts(c: Cipher, key: Key, log: seq<S.Sent>)
    requires forall i :: 0 <= i < |log| && log[i].TextFor? ==> log[i].under == Some(key)
    ensures TextsOf(c, key, log) == ReadableTexts(log)
    decreases |log|
  {
    if log != [] {
      assert forall i :: 0 <= i < |log| - 1 ==> log[1..][i] == log[i + 1];
      KeyedTexts(c, key, log[1..]);
      assert [] + ReadableTexts(log[1..]) == ReadableTexts(log[1..]);
    }
  }

  /** In every run the saved texts are, one for one and in order, what the delivered packets carry; if no text was
      sent without the key, exactly the delivered texts of 1 to 463 bytes. */
  lemma {:induction false} SavedAreTheTexts(c: Cipher, key: Key, events: seq<Event>)
    requires Lawful(c)
    ensures var s := Run(c, key, events);
            && s.receiver.saved == TextsOf(c, key, s.delivered)
            && ((forall i :: 0 <= i < |s.delivered| && s.delivered[i].TextFor? ==> s.delivered[i].under.Some?) ==>
                  s.receiver.saved == ReadableTexts(s.delivered))
  {
    hide R.Handle, S.Wire, Lawful, TextsOf, Run, ReadableTexts;
    RunInvariant(c, key, events);
    var s := Run(c, key, events);
    DeliveriesSave(c, key, s.files, R.START, s.delivered);
    assert [] + TextsOf(c, key, s.delivered) == TextsOf(c, key, s.delivered);
    if forall i :: 0 <= i < |s.delivered| && s.delivered[i].TextFor? ==> s.delivered[i].under.Some? {
      forall i | 0 <= i < |s.delivered| && s.delivered[i].TextFor?
        ensures s.delivered[i].under == Some(key)
      {
        assert Genuine(s.files, key, s.delivered[i]);
      }
      KeyedTexts(c, key, s.delivered);
    }
  }

  /** In every run the writes of a message number never outnumber its delivered headers. */
  lemma {:induction false} WritesNeverExceedHeaders(c: Cipher, key: Key, events: seq<Event>, id: nat)
    requires Lawful(c)
    ensures var s := Run(c, key, events);
            WritesOf(s.receiver.writes, id) <= HeadersOf(s.delivered, id)
  {
    hide R.Handle, S.Wire, Lawful;
    RunInvariant(c, key, events);
    var s := Run(c, key, events);
    WritesBoundedByHeaders(c, key, s.files, R.START, s.delivered, id);
  }

  /** In every run whose deliveries split at a header of a non-empty file, with no further header of it after
      that point: the file has been written once since, exactly when all its chunks have been delivered since. */
  lemma {:induction false} RunCompletion(c: Cipher, key: Key, events: seq<Event>, id: nat, before: seq<S.Sent>, since: seq<S.Sent>)
    requires Lawful(c)
    requires var s := Run(c, key, events);
             && id in s.files && s.files[id].data != []
             && s.delivered == before + [S.HeaderFor(id, s.files[id].data, s.files[id].name)] + since
    requires HeadersOf(since, id) == 0
    ensures var s := Run(c, key, events);
            WritesOf(s.receiver.writes, id) ==
            WritesOf(Deliveries(c, key, R.START, before).writes, id) +
            (if forall i :: 0 <= i < S.Total(s.files[id].data) ==> i in IndicesOf(since, id) then 1 else 0)
  {
    hide R.Handle, S.Wire, Lawful, IndicesOf, WritesOf, HeadersOf, Run;
    RunInvariant(c, key, events);
    var s := Run(c, key, events);
    var header := S.HeaderFor(id, s.files[id].data, s.files[id].name);
    assert s.delivered == before + ([header] + since);
    DeliveriesConcat(c, key, R.START, before, [header] + since);
    assert AllGenuine(s.files, key, before) && AllGenuine(s.files, key, since) by {
      SplitGenuine(s.files, key, before, [header] + since);
      SplitGenuine(s.files, key, [header], since);
    }
    DeliveriesKeepReceiver(c, key, s.files, R.START, before);
    StoppedStays(c, key, R.START, before);
    Completion(c, key, s.files, Deliveries(c, key, R.START, before), since, id);
  }

  lemma SplitGenuine(files: map<nat, File>, key: Key, a: seq<S.Sent>, b: seq<S.Sent>)
    requires AllGenuine(files, key, a + b)
    ensures AllGenuine(files, key, a) && AllGenuine(files, key, b)
  {
    forall i | 0 <= i < |a|
      ensures Genuine(files, key, a[i])
    {
      assert a[i] == (a + b)[i];
    }
    forall i | 0 <= i < |b|
      ensures Genuine(files, key, b[i])
    {
      assert b[i] == (a + b)[|a| + i];
    }
  }

  // ---- A transfer that nothing disturbs

  /** `k` times the timer expires and its handler runs with the key at hand. */
  function Beats(c: Cipher, key: Key, s: System, iv: nat, k: nat): System {
    if k == 0 then s else Step(c, key, Step(c, key, Beats(c, key, s, iv, k - 1), Expire), Serve(iv, true))
  }

  /** The packets from number `from` on are delivered, `k` of them, in order. */
  function Arrivals(c: Cipher, key: Key, s: System, from: nat, k: nat): System {
    if k == 0 then s else Step(c, key, Arrivals(c, key, s, from, k - 1), Deliver(from + k - 1))
  }

  function ChunksUpTo(key: Key, id: nat, data: Data, iv: nat, k: nat): seq<S.Sent> {
    seq(k, i requires 0 <= i < k => S.ChunkFor(id, data, i, iv, key, false))
  }

  lemma {:induction false} BeatsSend(c: Cipher, key: Key, s: System, id: nat, data: Data, iv: nat, k: nat)
    requires !s.sender.stopped && s.sender.due == [] && s.sender.armed == Some(S.Job(id, data, S.Total(data), 0))
    requires data != [] && k <= S.Total(data)
    ensures Beats(c, key, s, iv, k) ==
            s.(sender := S.State(if k < S.Total(data) then Some(S.Job(id, data, S.Total(data), k)) else None, [],
                                 s.sender.log + ChunksUpTo(key, id, data, iv, k), false))
  {
    hide S.Total, Step;
    S.ChunksMakeTheData(data);
    if k == 0 {
      assert s.sender.log + [] == s.sender.log;
    } else {
      BeatsSend(c, key, s, id, data, iv, k - 1);
      OneBeat(c, key, Beats(c, key, s, iv, k - 1), S.Job(id, data, S.Total(data), k - 1), iv);
      assert ChunksUpTo(key, id, data, iv, k) ==
             ChunksUpTo(key, id, data, iv, k - 1) + [S.ChunkFor(id, data, k - 1, iv, key, false)];
      Append(s.sender.log, ChunksUpTo(key, id, data, iv, k - 1), S.ChunkFor(id, data, k - 1, iv, key, false));
    }
  }

  lemma Append(a: seq<S.Sent>, b: seq<S.Sent>, sent: S.Sent)
    ensures (a + b) + [sent] == a + (b + [sent])
  {
  }

  lemma OneBeat(c: Cipher, key: Key, s: System, job: S.Job, iv: nat)
    requires s.sender == S.State(Some(job), [], s.sender.log, false)
    ensures Step(c, key, Step(c, key, s, Expire), Serve(iv, true)) ==
            s.(sender := S.State(if job.index + 1 < job.total then Some(job.(index := job.index + 1)) else None, [],
                                 s.sender.log + [S.ChunkFor(job.id, job.data, job.index, iv, key, false)], false))
  {
    assert [] + [job] == [job] && [job][1..] == [];
  }

  /** One more chunk arrives. */
  lemma ChunkArrives(c: Cipher, key: Key, s: System, id: nat, data: Data, iv: nat, at: nat, k: nat)
    requires Lawful(c) && id < 0x1_0000_0000 && k < S.Total(data) < 0x1_0000_0000_0000 && !s.receiver.stopped
    requires at < |s.sender.log| && s.sender.log[at] == S.ChunkFor(id, data, k, iv, key, false)
    requires id in s.receiver.incoming
    ensures var t := Step(c, key, s, Deliver(at));
            && t.sender == s.sender && t.files == s.files
            && t.receiver == R.Store(s.receiver, id, k, S.ChunkOf(data, k))
  {
    hide R.Handle, S.Wire, S.ChunkOf, R.Store, Lawful, S.Total;
    ChunkOnWire(c, key, s.receiver, id, data, k, iv, false);
  }

  /** The receiver collects `file` for this transfer and is otherwise as it was before. */
  predicate Collected(r: R.State, id: nat, file: R.Incoming, now: R.State) {
    now == r.(incoming := r.incoming[id := file])
  }

  /** The chunk that arrives in its turn is collected, or, if it is the last, the file is written. */
  lemma {:induction false} NextChunk(c: Cipher, key: Key, s: System, id: nat, data: Data, iv: nat, at: nat, k: nat,
                                     r: R.State, file: R.Incoming)
    requires Lawful(c) && id < 0x1_0000_0000 && k < S.Total(data) < 0x1_0000_0000_0000 && !r.stopped
    requires at < |s.sender.log| && s.sender.log[at] == S.ChunkFor(id, data, k, iv, key, false)
    requires Collected(r, id, file, s.receiver) && CollectsFrom(data, file) && file.chunks.Keys == Interval(0, k)
    ensures var t := Step(c, key, s, Deliver(at));
            var more := file.(chunks := file.chunks[k := S.ChunkOf(data, k)]);
            && t.sender == s.sender && t.files == s.files
            && if k + 1 < S.Total(data) then
                 Collected(r, id, more, t.receiver) && CollectsFrom(data, more) && more.chunks.Keys == Interval(0, k + 1)
               else
                 t.receiver == r.(incoming := r.incoming - {id}, dir := r.dir[file.name := data],
                                  writes := r.writes + [R.Write(id, file.name, data, false)])
  {
    hide Step, R.Store, Collected, CollectsFrom, S.Total, S.ChunkOf, Lawful, Interval;
    assert id in s.receiver.incoming && s.receiver.stopped == r.stopped by {
      Holds(r, id, file, s.receiver);
    }
    ChunkArrives(c, key, s, id, data, iv, at, k);
    Stored(id, data, k, r, file, s.receiver);
  }

  lemma Holds(r: R.State, id: nat, file: R.Incoming, now: R.State)
    requires Collected(r, id, file, now)
    ensures id in now.incoming && now.incoming[id] == file && now.stopped == r.stopped
  {
  }

  lemma Stored(id: nat, data: Data, k: nat, r: R.State, file: R.Incoming, now: R.State)
    requires k < S.Total(data) && Collected(r, id, file, now)
    requires CollectsFrom(data, file) && file.chunks.Keys == Interval(0, k)
    ensures var t := R.Store(now, id, k, S.ChunkOf(data, k));
            var more := file.(chunks := file.chunks[k := S.ChunkOf(data, k)]);
            if k + 1 < S.Total(data) then
              Collected(r, id, more, t) && CollectsFrom(data, more) && more.chunks.Keys == Interval(0, k + 1)
            else
              t == r.(incoming := r.incoming - {id}, dir := r.dir[file.name := data],
                      writes := r.writes + [R.Write(id, file.name, data, false)])
  {
    hide R.Store, CollectsFrom, S.Total, S.ChunkOf, S.Emitted, Interval;
    InTurn(data, k);
    Holds(r, id, file, now);
    StoreGenuine(now, id, data, k);
    Overlay(r.incoming, id, file, file.(chunks := file.chunks[k := S.ChunkOf(data, k)]));
  }

  lemma Overlay(incoming: map<nat, R.Incoming>, id: nat, file: R.Incoming, more: R.Incoming)
    ensures incoming[id := file][id := more] == incoming[id := more]
    ensures incoming[id := file] - {id} == incoming - {id}
  {
  }

  lemma InTurn(data: Data, k: nat)
    requires k < S.Total(data)
    ensures k < S.Emitted(data) && data != []
    ensures Interval(0, k) + {k} == Interval(0, k + 1)
    ensures Interval(0, k + 1) == Interval(0, S.Total(data)) <==> k + 1 == S.Total(data)
  {
    if k + 1 < S.Total(data) {
      assert k + 1 !in Interval(0, k + 1) && k + 1 in Interval(0, S.Total(data));
    }
  }

  /** From number `from` on the packets are the chunks of the file, in order. */
  ghost predicate Holding(log: seq<S.Sent>, from: nat, key: Key, id: nat, data: Data, iv: nat) {
    && from + S.Total(data) <= |log|
    && forall i :: 0 <= i < S.Total(data) ==> log[from + i] == S.ChunkFor(id, data, i, iv, key, false)
  }

  lemma HeldAt(log: seq<S.Sent>, from: nat, key: Key, id: nat, data: Data, iv: nat, i: nat)
    requires Holding(log, from, key, id, data, iv) && i < S.Total(data)
    ensures from + i < |log| && log[from + i] == S.ChunkFor(id, data, i, iv, key, false)
  {
  }

  /** After `k` chunks, not yet all: they are collected, and nothing else has changed. */
  lemma {:induction false} ArrivalsCollect(c: Cipher, key: Key, s: System, id: nat, data: Data, iv: nat, from: nat,
                                           k: nat, r: R.State, name: Data) returns (file: R.Incoming)
    requires Lawful(c) && id < 0x1_0000_0000 && k < S.Total(data) < 0x1_0000_0000_0000 && !r.stopped
    requires Collected(r, id, R.Incoming(S.Total(data), name, map[]), s.receiver)
    requires Holding(s.sender.log, from, key, id, data, iv)
    ensures var t := Arrivals(c, key, s, from, k);
            t.sender == s.sender && t.files == s.files && Collected(r, id, file, t.receiver)
    ensures file.name == name && CollectsFrom(data, file) && file.chunks.Keys == Interval(0, k)
  {
    hide Step, Collected, CollectsFrom, S.Total, S.ChunkOf, Lawful, Holding, Interval;
    if k == 0 {
      file := R.Incoming(S.Total(data), name, map[]);
      FreshCollects(data, name);
      NothingBelow();
    } else {
      HeldAt(s.sender.log, from, key, id, data, iv, k - 1);
      var before := ArrivalsCollect(c, key, s, id, data, iv, from, k - 1, r, name);
      NextChunk(c, key, Arrivals(c, key, s, from, k - 1), id, data, iv, from + k - 1, k - 1, r, before);
      file := before.(chunks := before.chunks[k - 1 := S.ChunkOf(data, k - 1)]);
    }
  }

  lemma NothingBelow()
    ensures Interval(0, 0) == {}
  {
  }

  /** After all of them the file is written. */
  lemma {:induction false} ArrivalsWrite(c: Cipher, key: Key, s: System, id: nat, data: Data, iv: nat, from: nat,
                                         r: R.State, name: Data)
    requires Lawful(c) && id < 0x1_0000_0000 && data != [] && S.Total(data) < 0x1_0000_0000_0000 && !r.stopped
    requires Collected(r, id, R.Incoming(S.Total(data), name, map[]), s.receiver)
    requires Holding(s.sender.log, from, key, id, data, iv)
    ensures var t := Arrivals(c, key, s, from, S.Total(data));
            && t.sender == s.sender && t.files == s.files
            && t.receiver == r.(incoming := r.incoming - {id}, dir := r.dir[name := data],
                                writes := r.writes + [R.Write(id, name, data, false)])
  {
    hide Step, Collected, CollectsFrom, S.Total, S.ChunkOf, Lawful, Holding, Interval;
    S.ChunksMakeTheData(data);
    var last := S.Total(data) - 1;
    HeldAt(s.sender.log, from, key, id, data, iv, last);
    var file := ArrivalsCollect(c, key, s, id, data, iv, from, last, r, name);
    NextChunk(c, key, Arrivals(c, key, s, from, last), id, data, iv, from + last, last, r, file);
  }

  /** The file is started, the timer beats as often as there are chunks, and all of it is delivered. */
  function Undisturbed(c: Cipher, key: Key, s: System, id: nat, data: Data, name: Data, iv: nat): System {
    var first := |s.sender.log|;
    var sent := Beats(c, key, Step(c, key, s, StartFile(id, data, name)), iv, S.Total(data));
    Arrivals(c, key, Step(c, key, sent, Deliver(first)), first + 1, S.Total(data))
  }

  lemma {:induction false} StartedAndSent(c: Cipher, key: Key, s: System, id: nat, data: Data, name: Data, iv: nat)
    requires !s.sender.stopped && s.sender.armed == None && s.sender.due == []
    requires id !in s.files && id < 0x1_0000_0000 && data != [] && S.Total(data) < 0x1_0000_0000_0000
    ensures Beats(c, key, Step(c, key, s, StartFile(id, data, name)), iv, S.Total(data)) ==
            s.(sender := s.sender.(log := s.sender.log + [S.HeaderFor(id, data, name)]
                                          + ChunksUpTo(key, id, data, iv, S.Total(data))),
               files := s.files[id := File(data, name)])
  {
    hide S.Total, Beats;
    BeatsSend(c, key, Step(c, key, s, StartFile(id, data, name)), id, data, iv, S.Total(data));
  }

  predicate AtRest(s: System) {
    !s.sender.stopped && s.sender.armed == None && s.sender.due == [] && !s.receiver.stopped
  }

  lemma {:induction false} FileArrives(c: Cipher, key: Key, s: System, id: nat, data: Data, name: Data, iv: nat)
    returns (stored: Data)
    requires Lawful(c) && AtRest(s) && id !in s.files
    requires id < 0x1_0000_0000 && data != [] && S.Total(data) < 0x1_0000_0000_0000
    ensures var t := Undisturbed(c, key, s, id, data, name, iv);
            && t.receiver == s.receiver.(incoming := s.receiver.incoming - {id}, dir := s.receiver.dir[stored := data],
                                         writes := s.receiver.writes + [R.Write(id, stored, data, false)])
            && !t.sender.stopped && t.sender.armed == None && t.sender.due == []
    ensures !FileNames.Exists(stored, s.receiver.dir.Keys)
    ensures FileNames.Valid(name) && 0 !in name && |name| <= 487 && !FileNames.Exists(name, s.receiver.dir.Keys) ==>
              stored == name
  {
    hide S.Total, Step, Lawful, Beats, Arrivals, Collected, ChunksUpTo, Holding, FileNames.Valid, FileNames.Exists;
    StartedAndSent(c, key, s, id, data, name, iv);
    var first := |s.sender.log|;
    var log := s.sender.log + [S.HeaderFor(id, data, name)];
    var sent := Beats(c, key, Step(c, key, s, StartFile(id, data, name)), iv, S.Total(data));
    assert sent.sender.log[first] == log[first];
    stored := HeaderArrives(c, key, sent, id, data, name, first);
    ChunksAt(key, id, data, iv, log);
    ArrivalsWrite(c, key, Step(c, key, sent, Deliver(first)), id, data, iv, first + 1, s.receiver, stored);
  }

  /** After any run that leaves both sides running and the timer idle: start a non-empty file under a new number,
      let nothing disturb it, and the receiver ends with exactly this file more, written once, with its bytes,
      under a name that was free: the given name, if that can be kept. Both are at rest again. */
  lemma {:induction false} WholeFileArrives(c: Cipher, key: Key, events: seq<Event>, id: nat, data: Data, name: Data,
                                            iv: nat) returns (stored: Data)
    requires Lawful(c) && AtRest(Run(c, key, events)) && id !in Run(c, key, events).files
    requires id < 0x1_0000_0000 && data != [] && S.Total(data) < 0x1_0000_0000_0000
    ensures var s := Run(c, key, events);
            var t := Undisturbed(c, key, s, id, data, name, iv);
            && t.receiver == s.receiver.(dir := s.receiver.dir[stored := data],
                                         writes := s.receiver.writes + [R.Write(id, stored, data, false)])
            && AtRest(t)
            && !FileNames.Exists(stored, s.receiver.dir.Keys)
            && (FileNames.Valid(name) && 0 !in name && |name| <= 487 && !FileNames.Exists(name, s.receiver.dir.Keys) ==>
                  stored == name)
  {
    hide Undisturbed, Lawful, Run, FileNames.Valid, FileNames.Exists;
    NotYetIncoming(c, key, events, id);
    var r := Run(c, key, events).receiver;
    assert r.incoming - {id} == r.incoming;
    stored := FileArrives(c, key, Run(c, key, events), id, data, name, iv);
  }

  lemma ChunksAt(key: Key, id: nat, data: Data, iv: nat, log: seq<S.Sent>)
    ensures var all := log + ChunksUpTo(key, id, data, iv, S.Total(data));
            |all| == |log| + S.Total(data) && Holding(all, |log|, key, id, data, iv)
  {
    hide S.Total;
  }

  lemma HeaderArrives(c: Cipher, key: Key, s: System, id: nat, data: Data, name: Data, at: nat) returns (stored: Data)
    requires id < 0x1_0000_0000 && S.Total(data) < 0x1_0000_0000_0000 && !s.receiver.stopped
    requires at < |s.sender.log| && s.sender.log[at] == S.HeaderFor(id, data, name)
    ensures var t := Step(c, key, s, Deliver(at));
            && t.sender == s.sender && t.files == s.files
            && Collected(s.receiver, id, R.Incoming(S.Total(data), stored, map[]), t.receiver)
    ensures !FileNames.Exists(stored, s.receiver.dir.Keys)
    ensures FileNames.Valid(name) && 0 !in name && |name| <= 487 && !FileNames.Exists(name, s.receiver.dir.Keys) ==>
              stored == name
  {
    hide S.Total, R.Handle, S.Wire, FileNames.Valid, FileNames.Exists;
    HeaderOnWire(c, key, s.receiver, id, data, name);
    stored := R.Handle(c, Some(key), s.receiver, S.Wire(c, S.HeaderFor(id, data, name))).incoming[id].name;
  }

  /** A message number not used yet is not being collected. */
  lemma NotYetIncoming(c: Cipher, key: Key, events: seq<Event>, id: nat)
    requires Lawful(c) && id !in Run(c, key, events).files
    ensures id !in Run(c, key, events).receiver.incoming
  {
    hide R.Handle, S.Wire, Lawful, Run;
    RunInvariant(c, key, events);
    var s := Run(c, key, events);
    DeliveriesKeepReceiver(c, key, s.files, R.START, s.delivered);
  }

  /** A text of 1 to 463 bytes that is sent with the key at hand and delivered is saved, while both sides run. */
  lemma {:induction false} TextArrives(c: Cipher, key: Key, s: System, id: nat, msg: Data, iv: nat)
    requires Lawful(c) && !s.sender.stopped && !s.receiver.stopped && 1 <= |msg| <= 463
    ensures var t := Step(c, key, Step(c, key, s, Text(id, msg, iv, true)), Deliver(|s.sender.log|));
            t.receiver == s.receiver.(saved := s.receiver.saved + [msg])
  {
    hide R.Handle, S.Wire, Lawful;
    TextOnWireSaved(c, key, s.receiver, S.TextFor(id, msg, iv, Some(key)));
  }
}
