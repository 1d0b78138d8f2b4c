/** The receiving half of `udp_server`: text packets are saved, file packets are collected chunk by chunk in one
    map per message number, and a file is written when its map has as many chunks as announced. Organisational
    packets bring the other user's name, or take part in the exchange of keys. */
module Receiver {
  import opened Basics
  import opened Bytes
  import opened Crypto
  import opened Packet
  import Crc32
  import FileNames
  import K = KeyExchange

  const ORGANISATION: byte := 79
  const NAME: byte := 78
  const LONGEST_USERNAME := 64

  datatype Incoming = Incoming(total: nat, name: Data, chunks: map<nat, Data>)

  /** One file written to the directory; `broken` when a chunk was found missing on the way. */
  datatype Write = Write(messageId: nat, name: Data, data: Data, broken: bool)

  /** `writes` and `saved` record every file and text message stored so far, in order. */
  datatype State = State(incoming: map<nat, Incoming>, dir: map<Data, Data>, writes: seq<Write>, saved: seq<Data>,
                         username: Data, stopped: bool)

  const START := State(map[], map[], [], [], [], false)

  // ---- One datagram, as a function of the state

  /** The chunks from `i` on in order, up to the first that is missing. */
  function Assemble(chunks: map<nat, Data>, i: nat, total: nat): (Data, bool)
    decreases total - i
  {
    if i >= total then ([], false)
    else if i !in chunks then ([], true)
    else
      var (rest, broken) := Assemble(chunks, i + 1, total);
      (chunks[i] + rest, broken)
  }

  /** The chunks from `i` up to but not including `k`, one after the other. */
  function Together(chunks: map<nat, Data>, i: nat, k: nat): Data
    requires i <= k && forall j :: i <= j < k ==> j in chunks
    decreases k - i
  {
    if i == k then [] else chunks[i] + Together(chunks, i + 1, k)
  }

  /** The file is put together up to the first missing chunk, and is broken if there is one. */
  lemma {:induction false} AssembledUpTo(chunks: map<nat, Data>, i: nat, k: nat, total: nat)
    requires i <= k <= total && (forall j :: i <= j < k ==> j in chunks) && (k < total ==> k !in chunks)
    ensures Assemble(chunks, i, total) == (Together(chunks, i, k), k < total)
    decreases k - i
  {
    if i < k {
      AssembledUpTo(chunks, i + 1, k, total);
    }
  }

  function Prefixed(data: Data, chunks: map<nat, Data>, i: nat, total: nat): (Data, bool) {
    var (rest, broken) := Assemble(chunks, i, total);
    (data + rest, broken)
  }

  lemma Prepend(data: Data, chunks: map<nat, Data>, i: nat, total: nat)
    ensures Prefixed([], chunks, i, total) == Assemble(chunks, i, total)
    ensures i < total && i in chunks ==>
              Prefixed(data, chunks, i, total) == Prefixed(data + chunks[i], chunks, i + 1, total)
  {
    var (rest, broken) := Assemble(chunks, i, total);
    assert [] + rest == rest;
    if i < total && i in chunks {
      var (more, _) := Assemble(chunks, i + 1, total);
      assert data + (chunks[i] + more) == data + chunks[i] + more;
    }
  }

  function Announce(s: State, id: nat, payload: Data): State
    requires |payload| == PAYLOAD
  {
    var name := FileNames.ChosenName(payload[7..], id, s.dir.Keys);
    s.(incoming := s.incoming[id := Incoming(FromBE(payload[0..6]), name, map[])])
  }

  function Store(s: State, id: nat, index: nat, chunk: Data): State
    requires id in s.incoming
  {
    var file := s.incoming[id];
    var chunks := file.chunks[index := chunk];
    if |chunks| == file.total then
      var (data, broken) := Assemble(chunks, 0, file.total);
      s.(incoming := s.incoming - {id},
         dir := s.dir[file.name := data],
         writes := s.writes + [Write(id, file.name, data, broken)])
    else s.(incoming := s.incoming[id := file.(chunks := chunks)])
  }

  function Collect(c: Cipher, key: Option<Key>, s: State, p: Packet): State
    requires |p.payload| == PAYLOAD
  {
    if p.messageId !in s.incoming then s
    else match Opened(c, key, p.payload)
      case None => s
      case Some(chunk) => Store(s, p.messageId, p.packetId, chunk)
  }

  /** The bytes before the first line break. */
  function FirstLine(s: Data): (r: Data)
    ensures r <= s && 10 !in r && 13 !in r && (|r| < |s| ==> s[|r|] == 10 || s[|r|] == 13)
  {
    if s == [] || s[0] == 10 || s[0] == 13 then [] else [s[0]] + FirstLine(s[1..])
  }

  lemma {:induction false} FirstLineIs(s: Data, n: nat)
    requires n <= |s| && 10 !in s[..n] && 13 !in s[..n] && (n < |s| ==> s[n] == 10 || s[n] == 13)
    ensures FirstLine(s) == s[..n]
    decreases |s|
  {
    if n > 0 {
      assert s[..n][0] == s[0];
      assert s[1..][..n - 1] == s[..n][1..];
      FirstLineIs(s[1..], n - 1);
    }
  }

  /** A name that differs is taken over, cut to 64 bytes and to its first line, unless nothing is left of it. */
  function Renamed(username: Data, payload: Data): Data
    requires |payload| == PAYLOAD
  {
    var full := FileNames.CString(payload[1..]);
    var line := FirstLine(full[..Min(|full|, LONGEST_USERNAME)]);
    if full == username || line == [] then username else line
  }

  /** A name that differs from the stored one is taken over: its first 64 bytes, up to a line break. The packet
      holds it behind its first byte and in front of a zero. */
  lemma NameIsTaken(username: Data, payload: Data, name: Data, n: nat)
    requires |payload| == PAYLOAD && |name| < 494 && 0 !in name && payload[1..1 + |name|] == name && payload[1 + |name|] == 0
    requires n <= |name| && n <= 64 && 10 !in name[..n] && 13 !in name[..n]
    requires n == |name| || n == 64 || name[n] == 10 || name[n] == 13
    ensures Renamed(username, payload) == if name == username || n == 0 then username else name[..n]
  {
    var s := payload[1..];
    assert s[..|name|] == name && s[|name|] == 0;
    FileNames.CStringIs(s, |name|);
    var cut := name[..Min(|name|, 64)];
    assert cut[..n] == name[..n];
    FirstLineIs(cut, n);
    assert name[..0] == [];
  }

  /** The name is always one line of 1 to 64 bytes, or what it was. */
  lemma RenamedIsOneLine(username: Data, payload: Data)
    requires |payload| == PAYLOAD
    ensures var r := Renamed(username, payload);
            r == username || (1 <= |r| <= LONGEST_USERNAME && 0 !in r && 10 !in r && 13 !in r && r <= payload[1..])
  {
    var full := FileNames.CString(payload[1..]);
    assert forall b :: b in full[..Min(|full|, LONGEST_USERNAME)] ==> b in full;
  }

  function HandlePacket(c: Cipher, key: Option<Key>, s: State, p: Packet): State
    requires |p.payload| == PAYLOAD
  {
    if p.kind == TEXT then
      match SavedText(c, key, p)
      case None => s
      case Some(msg) => s.(saved := s.saved + [msg])
    else if p.kind == FILE then
      if p.quantity == 1 then Announce(s, p.messageId, p.payload)
      else if p.quantity == 2 || p.quantity == 0 then Collect(c, key, s, p)
      else s
    else if p.kind == ORGANISATION && p.payload[0] == NAME then s.(username := Renamed(s.username, p.payload))
    else s
  }

  function Handle(c: Cipher, key: Option<Key>, s: State, d: Data): State
    requires |d| == SIZE
  {
    if s.stopped then s
    else match Deframe(d)
      case None => s
      case Some(p) => HandlePacket(c, key, s, p)
  }

  /** Under an agreed key a text of 1 to 463 bytes is saved, whole and as the last of all; any other text is not.
      Nothing else changes. */
  lemma TextIsSaved(c: Cipher, key: Key, s: State, msg: Data, messageId: nat, iv: nat)
    requires Lawful(c) && !s.stopped
    ensures Handle(c, Some(key), s, Frame(TextPacket(c, Some(key), msg, messageId, iv))) ==
            s.(saved := if 1 <= |msg| <= 463 then s.saved + [msg] else s.saved)
  {
    TextDelivery(c, key, msg, messageId, iv);
    var p := TextPacket(c, Some(key), msg, messageId, iv);
    FrameRoundTrip(p);
    hide Frame, Deframe, SavedText, TextPacket;
    assert p.kind == TEXT by {
      TextKind(c, key, msg, messageId, iv);
    }
  }

  lemma TextKind(c: Cipher, key: Key, msg: Data, messageId: nat, iv: nat)
    ensures TextPacket(c, Some(key), msg, messageId, iv).kind == TEXT
  {
  }

  lemma NothingOpened(c: Cipher, payload: Data)
    requires |payload| == PAYLOAD
    ensures Opened(c, None, payload) == None
  {
  }

  lemma FilePacketsOnly(c: Cipher, key: Option<Key>, s: State, p: Packet)
    requires |p.payload| == PAYLOAD && p.kind == FILE
    ensures var t := HandlePacket(c, key, s, p);
            && t == s.(incoming := t.incoming, dir := t.dir, writes := t.writes)
            && (p.quantity !in {0, 1, 2} ==> t == s)
            && (key.None? ==> t.writes == s.writes && t.dir == s.dir)
  {
    NothingOpened(c, p.payload);
    hide Opened, Assemble, FileNames.ChosenName;
  }

  lemma TextPacketsOnly(c: Cipher, key: Option<Key>, s: State, p: Packet)
    requires |p.payload| == PAYLOAD && p.kind == TEXT
    ensures var t := HandlePacket(c, key, s, p);
            && t == s.(saved := t.saved) && s.saved <= t.saved && |t.saved| <= |s.saved| + 1
            && (key.None? ==> t == s)
  {
    NothingOpened(c, p.payload);
    hide Opened;
  }

  /** Every datagram changes only what its type is about: a text the saved texts, by at most one at the end; a file
      packet the transfers and the files; a name the name. Without the key at hand no text and no chunk is read. */
  lemma OnlyItsOwn(c: Cipher, key: Option<Key>, s: State, d: Data)
    requires |d| == SIZE
    ensures var t := Handle(c, key, s, d);
            && t.stopped == s.stopped
            && (d[1] == 84 ==> t == s.(saved := t.saved) && s.saved <= t.saved && |t.saved| <= |s.saved| + 1)
            && (d[1] == 70 ==> t == s.(incoming := t.incoming, dir := t.dir, writes := t.writes))
            && (d[1] == 79 ==> t == s.(username := t.username))
            && (d[1] !in {84, 70, 79} || d[0] != 70 || (d[1] == 70 && d[2] !in {0, 1, 2}) ==> t == s)
            && (key.None? ==> t.saved == s.saved && t.writes == s.writes && t.dir == s.dir)
  {
    if !s.stopped && Deframe(d).Some? {
      var p := Deframe(d).value;
      assert p.kind == d[1] && p.quantity == d[2] && |p.payload| == PAYLOAD && d[0] == 70;
      hide Deframe, SavedText, Announce, Collect, Renamed;
      if p.kind == FILE {
        FilePacketsOnly(c, key, s, p);
      } else if p.kind == TEXT {
        TextPacketsOnly(c, key, s, p);
      }
    }
  }

  /** An accepted packet of type 'O' whose payload starts with 'N' renames; one that starts otherwise does not. */
  lemma NamesAreRead(c: Cipher, key: Option<Key>, s: State, d: Data)
    requires |d| == SIZE && Deframe(d).Some? && d[1] == 79 && !s.stopped
    ensures Handle(c, key, s, d) == if d[13] == 78 then s.(username := Renamed(s.username, d[13..508])) else s
  {
    var p := Deframe(d).value;
    assert p.kind == d[1] && p.payload == d[13..508];
    hide Deframe, Renamed;
  }

  /** What the datagram does to the shared key, and the packets sent back; `made` and `r` are random choices. */
  function HandleKeys(w: K.Wrap, peer: K.Peer, stopped: bool, d: Data, made: Key, r: nat): (K.Peer, seq<Data>)
    requires |d| == SIZE
  {
    if stopped then (peer, [])
    else match Deframe(d)
      case None => (peer, [])
      case Some(p) => if p.kind == ORGANISATION then K.Receive(w, peer, p.payload, made, r) else (peer, [])
  }

  /** A packet whose payload was changed anywhere inside four consecutive bytes leaves no trace. */
  lemma {:induction false} CorruptedIsIgnored(c: Cipher, key: Option<Key>, s: State, p: Packet, d: Data, k: nat)
    requires |p.payload| == PAYLOAD && |d| == SIZE && 13 <= k && k + 4 <= 508
    requires d[..k] == Frame(p)[..k] && d[k + 4..] == Frame(p)[k + 4..] && d != Frame(p)
    ensures Handle(c, key, s, d) == s
    ensures forall w: K.Wrap, peer: K.Peer, made: Key, r: nat ::
              HandleKeys(w, peer, s.stopped, d, made, r) == (peer, [])
  {
    hide Frame, Deframe, HandlePacket;
    BurstIsRejected(p, d, k);
  }

  // ---- The object of the client

  class UdpReceiver {
    const cipher: Cipher
    const keys: K.KeyHolder
    const recvBuffer: array<byte>
    var incomingFiles: map<nat, Incoming>
    var received: map<Data, Data>
    var writes: seq<Write>
    var saved: seq<Data>
    var username: Data
    var stopped: bool
    var listening: bool

    function Value(): State
      reads this
    {
      State(incomingFiles, received, writes, saved, username, stopped)
    }

    /** Only the first 64 bytes of the buffer are cleared at the start; `garbage` is what the rest holds. */
    constructor (cipher: Cipher, keys: K.KeyHolder, name: Data, garbage: Data)
      requires |garbage| == SIZE - 64
      ensures this.cipher == cipher && this.keys == keys && listening
      ensures Value() == START.(username := name) && fresh(recvBuffer) && recvBuffer.Length == SIZE
      ensures recvBuffer[64..] == garbage && forall i :: 0 <= i < 64 ==> recvBuffer[i] == 0
    {
      this.cipher, this.keys, username, listening := cipher, keys, name, true;
      recvBuffer := new byte[SIZE](i => if 64 <= i < SIZE then garbage[i - 64] else 0);
      incomingFiles, received, writes, saved, stopped := map[], map[], [], [], false;
    }

    method IsEmpty() returns (empty: bool)
      ensures empty <==> Blank(recvBuffer[..])
    {
      empty := true;
      for m := 0 to recvBuffer.Length
        invariant empty <==> forall i :: 0 <= i < m ==> recvBuffer[i] == 0 || recvBuffer[i] == 32
      {
        if recvBuffer[m] != 0 && recvBuffer[m] != 32 {
          empty := false;
        }
      }
    }

    method ActualData() returns (data: Data)
      requires recvBuffer.Length == SIZE
      ensures data == recvBuffer[13..508]
    {
      data := [];
      for i := 13 to 508
        invariant data == recvBuffer[13..i]
      {
        data := data + [recvBuffer[i]];
      }
    }

    method ClearBuffer()
      modifies recvBuffer
      ensures forall i :: 0 <= i < recvBuffer.Length ==> recvBuffer[i] == 0
    {
      for i := 0 to recvBuffer.Length
        invariant forall j :: 0 <= j < i ==> recvBuffer[j] == 0
      {
        recvBuffer[i] := 0;
      }
    }

    method Join(file: Incoming) returns (data: Data, broken: bool)
      ensures (data, broken) == Assemble(file.chunks, 0, file.total)
    {
      data, broken := [], false;
      var i := 0;
      Prepend(data, file.chunks, i, file.total);
      while i < file.total
        invariant 0 <= i <= file.total && !broken
        invariant Assemble(file.chunks, 0, file.total) == Prefixed(data, file.chunks, i, file.total)
      {
        Prepend(data, file.chunks, i, file.total);
        if i !in file.chunks {
          broken := true;
          break;
        }
        data := data + file.chunks[i];
        i := i + 1;
      }
      assert data + [] == data;
    }

    method HandleText(p: Packet)
      requires |p.payload| == PAYLOAD && p.kind == TEXT
      modifies this`saved
      ensures Value() == HandlePacket(cipher, keys.stored, old(Value()), p)
    {
      var msg := SavedText(cipher, keys.stored, p);
      if msg.Some? {
        saved := saved + [msg.value];
      }
    }

    method HandleHeader(p: Packet)
      requires |p.payload| == PAYLOAD && p.kind == FILE && p.quantity == 1
      modifies this`incomingFiles
      ensures Value() == HandlePacket(cipher, keys.stored, old(Value()), p)
    {
      var name := FileNames.ChooseName(p.payload[7..], p.messageId, received.Keys);
      incomingFiles := incomingFiles[p.messageId := Incoming(FromBE(p.payload[0..6]), name, map[])];
    }

    method HandleChunk(p: Packet)
      requires |p.payload| == PAYLOAD && p.kind == FILE && p.quantity in {0, 2}
      modifies this`incomingFiles, this`received, this`writes
      ensures Value() == HandlePacket(cipher, keys.stored, old(Value()), p)
    {
      hide Opened, Assemble, Announce, SavedText;
      var id := p.messageId;
      if id !in incomingFiles {
        return;
      }
      var chunk := Opened(cipher, keys.stored, p.payload);
      if chunk.None? {
        return;
      }
      var file := incomingFiles[id];
      file := file.(chunks := file.chunks[p.packetId := chunk.value]);
      if |file.chunks| == file.total {
        var data, broken := Join(file);
        received := received[file.name := data];
        writes := writes + [Write(id, file.name, data, broken)];
        incomingFiles := incomingFiles - {id};
      } else {
        incomingFiles := incomingFiles[id := file];
      }
    }

    method ReadLine(s: Data) returns (line: Data)
      ensures line == FirstLine(s)
    {
      line := [];
      var i := 0;
      while i < |s| && s[i] != 10 && s[i] != 13
        invariant i <= |s| && line == s[..i] && 10 !in line && 13 !in line
      {
        assert s[..i + 1] == s[..i] + [s[i]];
        line := line + [s[i]];
        i := i + 1;
      }
      FirstLineIs(s, i);
    }

    /** The three organisational packets: a name, an offer of a public key, an answer with a shared one. */
    method HandleOrganisation(p: Packet, made: Key, r: nat)
      requires |p.payload| == PAYLOAD && p.kind == ORGANISATION
      modifies this`username, keys
      ensures Value() == HandlePacket(cipher, old(keys.stored), old(Value()), p)
      ensures (keys.Value(), keys.sent) ==
              var (q, out) := K.Receive(keys.w, old(keys.Value()), p.payload, made, r); (q, old(keys.sent) + out)
    {
      if p.payload[0] == NAME {
        var full := FileNames.ReadName(p.payload[1..]);
        if full != username && full != [] {
          var line := ReadLine(full[..Min(|full|, LONGEST_USERNAME)]);
          if line != [] {
            username := line;
          }
        }
        NamesAreNoKeys(keys.w, keys.Value(), p.payload, made, r);
        assert keys.sent + [] == keys.sent;
      } else {
        keys.HandleNote(p.payload, made, r);
      }
    }

    /** The network puts a datagram into the front of the buffer; behind a shorter one the old bytes stay. */
    method Arrive(d: Data)
      requires recvBuffer.Length == SIZE && |d| <= SIZE
      modifies recvBuffer
      ensures recvBuffer[..] == d + old(recvBuffer[|d|..])
    {
      for i := 0 to |d|
        invariant recvBuffer[..i] == d[..i]
        invariant recvBuffer[|d|..] == old(recvBuffer[|d|..])
      {
        recvBuffer[i] := d[i];
        assert recvBuffer[..i + 1] == recvBuffer[..i] + [d[i]];
      }
      assert recvBuffer[..] == recvBuffer[..|d|] + recvBuffer[|d|..];
    }

    /** A receive completes: with a datagram of at most 512 bytes, or with an error, as for a longer one. A shorter
        datagram is handled together with the bytes behind it, which are zero after any earlier datagram. */
    method Receive(ok: bool, d: Data, made: Key, r: nat)
      requires recvBuffer.Length == SIZE && |d| <= SIZE
      modifies this, recvBuffer, keys
      ensures listening <==> ok && !old(stopped)
      ensures Value() == if ok then Handle(cipher, old(keys.stored), old(Value()), d + old(recvBuffer[|d|..])) else old(Value())
      ensures (keys.Value(), keys.sent) ==
              if !ok then (old(keys.Value()), old(keys.sent))
              else var (q, out) := HandleKeys(keys.w, old(keys.Value()), old(stopped), d + old(recvBuffer[|d|..]), made, r);
                   (q, old(keys.sent) + out)
      ensures listening ==> forall i :: 0 <= i < SIZE ==> recvBuffer[i] == 0
      ensures (forall i :: |d| <= i < SIZE ==> old(recvBuffer[i]) == 0) && ok ==>
                Value() == Handle(cipher, old(keys.stored), old(Value()), d + seq(SIZE - |d|, _ => 0))
    {
      hide Handle, HandleKeys;
      ghost var behind := recvBuffer[|d|..];
      Arrive(d);
      HandleReceive(ok, made, r);
      assert (forall i :: |d| <= i < SIZE ==> old(recvBuffer[i]) == 0) ==> behind == seq(SIZE - |d|, _ => 0);
    }

    /** `handle_receive` on whatever the buffer holds. Unless it was stopped or failed, it zeroes the whole buffer
        and listens again, on every path. */
    method HandleReceive(ok: bool, made: Key, r: nat)
      requires recvBuffer.Length == SIZE
      modifies this, recvBuffer, keys
      ensures listening <==> ok && !old(stopped)
      ensures Value() == if ok then Handle(cipher, old(keys.stored), old(Value()), old(recvBuffer[..])) else old(Value())
      ensures (keys.Value(), keys.sent) ==
              if !ok then (old(keys.Value()), old(keys.sent))
              else var (q, out) := HandleKeys(keys.w, old(keys.Value()), old(stopped), old(recvBuffer[..]), made, r);
                   (q, old(keys.sent) + out)
      ensures listening ==> forall i :: 0 <= i < SIZE ==> recvBuffer[i] == 0
    {
      listening := false;
      assert keys.sent + [] == keys.sent;
      if stopped || !ok {
        return;
      }
      var empty := IsEmpty();
      var data := ActualData();
      var checksum := Crc32.Checksum(data);
      hide Crc32.Crc, HandlePacket, FromBE, Blank, K.Receive;
      if !empty && recvBuffer[0] == MARK && checksum == FromBE(recvBuffer[508..512]) {
        var p := Packet(recvBuffer[1], recvBuffer[2], FromBE(recvBuffer[3..7]), FromBE(recvBuffer[7..13]), data);
        assert Deframe(recvBuffer[..]) == Some(p);
        HandleAccepted(p, made, r);
      }
      ClearBuffer();
      listening := true;
    }

    /** The branches on the type of an accepted packet. */
    method HandleAccepted(p: Packet, made: Key, r: nat)
      requires |p.payload| == PAYLOAD
      modifies this`incomingFiles, this`received, this`writes, this`saved, this`username, keys
      ensures Value() == HandlePacket(cipher, old(keys.stored), old(Value()), p)
      ensures (keys.Value(), keys.sent) ==
              if p.kind != ORGANISATION then (old(keys.Value()), old(keys.sent))
              else var (q, out) := K.Receive(keys.w, old(keys.Value()), p.payload, made, r); (q, old(keys.sent) + out)
    {
      if p.kind == TEXT {
        HandleText(p);
      } else if p.kind == ORGANISATION {
        HandleOrganisation(p, made, r);
      } else if p.kind == FILE {
        if p.quantity == 1 {
          HandleHeader(p);
        } else if p.quantity == 2 || p.quantity == 0 {
          HandleChunk(p);
        }
      }
    }
  }

  lemma NamesAreNoKeys(w: K.Wrap, peer: K.Peer, payload: Data, made: Key, r: nat)
    requires |payload| == PAYLOAD && payload[0] == NAME
    ensures K.Receive(w, peer, payload, made, r) == (peer, [])
  {
  }
}
