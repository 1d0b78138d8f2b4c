/** The 512-byte UDP packet: `udp_packet` writes it, the head of `handle_receive` takes it apart. */
module Packet {
  import opened Bytes
  import opened Crypto
  import Crc32

  const PAYLOAD := 495
  const SIZE := 512

  const MARK: byte := 70   // 'F', the first byte of every packet
  const TEXT: byte := 84   // 'T'
  const FILE: byte := 70   // 'F'

  datatype Packet = Packet(kind: byte, quantity: byte, messageId: nat, packetId: nat, payload: Data)

  /** The bytes on the wire. Only the low 32 and 48 bits of the two numbers travel. */
  function Frame(p: Packet): (d: Data)
    requires |p.payload| == PAYLOAD
    ensures |d| == SIZE
  {
    [MARK, p.kind, p.quantity] + ToBE(p.messageId, 4) + ToBE(p.packetId, 6) + p.payload + ToBE(Crc32.Crc(p.payload), 4)
  }

  predicate Blank(d: Data) {
    forall i :: 0 <= i < |d| ==> d[i] == 0 || d[i] == 32
  }

  /** What the receiver takes from a datagram, if it accepts it at all. */
  function Deframe(d: Data): Option<Packet>
    requires |d| == SIZE
  {
    var payload := d[13..508];
    if !Blank(d) && d[0] == MARK && Crc32.Crc(payload) == FromBE(d[508..512])
    then Some(Packet(d[1], d[2], FromBE(d[3..7]), FromBE(d[7..13]), payload))
    else None
  }

  lemma FrameParts(p: Packet)
    requires |p.payload| == PAYLOAD
    ensures var d := Frame(p);
            && d[0] == MARK && d[1] == p.kind && d[2] == p.quantity
            && d[3..7] == ToBE(p.messageId, 4) && d[7..13] == ToBE(p.packetId, 6)
            && d[13..508] == p.payload && d[508..512] == ToBE(Crc32.Crc(p.payload), 4)
  {
    hide ToBE, Crc32.Crc;
    FiveParts([MARK, p.kind, p.quantity], ToBE(p.messageId, 4), ToBE(p.packetId, 6), p.payload, ToBE(Crc32.Crc(p.payload), 4));
  }

  lemma FiveParts(a: Data, b: Data, c: Data, e: Data, f: Data)
    requires |a| == 3 && |b| == 4 && |c| == 6 && |e| == 495 && |f| == 4
    ensures var d := a + b + c + e + f;
            d[..3] == a && d[3..7] == b && d[7..13] == c && d[13..508] == e && d[508..512] == f
            && d[0] == a[0] && d[1] == a[1] && d[2] == a[2]
  {
  }

  /** Receiving a framed packet gives its fields back, the numbers reduced to the width they travel in. */
  lemma FrameRoundTrip(p: Packet)
    requires |p.payload| == PAYLOAD
    ensures Deframe(Frame(p)) ==
            Some(p.(messageId := p.messageId % 0x1_0000_0000, packetId := p.packetId % 0x1_0000_0000_0000))
  {
    hide Crc32.Crc, Frame;
    FrameParts(p);
    Widths();
    FromToBE(p.messageId, 4);
    FromToBE(p.packetId, 6);
    FromToBE(Crc32.Crc(p.payload), 4);
    Crc32.CrcRange(p.payload);
  }

  /** What a datagram says, byte by byte: the mark 'F', the type, the quantity, the two numbers, the checksum. */
  ghost predicate Says(d: Data, kind: byte, quantity: byte, messageId: nat, packetId: nat) {
    && |d| == 512 && d[0] == 70 && d[1] == kind && d[2] == quantity
    && FromBE(d[3..7]) == messageId % 0x1_0000_0000 && FromBE(d[7..13]) == packetId % 0x1_0000_0000_0000
    && FromBE(d[508..512]) == Crc32.Crc(d[13..508])
  }

  /** The payload of a datagram: `content` as far as it fits, then zeros. */
  ghost predicate Carries(d: Data, content: Data) {
    |d| == 512 && forall i :: 0 <= i < 495 ==> d[13 + i] == if i < |content| then content[i] else 0
  }

  lemma FrameSays(p: Packet)
    requires |p.payload| == PAYLOAD
    ensures Says(Frame(p), p.kind, p.quantity, p.messageId, p.packetId) && Frame(p)[13..508] == p.payload
  {
    hide Crc32.Crc, Frame;
    FrameParts(p);
    Widths();
    FromToBE(p.messageId, 4);
    FromToBE(p.packetId, 6);
    FromToBE(Crc32.Crc(p.payload), 4);
    Crc32.CrcRange(p.payload);
  }

  lemma FrameCarries(p: Packet, content: Data)
    requires |p.payload| == PAYLOAD && p.payload == Payload(content)
    ensures Carries(Frame(p), content)
  {
    hide Crc32.Crc, Frame;
    FrameParts(p);
    var d := Frame(p);
    forall i | 0 <= i < 495
      ensures d[13 + i] == if i < |content| then content[i] else 0
    {
      assert d[13 + i] == d[13..508][i];
    }
  }

  /** A datagram is accepted only if it is, bit for bit, the frame of what is read from it. */
  lemma DeframeIsExact(d: Data)
    requires |d| == SIZE
    ensures match Deframe(d)
            case Some(p) => |p.payload| == PAYLOAD && Frame(p) == d
            case None => true
  {
    hide Crc32.Crc;
    if Deframe(d).Some? {
      ToFromBE(d[3..7]);
      ToFromBE(d[7..13]);
      ToFromBE(d[508..512]);
      assert d == d[..3] + d[3..7] + d[7..13] + d[13..508] + d[508..512];
      assert d[..3] == [d[0], d[1], d[2]];
    }
  }

  /** The parts of a datagram around four payload bytes, seen through the payload. */
  lemma Around(d: Data, k: nat)
    requires |d| == SIZE && 13 <= k && k + 4 <= 508
    ensures d[13..508][..k - 13] == d[..k][13..]
    ensures d[13..508][k - 9..] == d[k + 4..][..504 - k]
    ensures d[508..512] == d[k + 4..][504 - k..508 - k]
    ensures d == d[..k][..13] + d[13..508] + d[508..512]
  {
    assert d[..k][..13] == d[..13];
    assert d == d[..13] + d[13..508] + d[508..512];
  }

  /** Two datagrams that differ only inside four payload bytes, seen through their payloads. */
  lemma Window(d: Data, f: Data, k: nat)
    requires |d| == |f| == SIZE && 13 <= k && k + 4 <= 508
    requires d[..k] == f[..k] && d[k + 4..] == f[k + 4..] && d != f
    ensures var s, t := d[13..508], f[13..508];
            s[..k - 13] == t[..k - 13] && s[k - 9..] == t[k - 9..] && s != t
    ensures d[508..512] == f[508..512]
  {
    Around(d, k);
    Around(f, k);
  }

  /** A frame whose payload is changed anywhere inside four consecutive bytes is rejected. */
  lemma {:induction false} BurstIsRejected(p: Packet, d: Data, k: nat)
    requires |p.payload| == PAYLOAD && |d| == SIZE
    requires 13 <= k && k + 4 <= 508
    requires d[..k] == Frame(p)[..k] && d[k + 4..] == Frame(p)[k + 4..] && d != Frame(p)
    ensures Deframe(d) == None
  {
    hide Crc32.Crc, Frame, ToBE, FromBE, Blank;
    FrameParts(p);
    Window(d, Frame(p), k);
    var s := d[13..508];
    Crc32.BurstChangesCrc(s, p.payload, k - 13);
    Widths();
    FromToBE(Crc32.Crc(p.payload), 4);
    Crc32.CrcRange(p.payload);
  }

  // ---- The writing loops

  /** The constructor from a string: a zeroed buffer, at most 495 bytes copied in. */
  function Payload(content: Data): (s: Data)
    ensures |s| == PAYLOAD
  {
    if |content| >= PAYLOAD then content[..PAYLOAD] else content + seq(PAYLOAD - |content|, _ => 0)
  }

  method FillPayload(content: Data) returns (message: array<byte>)
    ensures fresh(message) && message.Length == PAYLOAD && message[..] == Payload(content)
  {
    message := new byte[PAYLOAD](_ => 0);
    var n := if |content| < PAYLOAD then |content| else PAYLOAD;
    for i := 0 to n
      invariant forall j :: 0 <= j < i ==> message[j] == content[j]
      invariant forall j :: i <= j < PAYLOAD ==> message[j] == 0
    {
      message[i] := content[i];
    }
    assert message[..] == Payload(content);
  }

  /** Four bytes of a number, written with the shifts of the source. */
  method PutWord(bytes: array<byte>, at: nat, n: nat)
    requires at + 4 <= bytes.Length
    modifies bytes
    ensures bytes[at..at + 4] == ToBE(n, 4)
    ensures forall i :: 0 <= i < bytes.Length && !(at <= i < at + 4) ==> bytes[i] == old(bytes[i])
  {
    Spelt(n);
    hide ToBE;
    bytes[at] := n / 0x100_0000 % 256;
    bytes[at + 1] := n / 0x1_0000 % 256;
    bytes[at + 2] := n / 0x100 % 256;
    bytes[at + 3] := n % 256;
  }

  /** The thirteen bytes in front of the payload. */
  method PutHeader(bytes: array<byte>, p: Packet)
    requires bytes.Length == SIZE
    modifies bytes
    ensures bytes[0] == MARK && bytes[1] == p.kind && bytes[2] == p.quantity
    ensures bytes[3..7] == ToBE(p.messageId, 4) && bytes[7..13] == ToBE(p.packetId, 6)
  {
    hide ToBE;
    bytes[0] := MARK;
    bytes[1] := p.kind;
    bytes[2] := p.quantity;
    PutWord(bytes, 3, p.messageId);
    PutWord(bytes, 7, p.packetId / 0x1_0000);
    bytes[11] := p.packetId / 0x100 % 256;
    bytes[12] := p.packetId % 256;
    SixBytes(p.packetId);
    assert bytes[7..13] == bytes[7..11] + [bytes[11], bytes[12]];
  }

  /** `get_bytes`: the header and checksum bytes one by one, the payload in a loop. */
  method GetBytes(p: Packet) returns (bytes: array<byte>)
    requires |p.payload| == PAYLOAD
    ensures fresh(bytes) && bytes.Length == SIZE && bytes[..] == Frame(p)
  {
    hide Crc32.Crc, ToBE, Frame;
    var checksum := Crc32.Checksum(p.payload);
    bytes := new byte[SIZE](_ => 0);
    PutHeader(bytes, p);
    ghost var head := bytes[..13];
    assert head[3..7] == bytes[3..7] && head[7..13] == bytes[7..13];
    for i := 0 to PAYLOAD
      invariant bytes[..13] == head
      invariant bytes[13..13 + i] == p.payload[..i]
    {
      bytes[13 + i] := p.payload[i];
      assert bytes[13..13 + i + 1] == bytes[13..13 + i] + [bytes[13 + i]];
    }
    PutWord(bytes, 508, checksum);
    assert bytes[..13] == head && bytes[13..508] == p.payload;
    Heads(bytes[..], head);
    FiveJoin(bytes[..], p);
  }

  lemma Heads(d: Data, head: Data)
    requires |d| == SIZE && |head| == 13 && d[..13] == head
    ensures d[0] == head[0] && d[1] == head[1] && d[2] == head[2]
    ensures d[3..7] == head[3..7] && d[7..13] == head[7..13]
  {
    assert d[0] == d[..13][0] && d[1] == d[..13][1] && d[2] == d[..13][2];
    assert d[3..7] == d[..13][3..7] && d[7..13] == d[..13][7..13];
  }

  lemma FiveJoin(d: Data, p: Packet)
    requires |d| == SIZE && |p.payload| == PAYLOAD
    requires d[0] == MARK && d[1] == p.kind && d[2] == p.quantity
    requires d[3..7] == ToBE(p.messageId, 4) && d[7..13] == ToBE(p.packetId, 6)
    requires d[13..508] == p.payload && d[508..512] == ToBE(Crc32.Crc(p.payload), 4)
    ensures d == Frame(p)
  {
    hide Crc32.Crc, ToBE;
    assert d[..3] == [MARK, p.kind, p.quantity];
    assert d == d[..3] + d[3..7] + d[7..13] + d[13..508] + d[508..512];
  }

  lemma SixBytes(n: nat)
    ensures ToBE(n, 6) == ToBE(n / 0x1_0000, 4) + [n / 0x100 % 256, n % 256]
  {
    assert n / 256 / 256 == n / 0x1_0000;
    assert ToBE(n, 6) == ToBE(n / 256, 5) + [n % 256];
    assert ToBE(n / 256, 5) == ToBE(n / 256 / 256, 4) + [n / 256 % 256];
  }

  // ---- Encrypted payloads: two length bytes, the ciphertext, zeros

  const ROOM := 493

  function Sealed(encrypted: Data): (s: Data) {
    ToBE(|encrypted|, 2) + encrypted
  }

  /** The ciphertext in a payload, or nothing when the announced length cannot be. */
  function Unseal(payload: Data): Option<Data>
    requires |payload| == PAYLOAD
  {
    var n := FromBE(payload[0..2]);
    if n == 0 || n > ROOM then None else Some(payload[2..2 + n])
  }

  /** Opening a sealed ciphertext gives it back exactly when it fits behind the two length bytes. */
  lemma UnsealSealed(encrypted: Data)
    requires |encrypted| < 0x1_0000
    ensures Unseal(Payload(Sealed(encrypted))) ==
            if 1 <= |encrypted| <= 493 then Some(encrypted) else None
  {
    hide ToBE, FromBE;
    var n := |encrypted|;
    var s := Payload(Sealed(encrypted));
    assert s[0..2] == ToBE(n, 2);
    Widths();
    FromToBE(n, 2);
    if 1 <= n <= ROOM {
      assert s[2..2 + n] == encrypted;
    }
  }

  /** Decrypting a payload, as the text and the file branch both do; any failure drops the packet. */
  function Opened(c: Cipher, key: Option<Key>, payload: Data): Option<Data>
    requires |payload| == PAYLOAD
  {
    var encrypted :- Unseal(payload);
    var k :- key;
    c.dec(encrypted, k)
  }

  lemma OpenedSealed(c: Cipher, k: Key, text: Data, iv: nat)
    requires Lawful(c) && |text| < 0x8000
    ensures Opened(c, Some(k), Payload(Sealed(c.enc(text, k, iv)))) ==
            if CipherLength(|text|) <= ROOM then Some(text) else None
  {
    hide Unseal, Payload, Sealed;
    LawfulAt(c, text, k, iv);
    UnsealSealed(c.enc(text, k, iv));
  }

  /** The announced length, spelt out, and the ciphertext. */
  lemma SealedIs(encrypted: Data)
    ensures Sealed(encrypted) == [|encrypted| / 0x100 % 256, |encrypted| % 256] + encrypted
  {
    Spelt(|encrypted|);
    hide ToBE;
  }

  // ---- Text messages

  const LONGEST_TEXT := 477

  /** `send_text`: cut to 477 bytes, encrypted, or sent in the clear when there is no key. */
  function TextPacket(c: Cipher, key: Option<Key>, msg: Data, messageId: nat, iv: nat): (p: Packet)
    ensures |p.payload| == PAYLOAD
  {
    var cut := if |msg| > LONGEST_TEXT then msg[..LONGEST_TEXT] else msg;
    var content := match key
                   case Some(k) => Sealed(c.enc(cut, k, iv))
                   case None => cut;
    Packet(TEXT, 0, messageId, 0, Payload(content))
  }

  /** The bytes of a text: type 'T', and the first 477 bytes behind a length and encrypted, or plain. */
  lemma TextSays(c: Cipher, key: Option<Key>, msg: Data, messageId: nat, iv: nat)
    ensures var d := Frame(TextPacket(c, key, msg, messageId, iv));
            var cut := if |msg| > 477 then msg[..477] else msg;
            && Says(d, 84, 0, messageId, 0)
            && match key
               case None => Carries(d, cut)
               case Some(k) =>
                 var e := c.enc(cut, k, iv);
                 Carries(d, [|e| / 0x100 % 256, |e| % 256] + e)
  {
    hide Frame, Payload, Sealed, Says, Carries;
    var p := TextPacket(c, key, msg, messageId, iv);
    var cut := if |msg| > 477 then msg[..477] else msg;
    FrameSays(p);
    match key
    case None => FrameCarries(p, cut);
    case Some(k) =>
      SealedIs(c.enc(cut, k, iv));
      FrameCarries(p, Sealed(c.enc(cut, k, iv)));
  }

  /** The text branch of `handle_receive`: the message that is saved, if any. */
  function SavedText(c: Cipher, key: Option<Key>, p: Packet): Option<Data>
    requires |p.payload| == PAYLOAD
  {
    var msg :- Opened(c, key, p.payload);
    if msg == [] then None else Some(msg)
  }

  function ReceivedText(c: Cipher, key: Option<Key>, d: Data): Option<Data>
    requires |d| == SIZE
  {
    var p :- Deframe(d);
    if p.kind == TEXT then SavedText(c, key, p) else None
  }

  /** Under an agreed key a text arrives whole if it has 1 to 463 bytes; every other text, including those the
      sender's own limit of 477 still lets through, is not saved at all. */
  lemma TextDelivery(c: Cipher, k: Key, msg: Data, messageId: nat, iv: nat)
    requires Lawful(c)
    ensures ReceivedText(c, Some(k), Frame(TextPacket(c, Some(k), msg, messageId, iv))) ==
            if 1 <= |msg| <= 463 then Some(msg) else None
  {
    hide Frame, Deframe, Opened, Payload, Sealed;
    var p := TextPacket(c, Some(k), msg, messageId, iv);
    var cut := if |msg| > LONGEST_TEXT then msg[..LONGEST_TEXT] else msg;
    FrameRoundTrip(p);
    OpenedSealed(c, k, cut, iv);
    assert CipherLength(|cut|) <= ROOM <==> |cut| <= 463;
  }
}
