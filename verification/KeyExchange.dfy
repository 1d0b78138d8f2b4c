/** The exchange of the shared AES key between two peers: 'P' carries a public key, 'A' answers with a fresh AES
    key encrypted for it. The receiver of 'P' stores the key it made, the receiver of 'A' the key it unwraps. */
module KeyExchange {
  import opened Bytes
  import opened Crypto
  import opened Packet

  /** Encryption for a public key, with its random choice, and the decryption of its owner. */
  datatype Wrap = Wrap(wrap: (Key, Key, nat) -> Data, unwrap: (Data, Key) -> Option<Key>, publicOf: Key -> Key)

  /** What X25519, SHA-256 and AES give together; the result always has the same length, well under one payload. */
  ghost predicate WrapLawful(w: Wrap) {
    forall k: Key, secret: Key, r: nat ::
      w.unwrap(w.wrap(k, w.publicOf(secret), r), secret) == Some(k) && |w.wrap(k, w.publicOf(secret), r)| == WRAPPED
  }

  const WRAPPED := 96
  const P: byte := 80
  const A: byte := 65

  /** The hypothesis can be met. */
  lemma WrapLawfulExists()
    ensures exists w :: WrapLawful(w)
  {
    var w := Wrap((k: Key, pub: Key, r: nat) => k + seq(64, _ => 0),
                  (s: Data, secret: Key) => if |s| == WRAPPED then Some(s[..32]) else None,
                  (k: Key) => k);
    forall k: Key, secret: Key, r: nat
      ensures w.unwrap(w.wrap(k, w.publicOf(secret), r), secret) == Some(k)
      ensures |w.wrap(k, w.publicOf(secret), r)| == WRAPPED
    {
      assert (k + seq(64, _ => 0))[..32] == k;
    }
    assert WrapLawful(w);
  }

  // ---- The two payloads

  /** The public key three times over. */
  function OfferPayload(pub: Key): (s: Data)
    ensures |s| == PAYLOAD
  {
    [P] + pub + pub + pub + seq(PAYLOAD - 97, _ => 0)
  }

  function AnswerPayload(wrapped: Data): (s: Data)
    requires |wrapped| <= PAYLOAD - 3
    ensures |s| == PAYLOAD
  {
    [A] + ToBE(|wrapped|, 2) + wrapped + seq(PAYLOAD - 3 - |wrapped|, _ => 0)
  }

  datatype Note = Offer(pub: Key) | Answer(wrapped: Data) | Other

  /** The branches of `handle_receive` on organisational packets: an offer whose copies differ is dropped, an
      announced length beyond the payload is not modelled. */
  function ReadNote(payload: Data): Note
    requires |payload| == PAYLOAD
  {
    if payload[0] == P then
      if payload[1..33] == payload[33..65] == payload[65..97] then Offer(payload[1..33]) else Other
    else if payload[0] == A then
      var n := FromBE(payload[1..3]);
      if n <= PAYLOAD - 3 then Answer(payload[3..3 + n]) else Other
    else Other
  }

  lemma OfferRoundTrip(pub: Key)
    ensures ReadNote(OfferPayload(pub)) == Offer(pub)
  {
    var s := OfferPayload(pub);
    assert s[1..33] == pub && s[33..65] == pub && s[65..97] == pub;
  }

  lemma AnswerRoundTrip(wrapped: Data)
    requires |wrapped| <= PAYLOAD - 3
    ensures ReadNote(AnswerPayload(wrapped)) == Answer(wrapped)
  {
    hide ToBE, FromBE;
    var s := AnswerPayload(wrapped);
    var n := |wrapped|;
    assert s[1..3] == ToBE(n, 2);
    assert s[3..3 + n] == wrapped;
    Widths();
    FromToBE(n, 2);
  }

  /** The bytes of an offer: 'P' and the key three times. */
  lemma OfferBytes(pub: Key)
    ensures var s := OfferPayload(pub);
            && |s| == 495 && s[0] == 80 && s[1..33] == pub && s[33..65] == pub && s[65..97] == pub
            && forall i :: 97 <= i < 495 ==> s[i] == 0
  {
  }

  /** The bytes of an answer: 'A', the length in two bytes, the wrapped key. */
  lemma AnswerBytes(wrapped: Data)
    requires |wrapped| <= PAYLOAD - 3
    ensures var s := AnswerPayload(wrapped);
            && |s| == 495 && s[0] == 65 && s[1] == |wrapped| / 256 && s[2] == |wrapped| % 256
            && s[3..3 + |wrapped|] == wrapped && forall i :: 3 + |wrapped| <= i < 495 ==> s[i] == 0
  {
    Spelt(|wrapped|);
    hide ToBE;
  }

  /** How a payload is read: an offer only with three equal copies, an answer with as many bytes as it announces. */
  lemma NoteIs(payload: Data)
    requires |payload| == PAYLOAD
    ensures payload[0] == 80 ==>
              ReadNote(payload) == if payload[1..33] == payload[33..65] == payload[65..97] then Offer(payload[1..33]) else Other
    ensures payload[0] == 65 ==>
              var n: nat := payload[1] as int * 256 + payload[2] as int;
              ReadNote(payload) == if n <= 492 then Answer(payload[3..3 + n]) else Other
    ensures payload[0] != 80 && payload[0] != 65 ==> ReadNote(payload) == Other
  {
    assert payload[1..3] == [payload[1], payload[2]];
    TwoDigits(payload[1], payload[2]);
  }

  lemma TwoDigits(a: byte, b: byte)
    ensures FromBE([a, b]) == a as int * 256 + b as int
  {
    assert [a, b][..1] == [a];
    assert [a][..0] == [];
    assert FromBE([a]) == a;
  }

  /** The comparison loop over the three copies. */
  method CopiesAgree(payload: Data) returns (consistent: bool)
    requires |payload| == PAYLOAD
    ensures consistent <==> payload[1..33] == payload[33..65] == payload[65..97]
  {
    consistent := true;
    for i := 0 to 32
      invariant consistent <==> payload[1..1 + i] == payload[33..33 + i] == payload[65..65 + i]
    {
      SliceMore(payload, 1, 33, i);
      SliceMore(payload, 33, 65, i);
      if !(payload[1 + i] == payload[33 + i] && payload[33 + i] == payload[65 + i]) {
        consistent := false;
      }
    }
  }

  lemma SliceMore(s: Data, a: nat, b: nat, i: nat)
    requires a + i < |s| && b + i < |s|
    ensures s[a..a + i + 1] == s[b..b + i + 1] <==> s[a..a + i] == s[b..b + i] && s[a + i] == s[b + i]
  {
    assert s[a..a + i + 1] == s[a..a + i] + [s[a + i]] && s[b..b + i + 1] == s[b..b + i] + [s[b + i]];
    if s[a..a + i + 1] == s[b..b + i + 1] {
      assert s[a..a + i] == s[a..a + i + 1][..i] && s[b..b + i] == s[b..b + i + 1][..i];
      assert s[a + i] == s[a..a + i + 1][i] && s[b + i] == s[b..b + i + 1][i];
    }
  }

  // ---- One peer

  /** `stored` is the key file of the other peer's directory. */
  datatype Peer = Peer(secret: Key, stored: Option<Key>)

  /** Receiving a payload: the new state and what is sent back. `made` and `r` are the random choices. */
  function Receive(w: Wrap, p: Peer, payload: Data, made: Key, r: nat): (Peer, seq<Data>)
    requires |payload| == PAYLOAD
  {
    match ReadNote(payload)
    case Offer(pub) =>
      var wrapped := w.wrap(made, pub, r);
      (p.(stored := Some(made)), if |wrapped| <= PAYLOAD - 3 then [AnswerPayload(wrapped)] else [])
    case Answer(wrapped) =>
      (match w.unwrap(wrapped, p.secret)
       case None => (p, [])
       case Some(k) => (p.(stored := Some(k)), []))
    case Other => (p, [])
  }

  class KeyHolder {
    const w: Wrap
    const secret: Key
    var stored: Option<Key>
    var sent: seq<Data>

    function Value(): Peer
      reads this
    {
      Peer(secret, stored)
    }

    constructor (w: Wrap, secret: Key)
      ensures Value() == Peer(secret, None) && sent == [] && this.w == w
    {
      this.w, this.secret, stored, sent := w, secret, None, [];
    }

    method SendPublicKey()
      modifies this`sent
      ensures sent == old(sent) + [OfferPayload(w.publicOf(secret))]
    {
      sent := sent + [OfferPayload(w.publicOf(secret))];
    }

    /** An offer with equal copies makes a key, which is stored and goes back wrapped for the offered one; an answer
        that can be unwrapped is stored; anything else changes nothing. */
    method HandleNote(payload: Data, made: Key, r: nat)
      requires |payload| == PAYLOAD
      modifies this
      ensures payload[0] == 80 && payload[1..33] == payload[33..65] == payload[65..97] ==>
                stored == Some(made)
                && var wrapped := w.wrap(made, payload[1..33], r);
                   sent == if |wrapped| <= 492 then old(sent) + [AnswerPayload(wrapped)] else old(sent)
      ensures payload[0] == 65 ==>
                var n: nat := payload[1] as int * 256 + payload[2] as int;
                && sent == old(sent)
                && stored == if n <= 492 && w.unwrap(payload[3..3 + n], secret).Some?
                             then w.unwrap(payload[3..3 + n], secret) else old(stored)
      ensures payload[0] != 65 && (payload[0] != 80 || !(payload[1..33] == payload[33..65] == payload[65..97])) ==>
                stored == old(stored) && sent == old(sent)
      ensures (Value(), sent) == var (p, out) := Receive(w, old(Value()), payload, made, r); (p, old(sent) + out)
    {
      hide ToBE, FromBE;
      NoteIs(payload);
      assert payload[1..3] == [payload[1], payload[2]];
      TwoDigits(payload[1], payload[2]);
      if payload[0] == P {
        var consistent := CopiesAgree(payload);
        if consistent {
          stored := Some(made);
          var wrapped := w.wrap(made, payload[1..33], r);
          if |wrapped| <= PAYLOAD - 3 {
            sent := sent + [AnswerPayload(wrapped)];
          }
        }
      } else if payload[0] == A {
        var n := FromBE(payload[1..3]);
        if n <= PAYLOAD - 3 {
          var key := w.unwrap(payload[3..3 + n], secret);
          if key.Some? {
            stored := key;
          }
        }
      }
      assert sent == old(sent) || sent == old(sent) + Receive(w, old(Value()), payload, made, r).1;
      assert old(sent) + [] == old(sent);
    }
  }

  // ---- Two peers over channels that keep order and lose nothing

  /** The key a payload carries for the owner of `secret`, if it carries one. */
  function KeyIn(w: Wrap, payload: Data, secret: Key): Option<Key>
    requires |payload| == PAYLOAD
  {
    match ReadNote(payload)
    case Answer(wrapped) => w.unwrap(wrapped, secret)
    case _ => None
  }

  predicate Payloads(queue: seq<Data>) {
    forall i :: 0 <= i < |queue| ==> |queue[i]| == PAYLOAD
  }

  /** The key in the last answer on its way to the owner of `secret`. */
  function LastKey(w: Wrap, queue: seq<Data>, secret: Key): Option<Key>
    requires Payloads(queue)
  {
    if queue == [] then None
    else
      var k := KeyIn(w, queue[|queue| - 1], secret);
      if k.Some? then k else LastKey(w, queue[..|queue| - 1], secret)
  }

  /** The last offer taken so far: by which side, the key made for it, and the key in the last answer that was
      then still on its way to that side. */
  datatype Take = Take(byY: bool, made: Key, over: Option<Key>)

  datatype System = System(x: Peer, y: Peer, toY: seq<Data>, toX: seq<Data>, last: Option<Take>)

  datatype Event = XOffers | YOffers | XReceives(made: Key, r: nat) | YReceives(made: Key, r: nat)

  predicate Delivers(s: System) {
    Payloads(s.toY) && Payloads(s.toX)
  }

  /** What is remembered of taking the first payload of `queue`. */
  function Taken(w: Wrap, s: System, byY: bool, queue: seq<Data>, secret: Key, made: Key): Option<Take>
    requires Payloads(queue) && queue != []
  {
    if ReadNote(queue[0]).Offer? then Some(Take(byY, made, LastKey(w, queue[1..], secret))) else s.last
  }

  function Step(w: Wrap, s: System, e: Event): System
    requires Delivers(s)
  {
    match e
    case XOffers => s.(toY := s.toY + [OfferPayload(w.publicOf(s.x.secret))])
    case YOffers => s.(toX := s.toX + [OfferPayload(w.publicOf(s.y.secret))])
    case XReceives(made, r) =>
      if s.toX == [] then s
      else
        var (p, out) := Receive(w, s.x, s.toX[0], made, r);
        s.(x := p, toX := s.toX[1..], toY := s.toY + out, last := Taken(w, s, false, s.toX, s.x.secret, made))
    case YReceives(made, r) =>
      if s.toY == [] then s
      else
        var (p, out) := Receive(w, s.y, s.toY[0], made, r);
        s.(y := p, toY := s.toY[1..], toX := s.toX + out, last := Taken(w, s, true, s.toY, s.y.secret, made))
  }

  lemma StepDelivers(w: Wrap, s: System, e: Event)
    requires Delivers(s)
    ensures Delivers(Step(w, s, e))
  {
    hide ReadNote, OfferPayload, AnswerPayload, Taken;
  }

  function Run(w: Wrap, x: Peer, y: Peer, events: seq<Event>): (s: System)
    ensures Delivers(s)
    decreases |events|
  {
    if events == [] then System(x, y, [], [], None)
    else
      var s := Run(w, x, y, events[..|events| - 1]);
      StepDelivers(w, s, events[|events| - 1]);
      Step(w, s, events[|events| - 1])
  }

  // ---- Queues

  lemma LastKeyAppend(w: Wrap, queue: seq<Data>, payload: Data, secret: Key)
    requires Payloads(queue) && |payload| == PAYLOAD
    ensures LastKey(w, queue + [payload], secret) ==
            if KeyIn(w, payload, secret).Some? then KeyIn(w, payload, secret) else LastKey(w, queue, secret)
  {
    hide KeyIn;
    assert (queue + [payload])[..|queue|] == queue;
  }

  lemma {:induction false} LastKeyFront(w: Wrap, queue: seq<Data>, secret: Key)
    requires Payloads(queue) && queue != []
    ensures LastKey(w, queue, secret) ==
            if LastKey(w, queue[1..], secret).Some? then LastKey(w, queue[1..], secret)
            else KeyIn(w, queue[0], secret)
    decreases |queue|
  {
    hide KeyIn;
    if |queue| > 1 {
      var all := queue[..|queue| - 1];
      assert all[1..] == queue[1..][..|queue| - 2];
      LastKeyFront(w, all, secret);
    }
  }

  /** The key `p` will have stored when all answers on their way have come and no more keys were made. */
  function Settled(w: Wrap, p: Peer, queue: seq<Data>): Option<Key>
    requires Payloads(queue)
  {
    var k := LastKey(w, queue, p.secret);
    if k.Some? then k else p.stored
  }

  /** A queue to the owner of `secret` holds offers of the other side and answers that can be opened. */
  ghost predicate Readable(w: Wrap, queue: seq<Data>, secret: Key, other: Key) {
    && Payloads(queue)
    && forall i :: 0 <= i < |queue| ==>
         ReadNote(queue[i]) == Offer(w.publicOf(other)) || KeyIn(w, queue[i], secret).Some?
  }

  /** Taking an offer off the front: a key is made, stored and sent back. */
  lemma OfferTaken(w: Wrap, p: Peer, owner: Key, made: Key, r: nat)
    requires WrapLawful(w)
    ensures var wrapped := w.wrap(made, w.publicOf(owner), r);
            && |wrapped| == WRAPPED
            && forall payload :: |payload| == PAYLOAD && ReadNote(payload) == Offer(w.publicOf(owner)) ==>
                 Receive(w, p, payload, made, r) == (p.(stored := Some(made)), [AnswerPayload(wrapped)])
    ensures KeyIn(w, AnswerPayload(w.wrap(made, w.publicOf(owner), r)), owner) == Some(made)
  {
    var wrapped := w.wrap(made, w.publicOf(owner), r);
    assert |wrapped| == WRAPPED && w.unwrap(wrapped, owner) == Some(made);
    AnswerRoundTrip(wrapped);
    hide ReadNote, AnswerPayload;
  }

  /** Taking an answer off the front: its key is stored. */
  lemma AnswerTaken(w: Wrap, p: Peer, payload: Data, key: Key, made: Key, r: nat)
    requires |payload| == PAYLOAD && KeyIn(w, payload, p.secret) == Some(key)
    ensures Receive(w, p, payload, made, r) == (p.(stored := Some(key)), [])
    ensures !ReadNote(payload).Offer?
  {
    hide ReadNote;
  }

  /** Sending an offer moves neither key. */
  lemma OfferSent(w: Wrap, p: Peer, queue: seq<Data>, other: Key)
    requires Readable(w, queue, p.secret, other)
    ensures var more := queue + [OfferPayload(w.publicOf(other))];
            Readable(w, more, p.secret, other) && Settled(w, p, more) == Settled(w, p, queue)
            && LastKey(w, more, p.secret) == LastKey(w, queue, p.secret)
  {
    hide ReadNote, OfferPayload, LastKey;
    OfferRoundTrip(w.publicOf(other));
    LastKeyAppend(w, queue, OfferPayload(w.publicOf(other)), p.secret);
  }

  /** Taking an answer moves neither key: it was already counted on. */
  lemma AnswerArrives(w: Wrap, p: Peer, queue: seq<Data>, other: Key, made: Key, r: nat)
    requires Readable(w, queue, p.secret, other) && queue != [] && !ReadNote(queue[0]).Offer?
    ensures var k := KeyIn(w, queue[0], p.secret);
            && k.Some?
            && Receive(w, p, queue[0], made, r) == (p.(stored := k), [])
            && Readable(w, queue[1..], p.secret, other)
            && Settled(w, p.(stored := k), queue[1..]) == Settled(w, p, queue)
    ensures LastKey(w, queue, p.secret).Some?
  {
    hide ReadNote, LastKey, Receive, KeyIn;
    AnswerTaken(w, p, queue[0], KeyIn(w, queue[0], p.secret).value, made, r);
    LastKeyFront(w, queue, p.secret);
  }

  /** Taking an offer: the other side will end with the key made here; this side too, unless an answer was still
      on its way to it, whose key will then replace it. */
  lemma OfferArrives(w: Wrap, p: Peer, queue: seq<Data>, q: Peer, back: seq<Data>, made: Key, r: nat)
    requires WrapLawful(w) && Readable(w, queue, p.secret, q.secret) && Readable(w, back, q.secret, p.secret)
    requires queue != [] && ReadNote(queue[0]).Offer?
    ensures var (p', out) := Receive(w, p, queue[0], made, r);
            var over := LastKey(w, queue[1..], p.secret);
            && p' == p.(stored := Some(made))
            && Readable(w, queue[1..], p.secret, q.secret) && Readable(w, back + out, q.secret, p.secret)
            && Settled(w, p', queue[1..]) == (if over.Some? then over else Some(made))
            && Settled(w, q, back + out) == Some(made)
  {
    var answer := AnswerPayload(w.wrap(made, w.publicOf(q.secret), r));
    assert ReadNote(queue[0]) == Offer(w.publicOf(q.secret)) by {
      hide ReadNote, Receive;
    }
    OfferTaken(w, p, q.secret, made, r);
    LastKeyAppend(w, back, answer, q.secret);
    hide ReadNote, LastKey, Receive, KeyIn, AnswerPayload, WrapLawful;
  }

  // ---- All runs

  /** The keys both sides will end with are settled by the last offer taken. */
  ghost predicate Settling(w: Wrap, x: Peer, y: Peer, s: System) {
    && s.x.secret == x.secret && s.y.secret == y.secret
    && Readable(w, s.toY, y.secret, x.secret) && Readable(w, s.toX, x.secret, y.secret)
    && match s.last
       case None =>
         s.x == x && s.y == y && LastKey(w, s.toX, x.secret).None? && LastKey(w, s.toY, y.secret).None?
       case Some(t) =>
         var own := if t.over.Some? then t.over else Some(t.made);
         if t.byY then Settled(w, s.x, s.toX) == Some(t.made) && Settled(w, s.y, s.toY) == own
         else Settled(w, s.y, s.toY) == Some(t.made) && Settled(w, s.x, s.toX) == own
  }

  lemma XOffersSettles(w: Wrap, x: Peer, y: Peer, s: System)
    requires Settling(w, x, y, s)
    ensures Settling(w, x, y, Step(w, s, XOffers))
  {
    hide Readable, Settled, LastKey, OfferPayload;
    OfferSent(w, s.y, s.toY, x.secret);
  }

  lemma YOffersSettles(w: Wrap, x: Peer, y: Peer, s: System)
    requires Settling(w, x, y, s)
    ensures Settling(w, x, y, Step(w, s, YOffers))
  {
    hide Readable, Settled, LastKey, OfferPayload;
    OfferSent(w, s.x, s.toX, y.secret);
  }

  lemma XReceivesSettles(w: Wrap, x: Peer, y: Peer, s: System, made: Key, r: nat)
    requires WrapLawful(w) && Settling(w, x, y, s) && Delivers(s)
    ensures Settling(w, x, y, Step(w, s, XReceives(made, r)))
  {
    hide Readable, Settled, LastKey, Receive, ReadNote, WrapLawful, KeyIn;
    if s.toX != [] {
      if ReadNote(s.toX[0]).Offer? {
        OfferArrives(w, s.x, s.toX, s.y, s.toY, made, r);
      } else {
        AnswerArrives(w, s.x, s.toX, y.secret, made, r);
        assert s.toY + [] == s.toY;
      }
    }
  }

  lemma YReceivesSettles(w: Wrap, x: Peer, y: Peer, s: System, made: Key, r: nat)
    requires WrapLawful(w) && Settling(w, x, y, s) && Delivers(s)
    ensures Settling(w, x, y, Step(w, s, YReceives(made, r)))
  {
    hide Readable, Settled, LastKey, Receive, ReadNote, WrapLawful, KeyIn;
    if s.toY != [] {
      if ReadNote(s.toY[0]).Offer? {
        OfferArrives(w, s.y, s.toY, s.x, s.toX, made, r);
      } else {
        AnswerArrives(w, s.y, s.toY, x.secret, made, r);
        assert s.toX + [] == s.toX;
      }
    }
  }

  lemma {:induction false} RunSettles(w: Wrap, x: Peer, y: Peer, events: seq<Event>)
    requires WrapLawful(w)
    ensures Settling(w, x, y, Run(w, x, y, events))
    decreases |events|
  {
    if events != [] {
      var s := Run(w, x, y, events[..|events| - 1]);
      RunSettles(w, x, y, events[..|events| - 1]);
      hide Settling, Step, WrapLawful, Delivers;
      match events[|events| - 1]
      case XOffers => XOffersSettles(w, x, y, s);
      case YOffers => YOffersSettles(w, x, y, s);
      case XReceives(made, r) => XReceivesSettles(w, x, y, s, made, r);
      case YReceives(made, r) => YReceivesSettles(w, x, y, s, made, r);
    }
  }

  /** Exactly when the exchange agrees, over all runs with offers from both sides in any order. Once everything
      sent has arrived, both peers store the same key if and only if, when the last offer was taken, no answer was
      on its way to the peer that took it (or one carrying the very key made then). Otherwise the taker stores the
      key of that answer and the other peer the key made for the offer. With no offer taken nothing has changed. */
  lemma {:induction false} StoredKeysAgreeIff(w: Wrap, x: Peer, y: Peer, events: seq<Event>)
    requires WrapLawful(w)
    ensures var s := Run(w, x, y, events);
            s.toX == [] && s.toY == [] ==>
              match s.last
              case None => s.x == x && s.y == y
              case Some(t) =>
                && (s.x.stored == s.y.stored <==> t.over == None || t.over == Some(t.made))
                && (if t.byY then s.x else s.y).stored == Some(t.made)
                && (if t.byY then s.y else s.x).stored == (if t.over.Some? then t.over else Some(t.made))
  {
    RunSettles(w, x, y, events);
    hide WrapLawful, Run;
  }

  /** The outcome does not wait for the deliveries: it is settled when the last offer is taken. */
  lemma {:induction false} SettledKeysAgreeIff(w: Wrap, x: Peer, y: Peer, events: seq<Event>)
    requires WrapLawful(w) && Run(w, x, y, events).last.Some?
    ensures var s := Run(w, x, y, events);
            Settled(w, s.x, s.toX) == Settled(w, s.y, s.toY) <==>
            s.last.value.over == None || s.last.value.over == Some(s.last.value.made)
  {
    RunSettles(w, x, y, events);
    hide WrapLawful, Run, Settled;
  }

  // ---- One initiator

  /** With only X offering, what travels to Y are offers and what travels to X are keys. */
  ghost predicate OneWay(w: Wrap, x: Peer, s: System) {
    && Delivers(s) && s.x.secret == x.secret
    && (forall i :: 0 <= i < |s.toY| ==> ReadNote(s.toY[i]) == Offer(w.publicOf(x.secret)))
    && (forall i :: 0 <= i < |s.toX| ==> KeyIn(w, s.toX[i], x.secret).Some?)
    && (s.last.Some? ==> s.last.value.byY && s.last.value.over == None)
  }

  lemma {:induction false} OffersCarryNoKey(w: Wrap, queue: seq<Data>, secret: Key)
    requires Payloads(queue) && forall i :: 0 <= i < |queue| ==> ReadNote(queue[i]).Offer?
    ensures LastKey(w, queue, secret) == None
    decreases |queue|
  {
    hide ReadNote;
    if queue != [] {
      OffersCarryNoKey(w, queue[..|queue| - 1], secret);
    }
  }

  lemma OneWayStep(w: Wrap, x: Peer, s: System, e: Event)
    requires WrapLawful(w) && OneWay(w, x, s) && e != YOffers
    ensures OneWay(w, x, Step(w, s, e))
  {
    hide ReadNote, AnswerPayload, OfferPayload, KeyIn, Receive, WrapLawful, LastKey;
    StepDelivers(w, s, e);
    match e
    case XOffers =>
      OfferRoundTrip(w.publicOf(x.secret));
    case YReceives(made, r) =>
      if s.toY != [] {
        OfferTaken(w, s.y, x.secret, made, r);
        OffersCarryNoKey(w, s.toY[1..], s.y.secret);
      }
    case XReceives(made, r) =>
      if s.toX != [] {
        AnswerTaken(w, s.x, s.toX[0], KeyIn(w, s.toX[0], x.secret).value, made, r);
      }
  }

  lemma {:induction false} OneInitiator(w: Wrap, x: Peer, y: Peer, events: seq<Event>)
    requires WrapLawful(w) && YOffers !in events
    ensures OneWay(w, x, Run(w, x, y, events))
    decreases |events|
  {
    if events != [] {
      hide WrapLawful, OneWay, Step;
      OneInitiator(w, x, y, events[..|events| - 1]);
      OneWayStep(w, x, Run(w, x, y, events[..|events| - 1]), events[|events| - 1]);
    }
  }

  /** In every run in which only X offers, from whatever keys the peers stored before: once Y has made a key, the
      last answer on its way carries Y's stored key, and when none is on its way both peers store the same key. */
  lemma {:induction false} KeysAgree(w: Wrap, x: Peer, y: Peer, events: seq<Event>)
    requires WrapLawful(w) && YOffers !in events
    ensures var s := Run(w, x, y, events);
            s.last.Some? ==>
              && s.y.stored.Some?
              && (s.toX == [] ==> s.x.stored == s.y.stored)
              && (s.toX != [] ==> KeyIn(w, s.toX[|s.toX| - 1], x.secret) == s.y.stored)
  {
    OneInitiator(w, x, y, events);
    RunSettles(w, x, y, events);
    var s := Run(w, x, y, events);
    hide WrapLawful, Run, ReadNote, KeyIn;
    OffersCarryNoKey(w, s.toY, y.secret);
  }

  // ---- Crossing offers

  lemma XTakesOffer(w: Wrap, s: System, made: Key)
    requires WrapLawful(w) && Delivers(s) && |s.toX| == 1 && ReadNote(s.toX[0]) == Offer(w.publicOf(s.y.secret))
    ensures var t := Step(w, s, XReceives(made, 0));
            && t.x == s.x.(stored := Some(made)) && t.y == s.y && t.toX == [] && Delivers(t)
            && |t.toY| == |s.toY| + 1 && s.toY <= t.toY && KeyIn(w, t.toY[|s.toY|], s.y.secret) == Some(made)
  {
    StepDelivers(w, s, XReceives(made, 0));
    hide ReadNote, AnswerPayload, KeyIn, Receive, WrapLawful;
    OfferTaken(w, s.x, s.y.secret, made, 0);
  }

  lemma YTakesOffer(w: Wrap, s: System, made: Key)
    requires WrapLawful(w) && Delivers(s) && s.toX == []
    requires s.toY != [] && ReadNote(s.toY[0]) == Offer(w.publicOf(s.x.secret))
    ensures var t := Step(w, s, YReceives(made, 0));
            && t.y == s.y.(stored := Some(made)) && t.x == s.x && t.toY == s.toY[1..] && Delivers(t)
            && |t.toX| == 1 && KeyIn(w, t.toX[0], s.x.secret) == Some(made)
  {
    StepDelivers(w, s, YReceives(made, 0));
    hide ReadNote, AnswerPayload, KeyIn, Receive, WrapLawful;
    OfferTaken(w, s.y, s.x.secret, made, 0);
  }

  lemma BothTakeAnswers(w: Wrap, s: System, kx: Key, ky: Key)
    requires Delivers(s) && |s.toX| == 1 && |s.toY| == 1
    requires KeyIn(w, s.toX[0], s.x.secret) == Some(ky) && KeyIn(w, s.toY[0], s.y.secret) == Some(kx)
    ensures var t := Step(w, s, XReceives(kx, 0));
            Delivers(t) &&
            var u := Step(w, t, YReceives(ky, 0));
            u.x == s.x.(stored := Some(ky)) && u.y == s.y.(stored := Some(kx)) && u.toX == [] && u.toY == []
  {
    StepDelivers(w, s, XReceives(kx, 0));
    hide ReadNote, KeyIn, Receive;
    AnswerTaken(w, s.x, s.toX[0], ky, kx, 0);
    AnswerTaken(w, s.y, s.toY[0], kx, ky, 0);
    assert s.toY + [] == s.toY && s.toX[1..] == [] && s.toY[1..] == [];
  }

  /** Crossing offers end with the two keys swapped: X stores what Y made and Y what X made. */
  lemma CrossingOffersDisagree(w: Wrap, x: Peer, y: Peer, kx: Key, ky: Key)
    requires WrapLawful(w)
    ensures var s := Run(w, x, y, [XOffers, YOffers, XReceives(kx, 0), YReceives(ky, 0), XReceives(kx, 0), YReceives(ky, 0)]);
            s.toX == [] && s.toY == [] && s.x.stored == Some(ky) && s.y.stored == Some(kx)
  {
    hide ReadNote, OfferPayload, KeyIn, Receive, WrapLawful, Delivers, Run;
    var es := [XOffers, YOffers, XReceives(kx, 0), YReceives(ky, 0), XReceives(kx, 0), YReceives(ky, 0)];
    OfferRoundTrip(w.publicOf(x.secret));
    OfferRoundTrip(w.publicOf(y.secret));
    var s0 := RunNothing(w, x, y, es);
    var s1 := RunMore(w, x, y, es, 0, s0);
    var s2 := RunMore(w, x, y, es, 1, s1);
    hide Step;
    XTakesOffer(w, s2, kx);
    var s3 := RunMore(w, x, y, es, 2, s2);
    YTakesOffer(w, s3, ky);
    var s4 := RunMore(w, x, y, es, 3, s3);
    assert s4.toY[0] == s3.toY[1];
    BothTakeAnswers(w, s4, kx, ky);
    var s5 := RunMore(w, x, y, es, 4, s4);
    var s6 := RunMore(w, x, y, es, 5, s5);
    assert es[..6] == es;
  }

  lemma RunNothing(w: Wrap, x: Peer, y: Peer, es: seq<Event>) returns (s: System)
    ensures s == Run(w, x, y, es[..0]) == System(x, y, [], [], None)
  {
    s := System(x, y, [], [], None);
  }

  /** One more event of a fixed list. */
  lemma RunMore(w: Wrap, x: Peer, y: Peer, es: seq<Event>, n: nat, s: System) returns (t: System)
    requires n < |es| && s == Run(w, x, y, es[..n])
    ensures Delivers(s) && t == Step(w, s, es[n]) && t == Run(w, x, y, es[..n + 1])
  {
    assert es[..n + 1][..n] == es[..n];
    t := Run(w, x, y, es[..n + 1]);
  }
}
