/** The sending half of `udp_server`: a header packet, then one chunk per timer tick; single chunks can be sent
    again. One timer serves all transfers of a peer: arming it cancels the wait it was armed for, but not a wait
    that has already expired and whose handler is queued. */
module Sender {
  import opened Basics
  import opened Bytes
  import opened Crypto
  import opened Packet

  const CHUNK := 461
  const LONGEST_NAME := 487

  /** The number of chunks announced: the size divided by 461, rounded up. */
  function Total(data: Data): nat {
    (|data| + 460) / 461
  }

  /** The number of chunks sent: an empty file announces none and still sends one. */
  function Emitted(data: Data): nat {
    Max(Total(data), 1)
  }

  function From(data: Data, i: nat): Data {
    data[Min(i * CHUNK, |data|)..]
  }

  function ChunkOf(data: Data, i: nat): Data {
    var rest := From(data, i);
    rest[..Min(|rest|, CHUNK)]
  }

  lemma ChunkThenRest(data: Data, i: nat)
    ensures From(data, i) == ChunkOf(data, i) + From(data, i + 1)
  {
    var o := i * CHUNK;
    assert (i + 1) * CHUNK == o + CHUNK;
    if o <= |data| {
      var rest := data[o..];
      if |rest| >= CHUNK {
        assert rest[CHUNK..] == data[o + CHUNK..];
      }
    }
  }

  /** The offset of a chunk that is sent lies inside the data, so the size left never underflows. */
  lemma OffsetInside(data: Data, i: nat)
    requires i < Emitted(data)
    ensures i * CHUNK <= |data|
    ensures i < Total(data) ==> i * CHUNK < |data|
  {
  }

  function Joined(data: Data, n: nat): Data {
    if n == 0 then [] else Joined(data, n - 1) + ChunkOf(data, n - 1)
  }

  lemma Associate(a: Data, b: Data, c: Data)
    ensures a + (b + c) == (a + b) + c
  {
  }

  lemma {:induction false} JoinedIsPrefix(data: Data, n: nat)
    ensures data == Joined(data, n) + From(data, n)
  {
    if n > 0 {
      hide ChunkOf, From;
      JoinedIsPrefix(data, n - 1);
      ChunkThenRest(data, n - 1);
      Associate(Joined(data, n - 1), ChunkOf(data, n - 1), From(data, n));
    } else {
      assert From(data, 0) == data;
    }
  }

  /** The chunks, put together, are the data; there are as many as announced, and none of those is empty. */
  lemma ChunksMakeTheData(data: Data)
    ensures Joined(data, Total(data)) == data
    ensures forall i :: 0 <= i < Total(data) ==> 1 <= |ChunkOf(data, i)| <= CHUNK
    ensures CHUNK * (Total(data) - 1) < |data| <= CHUNK * Total(data) || (data == [] && Total(data) == 0)
  {
    var n := Total(data);
    JoinedIsPrefix(data, n);
    assert From(data, n) == [];
    forall i | 0 <= i < n
      ensures 1 <= |ChunkOf(data, i)| <= CHUNK
    {
      assert i * CHUNK < |data|;
    }
  }

  // ---- The packets

  /** Everything that can be on the network: what it carries, the key it is under, and the random choice of its
      encryption. `again` marks a chunk sent by `resend_file`. */
  datatype Sent =
    | HeaderFor(id: nat, data: Data, name: Data)
    | ChunkFor(id: nat, data: Data, index: nat, iv: nat, key: Key, again: bool)
    | TextFor(id: nat, msg: Data, iv: nat, under: Option<Key>)

  function HeaderPayload(data: Data, name: Data): (s: Data)
    ensures |s| == PAYLOAD
  {
    var cut := name[..Min(|name|, LONGEST_NAME)];
    ToBE(Total(data), 6) + [0] + cut + seq(PAYLOAD - 7 - |cut|, _ => 0)
  }

  function PacketOf(c: Cipher, sent: Sent): (p: Packet)
    ensures |p.payload| == PAYLOAD
  {
    match sent
    case HeaderFor(id, data, name) => Packet(FILE, 1, id, Total(data), HeaderPayload(data, name))
    case ChunkFor(id, data, i, iv, key, _) =>
      Packet(FILE, if i + 1 == Total(data) then 0 else 2, id, i, Payload(Sealed(c.enc(ChunkOf(data, i), key, iv))))
    case TextFor(id, msg, iv, under) => TextPacket(c, under, msg, id, iv)
  }

  function Wire(c: Cipher, sent: Sent): (d: Data)
    ensures |d| == SIZE
  {
    Frame(PacketOf(c, sent))
  }

  function Wires(c: Cipher, log: seq<Sent>): seq<Data> {
    seq(|log|, i requires 0 <= i < |log| => Wire(c, log[i]))
  }

  // ---- What is on the network, byte by byte

  /** The header: type 'F', quantity 1, the number of chunks twice, and at most 487 bytes of the name. */
  ghost predicate AnnouncesFile(d: Data, id: nat, data: Data, name: Data) {
    var total := (|data| + 460) / 461;
    var cut := if |name| > 487 then name[..487] else name;
    && Says(d, 70, 1, id, total)
    && FromBE(d[13..19]) == total % 0x1_0000_0000_0000 && d[19] == 0
    && d[20..20 + |cut|] == cut && forall i :: 20 + |cut| <= i < 508 ==> d[i] == 0
  }

  /** A chunk: type 'F', quantity 0 if its last byte is the file's and otherwise 2, its index, and its 461 bytes or
      what is left of the file, encrypted behind a length. */
  ghost predicate CarriesChunk(c: Cipher, d: Data, id: nat, data: Data, index: nat, iv: nat, key: Key)
    requires index * 461 <= |data|
  {
    var from := index * 461;
    var e := c.enc(if from + 461 < |data| then data[from..from + 461] else data[from..], key, iv);
    && Says(d, 70, if from < |data| <= from + 461 then 0 else 2, id, index)
    && Carries(d, [|e| / 0x100 % 256, |e| % 256] + e)
  }

  /** A text: type 'T', at most 477 bytes, encrypted behind a length if there is a key. */
  ghost predicate CarriesText(c: Cipher, d: Data, id: nat, msg: Data, iv: nat, key: Option<Key>) {
    var cut := if |msg| > 477 then msg[..477] else msg;
    && Says(d, 84, 0, id, 0)
    && match key
       case None => Carries(d, cut)
       case Some(k) =>
         var e := c.enc(cut, k, iv);
         Carries(d, [|e| / 0x100 % 256, |e| % 256] + e)
  }

  lemma HeaderBytes(c: Cipher, id: nat, data: Data, name: Data)
    ensures AnnouncesFile(Wire(c, HeaderFor(id, data, name)), id, data, name)
  {
    hide Frame, ToBE, FromBE, Says;
    var p := PacketOf(c, HeaderFor(id, data, name));
    var cut := if |name| > 487 then name[..487] else name;
    FrameSays(p);
    var d := Frame(p);
    Widths();
    FromToBE(Total(data), 6);
    assert |p.payload| == 495 && p.payload[0..6] == ToBE(Total(data), 6) && p.payload[6] == 0;
    assert p.payload[7..7 + |cut|] == cut;
    InPayload(d, 0, 6);
    InPayload(d, 6, 7);
    InPayload(d, 7, 7 + |cut|);
    forall i | 20 + |cut| <= i < 508
      ensures d[i] == 0
    {
      assert d[i] == d[13..508][i - 13];
    }
  }

  lemma InPayload(d: Data, i: nat, j: nat)
    requires |d| == 512 && i <= j <= 495
    ensures d[13..508][i..j] == d[13 + i..13 + j]
    ensures i < j ==> d[13..508][i] == d[13 + i]
  {
    var s := d[13..508];
    assert forall k :: i <= k < j ==> s[k] == d[13 + k];
    assert s[i..j] == d[13 + i..13 + j];
  }

  lemma ChunkBytes(c: Cipher, id: nat, data: Data, index: nat, iv: nat, key: Key, again: bool)
    requires index * 461 <= |data|
    ensures CarriesChunk(c, Wire(c, ChunkFor(id, data, index, iv, key, again)), id, data, index, iv, key)
  {
    hide Frame, Payload, Sealed, Says, Carries;
    var p := PacketOf(c, ChunkFor(id, data, index, iv, key, again));
    var from := index * 461;
    var chunk := if from + 461 < |data| then data[from..from + 461] else data[from..];
    assert ChunkOf(data, index) == chunk;
    LastChunk(data, index);
    FrameSays(p);
    SealedIs(c.enc(chunk, key, iv));
    FrameCarries(p, Sealed(c.enc(chunk, key, iv)));
  }

  lemma LastChunk(data: Data, index: nat)
    ensures index + 1 == Total(data) <==> index * 461 < |data| <= index * 461 + 461
  {
  }

  lemma TextBytes(c: Cipher, id: nat, msg: Data, iv: nat, key: Option<Key>)
    ensures CarriesText(c, Wire(c, TextFor(id, msg, iv, key)), id, msg, iv, key)
  {
    hide Frame, Says, Carries;
    TextSays(c, key, msg, id, iv);
  }

  // ---- The steps

  /** A transfer and the index of the chunk its wait is for. */
  datatype Job = Job(id: nat, data: Data, total: nat, index: nat)

  predicate JobOk(job: Job) {
    job.total == Total(job.data) && job.index < Emitted(job.data)
  }

  /** `armed` is the wait the timer is running for, `due` are the waits that have expired and whose handlers are
      queued, in order. */
  datatype State = State(armed: Option<Job>, due: seq<Job>, log: seq<Sent>, stopped: bool)

  const START := State(None, [], [], false)

  /** `key` is what `load_key` finds at that moment, if it finds a key. */
  datatype Event =
    | File(id: nat, data: Data, name: Data)
    | Expire
    | Serve(iv: nat, key: Option<Key>)
    | Again(id: nat, data: Data, index: nat, iv: nat, key: Option<Key>)
    | Text(id: nat, msg: Data, iv: nat, key: Option<Key>)
    | Stop

  function SendFile(s: State, id: nat, data: Data, name: Data): State {
    if s.stopped then s
    else s.(armed := Some(Job(id, data, Total(data), 0)), log := s.log + [HeaderFor(id, data, name)])
  }

  /** The handler of the first expired wait runs. */
  function ServeFirst(s: State, iv: nat, key: Option<Key>): State {
    if s.due == [] then s
    else
      var job, rest := s.due[0], s.due[1..];
      if s.stopped || key.None? then s.(due := rest)
      else State(if job.index + 1 < job.total then Some(job.(index := job.index + 1)) else s.armed,
                 rest, s.log + [ChunkFor(job.id, job.data, job.index, iv, key.value, false)], s.stopped)
  }

  function Step(s: State, e: Event): State {
    match e
    case File(id, data, name) => SendFile(s, id, data, name)
    case Expire => if s.armed.None? then s else s.(armed := None, due := s.due + [s.armed.value])
    case Serve(iv, key) => ServeFirst(s, iv, key)
    case Again(id, data, index, iv, key) =>
      if s.stopped || index * CHUNK >= |data| || key.None? then s
      else s.(log := s.log + [ChunkFor(id, data, index, iv, key.value, true)])
    case Text(id, msg, iv, key) => if s.stopped then s else s.(log := s.log + [TextFor(id, msg, iv, key)])
    case Stop => s.(stopped := true)
  }

  function Exec(s: State, es: seq<Event>): State {
    if es == [] then s else Step(Exec(s, es[..|es| - 1]), es[|es| - 1])
  }

  // ---- Everything sent besides the chunks of the timer

  /** Headers, texts and chunks sent again, in order. */
  function Others(log: seq<Sent>): seq<Sent> {
    if log == [] then []
    else
      var before, last := Others(log[..|log| - 1]), log[|log| - 1];
      if last.ChunkFor? && !last.again then before else before + [last]
  }

  /** What the events ask for, read off the events alone: every file's header, every text, and every chunk asked for
      again that lies inside its file, with a key at hand, until the stop. */
  function Wanted(es: seq<Event>, stopped: bool): seq<Sent> {
    if es == [] then []
    else
      var init, last := es[..|es| - 1], es[|es| - 1];
      var before := Wanted(init, stopped);
      if stopped || Stop in init then before
      else match last
        case File(id, data, name) => before + [HeaderFor(id, data, name)]
        case Again(id, data, index, iv, key) =>
          if index * 461 < |data| && key.Some? then before + [ChunkFor(id, data, index, iv, key.value, true)] else before
        case Text(id, msg, iv, key) => before + [TextFor(id, msg, iv, key)]
        case _ => before
  }

  lemma OthersAppend(log: seq<Sent>, sent: Sent)
    ensures Others(log + [sent]) == if sent.ChunkFor? && !sent.again then Others(log) else Others(log) + [sent]
  {
    assert (log + [sent])[..|log|] == log;
  }

  lemma OthersOfStep(s: State, e: Event)
    ensures Others(Step(s, e).log) ==
            if s.stopped then Others(s.log)
            else match e
              case File(id, data, name) => Others(s.log) + [HeaderFor(id, data, name)]
              case Again(id, data, index, iv, key) =>
                if index * 461 < |data| && key.Some?
                then Others(s.log) + [ChunkFor(id, data, index, iv, key.value, true)] else Others(s.log)
              case Text(id, msg, iv, key) => Others(s.log) + [TextFor(id, msg, iv, key)]
              case _ => Others(s.log)
    ensures Step(s, e).stopped == (s.stopped || e == Stop)
  {
    hide Others, Total;
    match e
    case File(id, data, name) => OthersAppend(s.log, HeaderFor(id, data, name));
    case Serve(iv, key) =>
      if s.due != [] && key.Some? {
        OthersAppend(s.log, ChunkFor(s.due[0].id, s.due[0].data, s.due[0].index, iv, key.value, false));
      }
    case Again(id, data, index, iv, key) =>
      if key.Some? {
        OthersAppend(s.log, ChunkFor(id, data, index, iv, key.value, true));
      }
    case Text(id, msg, iv, key) => OthersAppend(s.log, TextFor(id, msg, iv, key));
    case _ =>
  }

  lemma {:induction false} StoppedByStop(s: State, es: seq<Event>)
    ensures Exec(s, es).stopped <==> s.stopped || Stop in es
    decreases |es|
  {
    if es != [] {
      StoppedByStop(s, es[..|es| - 1]);
      OthersOfStep(Exec(s, es[..|es| - 1]), es[|es| - 1]);
      assert es == es[..|es| - 1] + [es[|es| - 1]];
      hide Step;
    }
  }

  /** Over any list of events: besides the chunks of the timer, the sender sends exactly the headers, the texts and
      the chunks again that were asked for, in order. */
  lemma {:induction false} OthersAreWanted(s: State, es: seq<Event>)
    ensures Others(Exec(s, es).log) == Others(s.log) + Wanted(es, s.stopped)
    decreases |es|
  {
    if es == [] {
      assert Others(s.log) + [] == Others(s.log);
    } else {
      var init := es[..|es| - 1];
      OthersAreWanted(s, init);
      StoppedByStop(s, init);
      OthersOfStep(Exec(s, init), es[|es| - 1]);
      hide Step, Others;
    }
  }

  lemma {:induction false} OthersAreSent(log: seq<Sent>)
    ensures forall sent :: sent in Others(log) ==> sent in log
    decreases |log|
  {
    if log != [] {
      OthersAreSent(log[..|log| - 1]);
      assert log == log[..|log| - 1] + [log[|log| - 1]];
    }
  }

  /** Nothing that was sent is ever taken back. */
  lemma {:induction false} LogGrows(s: State, es: seq<Event>)
    ensures s.log <= Exec(s, es).log
    decreases |es|
  {
    if es != [] {
      LogGrows(s, es[..|es| - 1]);
    }
  }

  // ---- What one transfer has sent, and what it waits for

  predicate Runs(s: State, id: nat) {
    s.armed.Some? && s.armed.value.id == id
  }

  function Count(jobs: seq<Job>, id: nat): nat {
    if jobs == [] then 0 else (if jobs[0].id == id then 1 else 0) + Count(jobs[1..], id)
  }

  /** How many waits a transfer has: those that have expired, and the one the timer runs for. */
  function Waiting(s: State, id: nat): nat {
    Count(s.due, id) + if Runs(s, id) then 1 else 0
  }

  /** Every wait of the transfer is for this chunk. */
  predicate WaitsFor(s: State, job: Job) {
    && (Runs(s, job.id) ==> s.armed.value == job)
    && forall i :: 0 <= i < |s.due| && s.due[i].id == job.id ==> s.due[i] == job
  }

  lemma {:induction false} CountAppend(jobs: seq<Job>, job: Job, id: nat)
    ensures Count(jobs + [job], id) == Count(jobs, id) + if job.id == id then 1 else 0
  {
    if jobs == [] {
      assert (jobs + [job])[1..] == [];
    } else {
      assert (jobs + [job])[1..] == jobs[1..] + [job];
      CountAppend(jobs[1..], job, id);
    }
  }

  lemma {:induction false} CountZero(jobs: seq<Job>, id: nat)
    requires Count(jobs, id) == 0
    ensures forall i :: 0 <= i < |jobs| ==> jobs[i].id != id
  {
    if jobs != [] {
      CountZero(jobs[1..], id);
      assert forall i :: 0 < i < |jobs| ==> jobs[i] == jobs[1..][i - 1];
    }
  }

  predicate IsTick(sent: Sent, id: nat) {
    sent.ChunkFor? && !sent.again && sent.id == id
  }

  /** The chunks of one transfer that the timer sent, in order. */
  function TickChunks(log: seq<Sent>, id: nat): seq<Sent> {
    if log == [] then []
    else
      var before := TickChunks(log[..|log| - 1], id);
      if IsTick(log[|log| - 1], id) then before + [log[|log| - 1]] else before
  }

  lemma TickChunksAppend(log: seq<Sent>, sent: Sent, id: nat)
    ensures TickChunks(log + [sent], id) ==
            if IsTick(sent, id) then TickChunks(log, id) + [sent] else TickChunks(log, id)
  {
    assert (log + [sent])[..|log|] == log;
  }

  /** The first chunks of `data`, in order and without a gap. */
  predicate InOrder(chunks: seq<Sent>, id: nat, data: Data) {
    forall i :: 0 <= i < |chunks| ==>
      chunks[i].ChunkFor? && chunks[i] == ChunkFor(id, data, i, chunks[i].iv, chunks[i].key, false)
  }

  // ---- Exactly when a transfer is sent whole

  /** The guards that end transfer `id` before its time: another file starts while the timer runs for `id`; the
      handler of `id` runs after a stop or without a key; a late handler of another transfer arms the timer again
      while it runs for `id`. */
  predicate Cuts(s: State, e: Event, id: nat) {
    match e
    case File(_, _, _) => !s.stopped && Runs(s, id)
    case Serve(_, key) =>
      && s.due != []
      && (if s.due[0].id == id then s.stopped || key.None?
          else !s.stopped && key.Some? && s.due[0].index + 1 < s.due[0].total && Runs(s, id))
    case _ => false
  }

  predicate CutIn(s: State, es: seq<Event>, id: nat) {
    && es != []
    && (CutIn(s, es[..|es| - 1], id) || Cuts(Exec(s, es[..|es| - 1]), es[|es| - 1], id))
  }

  predicate Serves(s: State, e: Event, id: nat) {
    e.Serve? && s.due != [] && s.due[0].id == id && !Cuts(s, e, id)
  }

  /** The only step that adds a chunk of a tick to a transfer is its handler, running with a key. */
  lemma TicksOfStep(s: State, e: Event, id: nat)
    ensures TickChunks(Step(s, e).log, id) ==
            if Serves(s, e, id)
            then TickChunks(s.log, id) + [ChunkFor(id, s.due[0].data, s.due[0].index, e.iv, e.key.value, false)]
            else TickChunks(s.log, id)
  {
    hide TickChunks, Total;
    match e
    case File(id', data, name) =>
      TickChunksAppend(s.log, HeaderFor(id', data, name), id);
    case Serve(iv, key) =>
      if s.due != [] && key.Some? {
        TickChunksAppend(s.log, ChunkFor(s.due[0].id, s.due[0].data, s.due[0].index, iv, key.value, false), id);
      }
    case Again(id', data, index, iv, key) =>
      if key.Some? {
        TickChunksAppend(s.log, ChunkFor(id', data, index, iv, key.value, true), id);
      }
    case Text(id', msg, iv, key) =>
      TickChunksAppend(s.log, TextFor(id', msg, iv, key), id);
    case _ =>
  }

  /** Nothing of this message number was sent by a tick, and nothing waits for it. */
  predicate Fresh(s: State, id: nat) {
    TickChunks(s.log, id) == [] && Waiting(s, id) == 0
  }

  ghost predicate Tracks(s: State, id: nat, data: Data, cut: bool) {
    var sent := TickChunks(s.log, id);
    && InOrder(sent, id, data)
    && |sent| <= Emitted(data)
    && (cut ==> |sent| < Emitted(data))
    && Waiting(s, id) == (if cut || |sent| == Emitted(data) then 0 else 1)
    && WaitsFor(s, Job(id, data, Total(data), |sent|))
  }

  lemma StartTracks(s: State, id: nat, data: Data, name: Data)
    requires !s.stopped && Fresh(s, id)
    ensures Tracks(SendFile(s, id, data, name), id, data, false)
  {
    TickChunksAppend(s.log, HeaderFor(id, data, name), id);
    CountZero(s.due, id);
  }

  /** Events that neither start a file nor run a handler add no chunk of a tick and lose no wait. */
  lemma AsideTracks(s: State, e: Event, id: nat, data: Data, cut: bool)
    requires Tracks(s, id, data, cut) && !e.File? && !e.Serve?
    ensures Tracks(Step(s, e), id, data, cut) && !Cuts(s, e, id)
  {
    TicksOfStep(s, e, id);
    if e.Expire? && s.armed.Some? {
      CountAppend(s.due, s.armed.value, id);
    }
    hide TickChunks, Count, InOrder, Total;
  }

  lemma OtherFileTracks(s: State, other: nat, data': Data, name: Data, id: nat, data: Data, cut: bool)
    requires Tracks(s, id, data, cut) && other != id
    ensures Tracks(SendFile(s, other, data', name), id, data, cut || Cuts(s, File(other, data', name), id))
  {
    hide TickChunks, Count, InOrder;
    TickChunksAppend(s.log, HeaderFor(other, data', name), id);
  }

  /** The size announced and the number of chunks sent differ only for an empty file. */
  lemma MoreToCome(data: Data, index: nat)
    ensures index + 1 < Total(data) <==> index + 1 < Emitted(data)
  {
  }

  lemma InOrderMore(sent: seq<Sent>, id: nat, data: Data, iv: nat, key: Key)
    requires InOrder(sent, id, data)
    ensures InOrder(sent + [ChunkFor(id, data, |sent|, iv, key, false)], id, data)
  {
  }

  /** A queued handler of the transfer is its only wait. */
  lemma OwnWait(s: State, id: nat, data: Data, cut: bool)
    requires Tracks(s, id, data, cut) && s.due != [] && s.due[0].id == id
    ensures !cut && |TickChunks(s.log, id)| < Emitted(data) && !Runs(s, id)
    ensures s.due[0] == Job(id, data, Total(data), |TickChunks(s.log, id)|)
    ensures Count(s.due[1..], id) == 0 && forall i :: 0 < i < |s.due| ==> s.due[i].id != id
  {
    assert Count(s.due, id) == 1 + Count(s.due[1..], id);
    CountZero(s.due[1..], id);
    assert forall i :: 0 < i < |s.due| ==> s.due[i] == s.due[1..][i - 1];
    hide TickChunks, Count, Total, Emitted, InOrder;
  }

  lemma OwnHandlerTracks(s: State, iv: nat, key: Option<Key>, id: nat, data: Data, cut: bool)
    requires Tracks(s, id, data, cut) && s.due != [] && s.due[0].id == id
    ensures Tracks(ServeFirst(s, iv, key), id, data, cut || Cuts(s, Serve(iv, key), id))
  {
    hide TickChunks, Count, Total, Emitted, InOrder;
    OwnWait(s, id, data, cut);
    if key.Some? && !s.stopped {
      var sent := TickChunks(s.log, id);
      MoreToCome(data, |sent|);
      InOrderMore(sent, id, data, iv, key.value);
    }
    TicksOfStep(s, Serve(iv, key), id);
  }

  lemma CountRest(jobs: seq<Job>, id: nat)
    requires jobs != [] && jobs[0].id != id
    ensures Count(jobs, id) == Count(jobs[1..], id)
  {
  }

  lemma OtherHandlerTracks(s: State, iv: nat, key: Option<Key>, id: nat, data: Data, cut: bool)
    requires Tracks(s, id, data, cut) && s.due != [] && s.due[0].id != id
    ensures Tracks(ServeFirst(s, iv, key), id, data, cut || Cuts(s, Serve(iv, key), id))
  {
    hide TickChunks, Count, InOrder, Total, Emitted;
    assert Count(s.due, id) == Count(s.due[1..], id) by {
      CountRest(s.due, id);
    }
    assert forall i :: 0 < i < |s.due| ==> s.due[i] == s.due[1..][i - 1];
    TicksOfStep(s, Serve(iv, key), id);
  }

  lemma NoHandler(s: State, iv: nat, key: Option<Key>, id: nat)
    requires s.due == []
    ensures ServeFirst(s, iv, key) == s && !Cuts(s, Serve(iv, key), id)
  {
  }

  lemma {:induction false} RunTracks(s: State, es: seq<Event>, id: nat, data: Data)
    requires Tracks(s, id, data, false)
    requires forall e :: e in es && e.File? ==> e.id != id
    ensures Tracks(Exec(s, es), id, data, CutIn(s, es, id))
    decreases |es|
  {
    if es != [] {
      var before, e := es[..|es| - 1], es[|es| - 1];
      RunTracks(s, before, id, data);
      hide Tracks, Cuts, SendFile, ServeFirst;
      var r := Exec(s, before);
      match e
      case File(other, data', name) => OtherFileTracks(r, other, data', name, id, data, CutIn(s, before, id));
      case Serve(iv, key) =>
        if r.due != [] {
          if r.due[0].id == id {
            OwnHandlerTracks(r, iv, key, id, data, CutIn(s, before, id));
          } else {
            OtherHandlerTracks(r, iv, key, id, data, CutIn(s, before, id));
          }
        } else {
          NoHandler(r, iv, key, id);
        }
      case _ =>
        AsideTracks(r, e, id, data, CutIn(s, before, id));
    }
  }

  /** How many handlers of one transfer have run without cutting it. */
  function Served(s: State, es: seq<Event>, id: nat): nat {
    if es == [] then 0
    else Served(s, es[..|es| - 1], id) + if Serves(Exec(s, es[..|es| - 1]), es[|es| - 1], id) then 1 else 0
  }

  lemma {:induction false} ServedSends(s: State, es: seq<Event>, id: nat)
    ensures |TickChunks(Exec(s, es).log, id)| == |TickChunks(s.log, id)| + Served(s, es, id)
    decreases |es|
  {
    if es != [] {
      ServedSends(s, es[..|es| - 1], id);
      TicksOfStep(Exec(s, es[..|es| - 1]), es[|es| - 1], id);
      hide TickChunks, Serves, Step;
    }
  }

  /** A transfer over any list of events of its sender, with texts, resends, other files, lost keys and stops in
      between. What the timer has sent of it are its first chunks, in order and without a gap, one for each handler
      that ran. If the transfer was cut, some are missing and none waits to be sent; if not, it is sent whole or
      waits for its next chunk. */
  lemma {:induction false} TransferIsSentIff(s: State, id: nat, data: Data, name: Data, es: seq<Event>)
    requires !s.stopped && Fresh(s, id)
    requires forall e :: e in es && e.File? ==> e.id != id
    ensures var started := SendFile(s, id, data, name);
            var t := Exec(started, es);
            var sent := TickChunks(t.log, id);
            && InOrder(sent, id, data) && |sent| == Served(started, es, id) <= Emitted(data)
            && (if CutIn(started, es, id) then |sent| < Emitted(data) && Waiting(t, id) == 0
                else Waiting(t, id) == if |sent| < Emitted(data) then 1 else 0)
            && (Waiting(t, id) > 0 ==> WaitsFor(t, Job(id, data, Total(data), |sent|)))
            && (Waiting(t, id) == 0 ==> (|sent| == Emitted(data) <==> !CutIn(started, es, id)))
  {
    StartTracks(s, id, data, name);
    TickChunksAppend(s.log, HeaderFor(id, data, name), id);
    ServedSends(SendFile(s, id, data, name), es, id);
    RunTracks(SendFile(s, id, data, name), es, id, data);
    hide TickChunks, Waiting, WaitsFor, InOrder, CutIn, Exec, Served, Emitted;
  }

  // ---- No wait, no further chunk

  lemma {:induction false} NothingWaits(s: State, es: seq<Event>, id: nat)
    requires Waiting(s, id) == 0
    requires forall e :: e in es && e.File? ==> e.id != id
    ensures var t := Exec(s, es);
            TickChunks(t.log, id) == TickChunks(s.log, id) && Waiting(t, id) == 0
    decreases |es|
  {
    if es != [] {
      var before, e := es[..|es| - 1], es[|es| - 1];
      NothingWaits(s, before, id);
      hide Step;
      NothingWaitsStep(Exec(s, before), e, id);
    }
  }

  lemma NothingWaitsStep(s: State, e: Event, id: nat)
    requires Waiting(s, id) == 0 && (e.File? ==> e.id != id)
    ensures TickChunks(Step(s, e).log, id) == TickChunks(s.log, id) && Waiting(Step(s, e), id) == 0
  {
    TicksOfStep(s, e, id);
    if e.Expire? && s.armed.Some? {
      CountAppend(s.due, s.armed.value, id);
    }
    if e.Serve? && s.due != [] {
      assert Count(s.due, id) == Count(s.due[1..], id);
    }
    hide TickChunks, Count;
  }

  /** Starting a second file while the timer runs for the first ends the first: it has sent the chunks before the
      one it was waiting for, at least one is missing, and none is ever sent for it again. */
  lemma {:induction false} SecondTransferPreempts(s: State, id: nat, data: Data, name: Data, es: seq<Event>,
                                                  other: nat, data': Data, name': Data, more: seq<Event>)
    requires !s.stopped && Fresh(s, id) && other != id
    requires forall e :: (e in es || e in more) && e.File? ==> e.id != id
    requires var t := Exec(SendFile(s, id, data, name), es);
             !t.stopped && Runs(t, id)
    ensures var t := Exec(SendFile(s, id, data, name), es);
            var u := Exec(SendFile(t, other, data', name'), more);
            var sent := TickChunks(u.log, id);
            && sent == TickChunks(t.log, id) && InOrder(sent, id, data)
            && |sent| == t.armed.value.index < Emitted(data)
  {
    var t := Exec(SendFile(s, id, data, name), es);
    StartTracks(s, id, data, name);
    RunTracks(SendFile(s, id, data, name), es, id, data);
    TickChunksAppend(t.log, HeaderFor(other, data', name'), id);
    hide TickChunks, Count, Exec, CutIn, InOrder, Total;
    NothingWaits(SendFile(t, other, data', name'), more, id);
  }

  /** The other way round when the first file's wait has already expired: its handler still sends a chunk, arms
      the timer again, and so ends the second file before its first chunk. */
  lemma {:induction false} LateHandlerPreempts(s: State, id: nat, data: Data, name: Data, iv: nat, key: Key, more: seq<Event>)
    requires !s.stopped && Fresh(s, id)
    requires s.due != [] && s.due[0].id != id && s.due[0].index + 1 < s.due[0].total
    requires forall e :: e in more && e.File? ==> e.id != id
    ensures var t := ServeFirst(SendFile(s, id, data, name), iv, Some(key));
            && t.armed == Some(s.due[0].(index := s.due[0].index + 1))
            && TickChunks(Exec(t, more).log, id) == [] && Emitted(data) > 0
  {
    LateHandler(s, id, data, name, iv, key);
    hide TickChunks, Waiting, Exec, Total, ServeFirst, SendFile;
    NothingWaits(ServeFirst(SendFile(s, id, data, name), iv, Some(key)), more, id);
  }

  lemma LateHandler(s: State, id: nat, data: Data, name: Data, iv: nat, key: Key)
    requires !s.stopped && Fresh(s, id)
    requires s.due != [] && s.due[0].id != id && s.due[0].index + 1 < s.due[0].total
    ensures var t := ServeFirst(SendFile(s, id, data, name), iv, Some(key));
            && t.armed == Some(s.due[0].(index := s.due[0].index + 1))
            && TickChunks(t.log, id) == [] && Waiting(t, id) == 0
  {
    var started, late := SendFile(s, id, data, name), s.due[0];
    TickChunksAppend(s.log, HeaderFor(id, data, name), id);
    TickChunksAppend(started.log, ChunkFor(late.id, late.data, late.index, iv, key, false), id);
    assert Count(s.due, id) == Count(s.due[1..], id);
    hide TickChunks, Count, Total;
  }

  // ---- A transfer no other transfer comes between

  /** How often a wait expired and its handler then ran, and whether an expired one is due. */
  function Beats(es: seq<Event>): (nat, bool) {
    if es == [] then (0, false)
    else
      var (n, due) := Beats(es[..|es| - 1]);
      match es[|es| - 1]
      case Expire => (n, true)
      case Serve(_, _) => if due then (n + 1, false) else (n, due)
      case _ => (n, due)
  }

  predicate Undisturbing(e: Event) {
    !e.File? && !e.Stop? && (e.Serve? ==> e.key.Some?)
  }

  ghost predicate Alone(s: State, id: nat, data: Data, beats: nat, due: bool) {
    var n := Min(beats, Emitted(data));
    var job := Job(id, data, Total(data), n);
    && !s.stopped && |TickChunks(s.log, id)| == n
    && (if n == Emitted(data) then s.armed == None && s.due == []
        else if due then s.armed == None && s.due == [job]
        else s.armed == Some(job) && s.due == [])
  }

  lemma AloneStep(s: State, e: Event, id: nat, data: Data, beats: nat, due: bool)
    requires Alone(s, id, data, beats, due) && Undisturbing(e)
    ensures match e
            case Expire => Alone(Step(s, e), id, data, beats, true)
            case Serve(_, _) => if due then Alone(Step(s, e), id, data, beats + 1, false)
                                else Alone(Step(s, e), id, data, beats, due)
            case _ => Alone(Step(s, e), id, data, beats, due)
  {
    TicksOfStep(s, e, id);
    hide TickChunks, Total;
  }

  lemma {:induction false} AloneRun(s: State, id: nat, data: Data, es: seq<Event>)
    requires Alone(s, id, data, 0, false)
    requires forall i :: 0 <= i < |es| ==> Undisturbing(es[i])
    ensures Alone(Exec(s, es), id, data, Beats(es).0, Beats(es).1)
    decreases |es|
  {
    if es != [] {
      var before, e := es[..|es| - 1], es[|es| - 1];
      AloneRun(s, id, data, before);
      hide Alone, Step;
      assert Undisturbing(e);
      AloneStep(Exec(s, before), e, id, data, Beats(before).0, Beats(before).1);
    }
  }

  /** Left to itself, with any texts and resends in between, a transfer sends one chunk for each beat of the timer
      until all are sent, and then leaves no wait behind. */
  lemma {:induction false} UndisturbedTransfer(s: State, id: nat, data: Data, name: Data, es: seq<Event>)
    requires !s.stopped && TickChunks(s.log, id) == [] && s.armed == None && s.due == []
    requires forall i :: 0 <= i < |es| ==> Undisturbing(es[i])
    ensures var t := Exec(SendFile(s, id, data, name), es);
            var sent := TickChunks(t.log, id);
            && InOrder(sent, id, data) && |sent| == Min(Beats(es).0, Emitted(data))
            && (Beats(es).0 >= Emitted(data) <==> t.armed == None && t.due == [])
  {
    TickChunksAppend(s.log, HeaderFor(id, data, name), id);
    AloneRun(SendFile(s, id, data, name), id, data, es);
    TransferIsSentIff(s, id, data, name, es);
    hide InOrder, TickChunks, CutIn, Exec, Beats, Total;
  }

  // ---- The object of the client

  class UdpSender {
    const cipher: Cipher
    var armed: Option<Job>
    var due: seq<Job>
    var network: seq<Data>
    var stopped: bool
    ghost var log: seq<Sent>

    ghost function Value(): State
      reads this
    {
      State(armed, due, log, stopped)
    }

    ghost predicate Valid()
      reads this
    {
      && network == Wires(cipher, log)
      && (armed.Some? ==> JobOk(armed.value))
      && forall i :: 0 <= i < |due| ==> JobOk(due[i])
    }

    constructor (cipher: Cipher)
      ensures Valid() && Value() == START && this.cipher == cipher
    {
      this.cipher := cipher;
      armed, due, network, stopped, log := None, [], [], false, [];
    }

    /** `send_arr` and its kin: the frame goes out. */
    method Transmit(p: Packet, ghost sent: Sent)
      requires Valid() && p == PacketOf(cipher, sent)
      modifies this`network, this`log
      ensures Valid() && log == old(log) + [sent]
      ensures network == old(network) + [Wire(cipher, sent)]
    {
      hide Frame;
      var bytes := GetBytes(p);
      network := network + [bytes[..]];
      log := log + [sent];
    }

    method HeaderContent(data: Data, total: nat, name: Data) returns (payload: Data)
      requires total == Total(data)
      ensures payload == HeaderPayload(data, name)
    {
      var cut := name[..Min(|name|, LONGEST_NAME)];
      payload := ToBE(total, 6) + [0] + cut + seq(PAYLOAD - 7 - |cut|, _ => 0);
    }

    method SendHeader(id: nat, data: Data, total: nat, name: Data)
      requires Valid() && total == Total(data)
      modifies this`network, this`log
      ensures Valid() && log == old(log) + [HeaderFor(id, data, name)]
      ensures |network| == |old(network)| + 1 && network[..|old(network)|] == old(network)
      ensures AnnouncesFile(network[|old(network)|], id, data, name)
    {
      hide AnnouncesFile, Wire, HeaderPayload;
      HeaderBytes(cipher, id, data, name);
      var payload := HeaderContent(data, total, name);
      Transmit(Packet(FILE, 1, id, total, payload), HeaderFor(id, data, name));
    }

    method StartFile(id: nat, data: Data, name: Data)
      requires Valid()
      modifies this
      ensures Valid() && Value() == Step(old(Value()), File(id, data, name))
      ensures if old(stopped) then network == old(network)
              else |network| == |old(network)| + 1 && network[..|old(network)|] == old(network)
                   && AnnouncesFile(network[|old(network)|], id, data, name)
    {
      hide AnnouncesFile, Wire;
      if stopped {
        return;
      }
      var total := (|data| + 460) / 461;
      SendHeader(id, data, total, name);
      armed := Some(Job(id, data, total, 0));
    }

    /** The timer runs out: the handler is queued. */
    method TimerExpires()
      requires Valid()
      modifies this`armed, this`due
      ensures Valid() && Value() == Step(old(Value()), Expire)
    {
      if armed.Some? {
        due := due + [armed.value];
        armed := None;
      }
    }

    method SendChunk(id: nat, data: Data, total: nat, index: nat, iv: nat, key: Key, ghost again: bool)
      requires Valid() && total == Total(data) && index * CHUNK <= |data|
      modifies this`network, this`log
      ensures Valid() && log == old(log) + [ChunkFor(id, data, index, iv, key, again)]
      ensures |network| == |old(network)| + 1 && network[..|old(network)|] == old(network)
      ensures CarriesChunk(cipher, network[|old(network)|], id, data, index, iv, key)
    {
      hide CarriesChunk;
      ChunkBytes(cipher, id, data, index, iv, key, again);
      var offset := index * CHUNK;
      var remaining := |data| - offset;
      var size := Min(remaining, CHUNK);
      var chunk := data[offset..offset + size];
      assert chunk == ChunkOf(data, index);
      var encrypted := cipher.enc(chunk, key, iv);
      var quantity := if index + 1 == total then 0 else 2;
      Transmit(Packet(FILE, quantity, id, index, Payload(Sealed(encrypted))),
               ChunkFor(id, data, index, iv, key, again));
    }

    /** The handler of the first expired wait, and `send_file_packet`. */
    method OnTick(iv: nat, key: Option<Key>)
      requires Valid()
      modifies this
      ensures Valid() && Value() == Step(old(Value()), Serve(iv, key))
      ensures if old(due) == [] || old(stopped) || key.None? then network == old(network)
              else |network| == |old(network)| + 1 && network[..|old(network)|] == old(network)
                   && var job := old(due)[0];
                      job.index * 461 <= |job.data|
                      && CarriesChunk(cipher, network[|old(network)|], job.id, job.data, job.index, iv, key.value)
    {
      hide CarriesChunk, Total, Emitted;
      if due != [] {
        MoreToCome(due[0].data, due[0].index);
      }
      if due == [] {
        return;
      }
      var job := due[0];
      due := due[1..];
      if stopped || key.None? {
        return;
      }
      OffsetInside(job.data, job.index);
      SendChunk(job.id, job.data, job.total, job.index, iv, key.value, false);
      if job.index + 1 < job.total {
        armed := Some(job.(index := job.index + 1));
      }
    }

    method ResendFile(id: nat, data: Data, index: nat, iv: nat, key: Option<Key>)
      requires Valid()
      modifies this
      ensures Valid() && Value() == Step(old(Value()), Again(id, data, index, iv, key))
      ensures if old(stopped) || index * 461 >= |data| || key.None? then network == old(network)
              else |network| == |old(network)| + 1 && network[..|old(network)|] == old(network)
                   && CarriesChunk(cipher, network[|old(network)|], id, data, index, iv, key.value)
    {
      hide CarriesChunk;
      if stopped || index * CHUNK >= |data| || key.None? {
        return;
      }
      SendChunk(id, data, (|data| + 460) / 461, index, iv, key.value, true);
    }

    /** After `stop` the socket is closed, so the text does not leave. */
    method SendTextMessage(id: nat, msg: Data, iv: nat, key: Option<Key>)
      requires Valid()
      modifies this
      ensures Valid() && Value() == Step(old(Value()), Text(id, msg, iv, key))
      ensures if old(stopped) then network == old(network)
              else |network| == |old(network)| + 1 && network[..|old(network)|] == old(network)
                   && CarriesText(cipher, network[|old(network)|], id, msg, iv, key)
    {
      hide CarriesText;
      TextBytes(cipher, id, msg, iv, key);
      if !stopped {
        Transmit(TextPacket(cipher, key, msg, id, iv), TextFor(id, msg, iv, key));
      }
    }

    /** `stop` leaves the waits of the file timer alone; their handlers find the flag set. */
    method StopServer()
      requires Valid()
      modifies this`stopped
      ensures Valid() && Value() == Step(old(Value()), Stop)
    {
      stopped := true;
    }
  }
}
