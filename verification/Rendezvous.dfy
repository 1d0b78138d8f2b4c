/** What the coordinating server guarantees over whole runs of registrations, check-ins and sweeps. */
module Rendezvous {
  import opened Basics
  import opened Bytes
  import opened Crypto
  import opened Wire
  import opened Server

  /** `Request` is a routine request as received: the UUID in front, the encrypted part, the address it came
      from, the clock, and the random choice made for the answer. */
  datatype Event =
    | Register(uuid: Data, key: Key)
    | Request(uuid: Data, encrypted: Data, publicIp: Data, now: nat, iv: nat)
    | Sweep(now: nat)

  /** The frame layer hands over 36 UUID bytes; an address in text form is short. */
  predicate WellFramed(e: Event) {
    e.Request? ==> |e.uuid| == UUID && |e.publicIp| <= 255
  }

  const INITIAL := State(map[], map[])

  /** The request an event brings into the table, if it is one and is not rejected. */
  function Taken(c: Cipher, s: State, e: Event): Option<Parsed> {
    if e.Request? then Accepted(c, s, e.uuid, e.encrypted) else None
  }

  function Step(c: Cipher, s: State, e: Event): State {
    match e
    case Register(uuid, key) => s.(keys := s.keys[uuid := key])
    case Request(uuid, encrypted, publicIp, now, _) =>
      (match Accepted(c, s, uuid, encrypted)
       case None => s
       case Some(r) => CheckIn(s, uuid, publicIp, r, now))
    case Sweep(now) => s.(table := Swept(s.table, now))
  }

  function RunFrom(c: Cipher, s: State, events: seq<Event>): State
    decreases |events|
  {
    if events == [] then s
    else Step(c, RunFrom(c, s, events[..|events| - 1]), events[|events| - 1])
  }

  function Run(c: Cipher, events: seq<Event>): State {
    RunFrom(c, INITIAL, events)
  }

  // ---- The invariant of reachable tables

  predicate SessionOk(uuid: Data, x: Session) {
    && x.uuid == uuid && |uuid| == UUID
    && |x.publicIp| <= 255 && |x.localIp| <= 255
    && |x.ports| <= MOST_PORTS
    && |x.targets| <= MOST_TARGETS && (forall i :: 0 <= i < |x.targets| ==> |x.targets[i]| == UUID)
  }

  predicate TableOk(t: Table) {
    forall u :: u in t ==> SessionOk(u, t[u])
  }

  lemma StepKeepsTable(c: Cipher, s: State, e: Event)
    requires TableOk(s.table) && WellFramed(e)
    ensures TableOk(Step(c, s, e).table)
  {
    hide Parse;
    if Taken(c, s, e).Some? {
      var r := Taken(c, s, e).value;
      ParseIsRequest(c.dec(e.encrypted, KeyOf(s, e.uuid).value).value);
      PortSetSize(r.ports);
    }
  }

  lemma {:induction false} ReachableTableOk(c: Cipher, events: seq<Event>)
    requires forall i :: 0 <= i < |events| ==> WellFramed(events[i])
    ensures TableOk(Run(c, events).table)
    decreases |events|
  {
    hide TableOk, Step, WellFramed;
    if events == [] {
      assert TableOk(INITIAL.table) by { EmptyTableOk(); }
    } else {
      var last := events[|events| - 1];
      assert WellFramed(last);
      ReachableTableOk(c, events[..|events| - 1]);
      StepKeepsTable(c, Run(c, events[..|events| - 1]), last);
    }
  }

  lemma EmptyTableOk()
    ensures TableOk(map[])
  {
  }

  /** The two ports of a listed peer: the two smallest both sides have free. */
  predicate GoodPorts(mine: set<nat>, theirs: set<nat>, p: Peer) {
    var lo, hi := Min(p.iport, p.oport), p.iport + p.oport - Min(p.iport, p.oport);
    && FIRST_PORT <= lo < hi <= LAST_PORT
    && Free(mine, theirs, lo) && Free(mine, theirs, hi)
    && forall q :: FIRST_PORT <= q < hi && q != lo ==> !Free(mine, theirs, q)
  }

  lemma MatchIsGood(t: Table, uuid: Data, publicIp: Data, ports: set<nat>, target: Data)
    requires TableOk(t) && |ports| <= MOST_PORTS
    ensures var m := MatchFor(t, uuid, publicIp, ports, target);
            m.Some? ==>
              m.value.uuid == target && target in t && PeerFits(m.value) && GoodPorts(ports, t[target].ports, m.value)
  {
    if target in t {
      assert SessionOk(target, t[target]);
      TwoPortsExist(ports, t[target].ports);
    }
  }

  lemma {:induction false} MatchesFit(t: Table, uuid: Data, publicIp: Data, ports: set<nat>, targets: seq<Data>)
    requires TableOk(t) && |ports| <= MOST_PORTS
    ensures var ps := Matches(t, uuid, publicIp, ports, targets);
            && |ps| <= |targets|
            && forall i :: 0 <= i < |ps| ==>
                 PeerFits(ps[i]) && ps[i].uuid in t && GoodPorts(ports, t[ps[i].uuid].ports, ps[i])
    decreases |targets|
  {
    hide MatchFor, GoodPorts, PeerFits, TableOk;
    if targets != [] {
      MatchIsGood(t, uuid, publicIp, ports, targets[0]);
      MatchesFit(t, uuid, publicIp, ports, targets[1..]);
    }
  }

  lemma AnswerIsGood(c: Cipher, s: State, e: Event)
    requires TableOk(s.table) && WellFramed(e) && e.Request? && Taken(c, s, e).Some?
    ensures var r := Taken(c, s, e).value;
            var t := Step(c, s, e).table;
            var ps := Answer(s, e.uuid, e.publicIp, r, e.now);
            && (forall i :: 0 <= i < |ps| ==>
                  ps[i].uuid in t && GoodPorts(PortSet(r.ports), t[ps[i].uuid].ports, ps[i]))
            && ParseResponse(Response(ps)) == Some(ps)
  {
    hide Parse, GoodPorts, PeerFits, Matches, Response, ParseResponse, PortSet;
    var r := Taken(c, s, e).value;
    StepKeepsTable(c, s, e);
    ParseIsRequest(c.dec(e.encrypted, KeyOf(s, e.uuid).value).value);
    PortSetSize(r.ports);
    MatchesFit(Step(c, s, e).table, e.uuid, e.publicIp, PortSet(r.ports), r.targets);
    ResponseRoundTrip(Answer(s, e.uuid, e.publicIp, r, e.now));
  }

  /** An answer stays far below what the length field of a frame can hold. */
  lemma AnswerIsShort(c: Cipher, s: State, e: Event)
    requires TableOk(s.table) && WellFramed(e) && e.Request? && Taken(c, s, e).Some?
    ensures |Response(Answer(s, e.uuid, e.publicIp, Taken(c, s, e).value, e.now))| <= 2 + 296 * MOST_TARGETS
  {
    hide Parse, GoodPorts, PeerFits, Matches, PeersBytes, ParseResponse, PortSet;
    var r := Taken(c, s, e).value;
    StepKeepsTable(c, s, e);
    ParseIsRequest(c.dec(e.encrypted, KeyOf(s, e.uuid).value).value);
    PortSetSize(r.ports);
    MatchesFit(Step(c, s, e).table, e.uuid, e.publicIp, PortSet(r.ports), r.targets);
    PeersAreShort(Answer(s, e.uuid, e.publicIp, r, e.now));
  }

  /** In every reachable state every answer lists peers with two distinct ports in 8888..30000, the two smallest
      free for both sides, and the client reads back exactly the peers the server listed. */
  lemma AnswersAreGood(c: Cipher, events: seq<Event>, e: Event)
    requires forall i :: 0 <= i < |events| ==> WellFramed(events[i])
    requires WellFramed(e) && e.Request? && Taken(c, Run(c, events), e).Some?
    ensures var s := Run(c, events);
            var r := Taken(c, s, e).value;
            var t := Step(c, s, e).table;
            var ps := Answer(s, e.uuid, e.publicIp, r, e.now);
            && (forall i :: 0 <= i < |ps| ==>
                  ps[i].uuid in t && GoodPorts(PortSet(r.ports), t[ps[i].uuid].ports, ps[i]))
            && ParseResponse(Response(ps)) == Some(ps)
  {
    ReachableTableOk(c, events);
    AnswerIsGood(c, Run(c, events), e);
  }

  // ---- Consent over whole runs

  /** Event `i` of the run is an accepted check-in of `u`. */
  predicate ChecksIn(c: Cipher, events: seq<Event>, i: nat, u: Data)
    requires i < |events|
  {
    events[i].Request? && events[i].uuid == u && Taken(c, Run(c, events[..i]), events[i]).Some?
  }

  /** The latest accepted check-in of `u`. */
  ghost predicate Latest(c: Cipher, events: seq<Event>, i: nat, u: Data) {
    && i < |events| && ChecksIn(c, events, i, u)
    && forall j :: i < j < |events| ==> !ChecksIn(c, events, j, u)
  }

  /** No sweep since then found it older than thirty seconds. */
  ghost predicate Survives(events: seq<Event>, i: nat)
    requires i < |events| && events[i].Request?
  {
    forall j :: i < j < |events| && events[j].Sweep? ==> events[j].now - events[i].now <= LIFETIME
  }

  function SessionAt(c: Cipher, events: seq<Event>, i: nat, u: Data): Session
    requires i < |events| && ChecksIn(c, events, i, u)
  {
    var e, s := events[i], Run(c, events[..i]);
    SessionOf(u, e.publicIp, Taken(c, s, e).value, e.now, KeyOf(s, u).value)
  }

  ghost predicate LiveFrom(c: Cipher, events: seq<Event>, i: nat, u: Data) {
    Latest(c, events, i, u) && Survives(events, i)
  }

  /** A session lasts exactly as long as the history says. */
  ghost predicate TableIsHistory(c: Cipher, events: seq<Event>, u: Data) {
    && (u in Run(c, events).table <==> exists i :: LiveFrom(c, events, i, u))
    && (forall i :: LiveFrom(c, events, i, u) ==>
          u in Run(c, events).table && Run(c, events).table[u] == SessionAt(c, events, i, u))
  }

  lemma PrefixChecksIn(c: Cipher, init: seq<Event>, e: Event, i: nat, u: Data)
    requires i < |init|
    ensures ChecksIn(c, init + [e], i, u) == ChecksIn(c, init, i, u)
    ensures ChecksIn(c, init, i, u) ==> SessionAt(c, init + [e], i, u) == SessionAt(c, init, i, u)
  {
    assert (init + [e])[..i] == init[..i];
  }

  lemma LastChecksIn(c: Cipher, init: seq<Event>, e: Event, u: Data)
    ensures ChecksIn(c, init + [e], |init|, u) <==>
            e.Request? && e.uuid == u && Taken(c, Run(c, init), e).Some?
  {
    assert (init + [e])[..|init|] == init;
  }

  /** How liveness changes with one more event. */
  lemma LiveAfter(c: Cipher, init: seq<Event>, e: Event, i: nat, u: Data)
    ensures var all := init + [e];
            LiveFrom(c, all, i, u) <==>
            if e.Request? && e.uuid == u && Taken(c, Run(c, init), e).Some? then i == |init|
            else LiveFrom(c, init, i, u) && (e.Sweep? ==> e.now - init[i].now <= LIFETIME)
  {
    hide Run, Taken;
    var all := init + [e];
    LastChecksIn(c, init, e, u);
    forall j: nat | j < |init|
      ensures ChecksIn(c, all, j, u) == ChecksIn(c, init, j, u)
    {
      PrefixChecksIn(c, init, e, j, u);
    }
    hide ChecksIn;
    assert all[|init|] == e;
    assert forall j :: 0 <= j < |init| ==> all[j] == init[j];
    if i < |init| {
      assert Latest(c, all, i, u) <==> Latest(c, init, i, u) && !ChecksIn(c, all, |init|, u);
    }
  }

  lemma RunLast(c: Cipher, init: seq<Event>, e: Event)
    ensures Run(c, init + [e]) == Step(c, Run(c, init), e)
  {
    assert (init + [e])[..|init|] == init;
  }

  lemma HistoryStep(c: Cipher, init: seq<Event>, e: Event, u: Data)
    requires TableIsHistory(c, init, u)
    ensures TableIsHistory(c, init + [e], u)
  {
    var all, s := init + [e], Run(c, init);
    RunLast(c, init, e);
    forall i: nat
      ensures LiveFrom(c, all, i, u) <==>
              if e.Request? && e.uuid == u && Taken(c, s, e).Some? then i == |init|
              else LiveFrom(c, init, i, u) && (e.Sweep? ==> e.now - init[i].now <= LIFETIME)
    {
      LiveAfter(c, init, e, i, u);
    }
    if e.Request? && e.uuid == u && Taken(c, s, e).Some? {
      assert all[..|init|] == init;
      LiveAfter(c, init, e, |init|, u);
    } else {
      NotTaken(c, init, e, u);
    }
  }

  lemma NotTaken(c: Cipher, init: seq<Event>, e: Event, u: Data)
    requires TableIsHistory(c, init, u)
    requires !(e.Request? && e.uuid == u && Taken(c, Run(c, init), e).Some?)
    ensures TableIsHistory(c, init + [e], u)
  {
    var all, s := init + [e], Run(c, init);
    RunLast(c, init, e);
    var t := Run(c, all).table;
    assert u in t <==> u in s.table && (e.Sweep? ==> e.now - s.table[u].lastSeen <= LIFETIME);
    assert u in t ==> t[u] == s.table[u];
    hide Run, Step, Latest, Survives;
    forall i | LiveFrom(c, all, i, u)
      ensures u in t && t[u] == SessionAt(c, all, i, u)
    {
      LiveAfter(c, init, e, i, u);
      PrefixChecksIn(c, init, e, i, u);
      assert s.table[u] == SessionAt(c, init, i, u);
    }
    if u in t {
      var i :| LiveFrom(c, init, i, u);
      LiveAfter(c, init, e, i, u);
      assert s.table[u] == SessionAt(c, init, i, u);
      assert LiveFrom(c, all, i, u);
    }
  }

  lemma {:induction false} TableIsAlwaysHistory(c: Cipher, events: seq<Event>, u: Data)
    ensures TableIsHistory(c, events, u)
    decreases |events|
  {
    if events == [] {
      assert Run(c, events) == INITIAL;
    } else {
      hide TableIsHistory;
      var init, e := events[..|events| - 1], events[|events| - 1];
      TableIsAlwaysHistory(c, init, u);
      HistoryStep(c, init, e, u);
      assert init + [e] == events;
    }
  }

  /** A live session holds what its latest accepted check-in said: the address that request named, the address it
      came from, its ports, targets and time, and the key it was accepted under. */
  lemma LiveSessionIs(c: Cipher, events: seq<Event>, i: nat, u: Data)
    requires LiveFrom(c, events, i, u)
    ensures var t, e := Run(c, events).table, events[i];
            var r := Taken(c, Run(c, events[..i]), e).value;
            && u in t
            && t[u].uuid == u && t[u].publicIp == e.publicIp && t[u].localIp == r.ip
            && (forall q: nat :: q in t[u].ports <==> q in r.ports)
            && t[u].targets == r.targets && t[u].lastSeen == e.now
            && KeyOf(Run(c, events[..i]), u) == Some(t[u].key)
  {
    TableIsAlwaysHistory(c, events, u);
    hide Run, Parse, Survives;
    assert Latest(c, events, i, u) && ChecksIn(c, events, i, u);
    assert Run(c, events).table[u] == SessionAt(c, events, i, u);
  }

  /** What an answer says about another client B, in terms of the two requests: B's local address if both came from
      the same public one, else B's public address; the two smallest ports from 8888 on that neither named busy; and
      the client whose number comes first listens on the larger of them. */
  ghost predicate DescribedBy(p: Peer, e: Event, r: Parsed, eb: Event, rb: Parsed)
    requires e.Request? && eb.Request?
  {
    && p.ip == (if e.publicIp == eb.publicIp then rb.ip else eb.publicIp)
    && var lo, hi := if p.iport < p.oport then p.iport else p.oport, if p.iport < p.oport then p.oport else p.iport;
       && 8888 <= lo < hi <= 30000
       && (forall q: nat :: 8888 <= q <= hi ==> (q == lo || q == hi <==> q !in r.ports && q !in rb.ports))
       && (p.iport == hi <==> Precedes(e.uuid, p.uuid))
  }

  lemma ListedPeerIs(c: Cipher, events: seq<Event>, e: Event, p: Peer, i: nat)
    requires forall j :: 0 <= j < |events| ==> WellFramed(events[j])
    requires WellFramed(e) && e.Request? && Taken(c, Run(c, events), e).Some? && p.uuid != e.uuid
    requires p in Answer(Run(c, events), e.uuid, e.publicIp, Taken(c, Run(c, events), e).value, e.now)
    requires LiveFrom(c, events, i, p.uuid)
    ensures var rb := Taken(c, Run(c, events[..i]), events[i]).value;
            DescribedBy(p, e, Taken(c, Run(c, events), e).value, events[i], rb)
  {
    hide *;
    var s := Run(c, events);
    var r := Taken(c, s, e).value;
    var t := Step(c, s, e).table;
    WasRequest(c, events, i, p.uuid);
    LiveSessionIs(c, events, i, p.uuid);
    ReachableTableOk(c, events);
    StepKeepsTable(c, s, e);
    AfterCheckIn(c, s, e);
    TakenFits(c, s, e);
    ListedIs(t, e, r, p);
    SamePeer(t[p.uuid], e, r, p, events[i], Taken(c, Run(c, events[..i]), events[i]).value);
  }

  lemma WasRequest(c: Cipher, events: seq<Event>, i: nat, u: Data)
    requires LiveFrom(c, events, i, u)
    ensures i < |events| && events[i].Request? && Taken(c, Run(c, events[..i]), events[i]).Some?
  {
  }

  /** The same in terms of the session it was read from. */
  ghost predicate DescribedBySession(p: Peer, e: Event, r: Parsed, x: Session)
    requires e.Request?
  {
    && p.ip == (if e.publicIp == x.publicIp then x.localIp else x.publicIp)
    && var lo, hi := if p.iport < p.oport then p.iport else p.oport, if p.iport < p.oport then p.oport else p.iport;
       && 8888 <= lo < hi <= 30000
       && (forall q: nat :: 8888 <= q <= hi ==> (q == lo || q == hi <==> q !in r.ports && q !in x.ports))
       && (p.iport == hi <==> Precedes(e.uuid, p.uuid))
  }

  lemma SamePeer(x: Session, e: Event, r: Parsed, p: Peer, eb: Event, rb: Parsed)
    requires e.Request? && eb.Request? && DescribedBySession(p, e, r, x)
    requires x.publicIp == eb.publicIp && x.localIp == rb.ip && forall q: nat :: q in x.ports <==> q in rb.ports
    ensures DescribedBy(p, e, r, eb, rb)
  {
  }

  lemma ListedIs(t: Table, e: Event, r: Parsed, p: Peer)
    requires TableOk(t) && e.Request? && |r.ports| <= MOST_PORTS
    requires p in Matches(t, e.uuid, e.publicIp, PortSet(r.ports), r.targets)
    ensures p.uuid in t && DescribedBySession(p, e, r, t[p.uuid])
  {
    ListedAs(t, e.uuid, e.publicIp, PortSet(r.ports), r.targets, p);
    assert SessionOk(p.uuid, t[p.uuid]);
    InPortSet(r.ports);
    LessIsLexicographic(e.uuid, p.uuid);
    hide Matches, PortSet, PortPair, Less, TableOk, Precedes;
    PortSetSize(r.ports);
    TwoPortsExist(PortSet(r.ports), t[p.uuid].ports);
    var (p1, p2) := PortPair(PortSet(r.ports), t[p.uuid].ports);
    assert 8888 <= p1 < p2 <= 30000;
    forall q: nat | 8888 <= q <= p2
      ensures q == p1 || q == p2 <==> q !in r.ports && q !in t[p.uuid].ports
    {
      assert Free(PortSet(r.ports), t[p.uuid].ports, q) <==> q == p1 || q == p2;
      assert q in PortSet(r.ports) <==> q in r.ports;
    }
    assert p.iport == p2 <==> Precedes(e.uuid, p.uuid);
    assert p.ip == (if e.publicIp == t[p.uuid].publicIp then t[p.uuid].localIp else t[p.uuid].publicIp);
  }

  lemma TakenFits(c: Cipher, s: State, e: Event)
    requires Taken(c, s, e).Some?
    ensures |Taken(c, s, e).value.ports| <= MOST_PORTS
  {
    hide Parse;
    ParseIsRequest(c.dec(e.encrypted, KeyOf(s, e.uuid).value).value);
  }

  lemma InPortSet(ports: seq<nat>)
    ensures forall q: nat :: q in PortSet(ports) <==> q in ports
  {
  }

  /** An accepted check-in of A is answered with B exactly when A just asked for B and either B is A itself, whose
      session is already stored, or B has an accepted check-in that is its latest, that no sweep has expired, and
      that asked for A. */
  lemma Consent(c: Cipher, events: seq<Event>, e: Event, b: Data)
    requires forall i :: 0 <= i < |events| ==> WellFramed(events[i])
    requires WellFramed(e) && e.Request? && Taken(c, Run(c, events), e).Some?
    ensures var s := Run(c, events);
            var r := Taken(c, s, e).value;
            (exists p :: p in Answer(s, e.uuid, e.publicIp, r, e.now) && p.uuid == b) <==>
            && b in r.targets
            && (b == e.uuid ||
                exists i :: LiveFrom(c, events, i, b) && e.uuid in SessionAt(c, events, i, b).targets)
  {
    var s := Run(c, events);
    var r := Taken(c, s, e).value;
    var t := CheckIn(s, e.uuid, e.publicIp, r, e.now).table;
    TableIsAlwaysHistory(c, events, b);
    ReachableTableOk(c, events);
    StepKeepsTable(c, s, e);
    hide Run, Accepted, LiveFrom, SessionAt, PortPair, PortSet;
    ListedIff(t, e.uuid, e.publicIp, PortSet(r.ports), r.targets, b);
    assert b != e.uuid ==> (b in t <==> b in s.table);
  }

  lemma ListedIff(t: Table, uuid: Data, publicIp: Data, ports: set<nat>, targets: seq<Data>, b: Data)
    requires TableOk(t)
    ensures (exists p :: p in Matches(t, uuid, publicIp, ports, targets) && p.uuid == b) <==>
            b in targets && b in t && uuid in t[b].targets
  {
    hide PortPair, Matches;
    if p :| p in Matches(t, uuid, publicIp, ports, targets) && p.uuid == b {
      InMatches(t, uuid, publicIp, ports, targets, p);
      var target :| target in targets && MatchFor(t, uuid, publicIp, ports, target) == Some(p);
      assert SessionOk(target, t[target]);
    }
    if b in targets && b in t && uuid in t[b].targets {
      var p := MatchFor(t, uuid, publicIp, ports, b).value;
      InMatches(t, uuid, publicIp, ports, targets, p);
      assert SessionOk(b, t[b]);
    }
  }

  // ---- Mirroring

  /** Event `i` of a run from `s` is an accepted check-in of `u`. */
  predicate TakenFrom(c: Cipher, s: State, events: seq<Event>, i: nat, u: Data)
    requires i < |events|
  {
    events[i].Request? && events[i].uuid == u && Taken(c, RunFrom(c, s, events[..i]), events[i]).Some?
  }

  /** Without a check-in of its own a session either expires or stays as it is. */
  lemma {:induction false} SessionKept(c: Cipher, s: State, events: seq<Event>, u: Data)
    requires forall i :: 0 <= i < |events| ==> !TakenFrom(c, s, events, i, u)
    requires u in RunFrom(c, s, events).table
    ensures u in s.table && RunFrom(c, s, events).table[u] == s.table[u]
    decreases |events|
  {
    if events != [] {
      var init, e := events[..|events| - 1], events[|events| - 1];
      forall i | 0 <= i < |init|
        ensures !TakenFrom(c, s, init, i, u)
      {
        assert init[..i] == events[..i];
        assert !TakenFrom(c, s, events, i, u);
      }
      assert !TakenFrom(c, s, events, |init|, u);
      hide Accepted;
      SessionKept(c, s, init, u);
    }
  }

  /** What the answer to one client says about another, read off the table. */
  lemma ListedAs(t: Table, uuid: Data, publicIp: Data, ports: set<nat>, targets: seq<Data>, p: Peer)
    requires TableOk(t) && p in Matches(t, uuid, publicIp, ports, targets)
    ensures p.uuid in t && uuid in t[p.uuid].targets
    ensures var peer := t[p.uuid];
            var (p1, p2) := PortPair(ports, peer.ports);
            && p.ip == (if publicIp == peer.publicIp then peer.localIp else peer.publicIp)
            && p.iport == (if Less(uuid, p.uuid) then p2 else p1)
            && p.oport == (if Less(uuid, p.uuid) then p1 else p2)
  {
    hide PortPair, Matches;
    InMatches(t, uuid, publicIp, ports, targets, p);
    var target :| target in targets && MatchFor(t, uuid, publicIp, ports, target) == Some(p);
    assert SessionOk(target, t[target]);
  }

  /** B's check-in (event `eb`, in state `s0`) is answered with a match to A. Later, B having neither checked in
      again nor expired, A checks in (event `ea`), still asks for B and reports the busy ports of the session B saw.
      Then A is matched to B, each listens where the other sends, and if A's public address is the same as then,
      both were given local addresses or both public ones. */
  lemma {:induction false} Mirroring(c: Cipher, before: seq<Event>, eb: Event, between: seq<Event>, ea: Event, pb: Peer)
    requires forall i :: 0 <= i < |before| ==> WellFramed(before[i])
    requires forall i :: 0 <= i < |between| ==> WellFramed(between[i])
    requires WellFramed(eb) && WellFramed(ea) && eb.Request? && ea.Request? && ea.uuid != eb.uuid
    requires var s0 := Run(c, before);
             && Taken(c, s0, eb).Some?
             && pb in Answer(s0, eb.uuid, eb.publicIp, Taken(c, s0, eb).value, eb.now) && pb.uuid == ea.uuid
    requires var s1 := Step(c, Run(c, before), eb);
             && (forall i :: 0 <= i < |between| ==> !TakenFrom(c, s1, between, i, eb.uuid))
             && eb.uuid in RunFrom(c, s1, between).table
    requires var s1 := Step(c, Run(c, before), eb);
             var s2 := RunFrom(c, s1, between);
             && Taken(c, s2, ea).Some?
             && eb.uuid in Taken(c, s2, ea).value.targets
             && ea.uuid in s1.table && PortSet(Taken(c, s2, ea).value.ports) == s1.table[ea.uuid].ports
    ensures var s1 := Step(c, Run(c, before), eb);
            var s2 := RunFrom(c, s1, between);
            var a, b := s1.table[ea.uuid], s1.table[eb.uuid];
            var answer := Answer(s2, ea.uuid, ea.publicIp, Taken(c, s2, ea).value, ea.now);
            && (exists pa :: pa in answer && pa.uuid == eb.uuid)
            && forall pa :: pa in answer && pa.uuid == eb.uuid ==> Mirrored(a, b, ea.publicIp, pa, pb)
  {
    hide *;
    var s0 := Run(c, before);
    var s1 := Step(c, s0, eb);
    var s2 := RunFrom(c, s1, between);
    var s3 := Step(c, s2, ea);
    ReachableTableOk(c, before);
    StepKeepsTable(c, s0, eb);
    TableOkFrom(c, s1, between);
    StepKeepsTable(c, s2, ea);
    SessionKept(c, s1, between, eb.uuid);
    AfterCheckIn(c, s0, eb);
    AfterCheckIn(c, s2, ea);
    var rb, ra := Taken(c, s0, eb).value, Taken(c, s2, ea).value;
    ListedAs(s1.table, eb.uuid, eb.publicIp, PortSet(rb.ports), rb.targets, pb);
    ListedIff(s1.table, eb.uuid, eb.publicIp, PortSet(rb.ports), rb.targets, ea.uuid);
    ListedIff(s3.table, ea.uuid, ea.publicIp, PortSet(ra.ports), ra.targets, eb.uuid);
    forall pa | pa in Matches(s3.table, ea.uuid, ea.publicIp, PortSet(ra.ports), ra.targets) && pa.uuid == eb.uuid
      ensures Mirrored(s1.table[ea.uuid], s1.table[eb.uuid], ea.publicIp, pa, pb)
    {
      MirroredAnswers(s1.table, s3.table, ea.uuid, eb.uuid, ea.publicIp, PortSet(ra.ports), ra.targets, rb.targets, pa, pb);
    }
  }

  /** The table and the answer right after an accepted check-in. */
  lemma AfterCheckIn(c: Cipher, s: State, e: Event)
    requires e.Request? && Taken(c, s, e).Some?
    ensures var r := Taken(c, s, e).value;
            var t := Step(c, s, e).table;
            && KeyOf(s, e.uuid).Some?
            && e.uuid in t && t[e.uuid].publicIp == e.publicIp
            && t[e.uuid].ports == PortSet(r.ports) && t[e.uuid].targets == r.targets
            && (forall u :: u != e.uuid ==> (u in t <==> u in s.table) && (u in t ==> t[u] == s.table[u]))
            && Answer(s, e.uuid, e.publicIp, r, e.now) == Matches(t, e.uuid, e.publicIp, PortSet(r.ports), r.targets)
  {
    hide Matches, PortSet, Parse;
  }

  /** What A is told about B (`pa`) against what B was told about A (`pb`). */
  predicate Mirrored(a: Session, b: Session, publicIp: Data, pa: Peer, pb: Peer) {
    && pa.iport == pb.oport && pa.oport == pb.iport
    && (publicIp == a.publicIp ==>
          if a.publicIp == b.publicIp then pa.ip == b.localIp && pb.ip == a.localIp
          else pa.ip == b.publicIp && pb.ip == a.publicIp)
  }

  /** Two tables that agree on B give mirrored answers when A reports the ports it had in the first. */
  lemma MirroredAnswers(t1: Table, t2: Table, a: Data, b: Data, publicIp: Data, portsA: set<nat>,
                        targetsA: seq<Data>, targetsB: seq<Data>, pa: Peer, pb: Peer)
    requires TableOk(t1) && TableOk(t2) && a != b && a in t1 && b in t1 && b in t2 && t2[b] == t1[b]
    requires t1[a].ports == portsA
    requires pb in Matches(t1, b, t1[b].publicIp, t1[b].ports, targetsB) && pb.uuid == a
    requires pa in Matches(t2, a, publicIp, portsA, targetsA) && pa.uuid == b
    ensures Mirrored(t1[a], t1[b], publicIp, pa, pb)
  {
    hide Matches, TableOk, PortPair, Less;
    ListedAs(t1, b, t1[b].publicIp, t1[b].ports, targetsB, pb);
    ListedAs(t2, a, publicIp, portsA, targetsA, pa);
    PortPairSymmetric(portsA, t1[b].ports);
    ExactlyOneLess(a, b);
  }

  lemma {:induction false} TableOkFrom(c: Cipher, s: State, events: seq<Event>)
    requires forall i :: 0 <= i < |events| ==> WellFramed(events[i])
    requires TableOk(s.table)
    ensures TableOk(RunFrom(c, s, events).table)
    decreases |events|
  {
    hide TableOk, Step, WellFramed;
    if events != [] {
      var last := events[|events| - 1];
      assert WellFramed(last);
      TableOkFrom(c, s, events[..|events| - 1]);
      StepKeepsTable(c, RunFrom(c, s, events[..|events| - 1]), last);
    }
  }

  // ---- The two ends together

  /** A request the client writes under the key the server knows is taken exactly as it was meant. */
  lemma RequestArrives(c: Cipher, s: State, uuid: Data, key: Key, r: Parsed, publicIp: Data, now: nat, iv: nat, iv': nat)
    requires Lawful(c) && KeyOf(s, uuid) == Some(key) && Fits(r)
    ensures Taken(c, s, Request(uuid, c.enc(Wire.Request(r.ip, r.ports, r.targets), key, iv), publicIp, now, iv')) == Some(r)
  {
    hide Parse, Wire.Request;
    var text := Wire.Request(r.ip, r.ports, r.targets);
    LawfulAt(c, text, key, iv);
    RequestRoundTrip(r, []);
    assert text + [] == text;
  }

  /** The check-in of a client under the key it was given. */
  function CheckInOf(c: Cipher, uuid: Data, key: Key, r: Parsed, publicIp: Data, now: nat, iv: nat, iv': nat): Event {
    Request(uuid, c.enc(Wire.Request(r.ip, r.ports, r.targets), key, iv), publicIp, now, iv')
  }

  /** A registered client's check-in becomes its session, and touches nothing else. */
  lemma CheckInIsStored(c: Cipher, s: State, u: Data, key: Key, r: Parsed, publicIp: Data, now: nat, iv: nat, iv': nat)
    requires Lawful(c) && KeyOf(s, u) == Some(key) && Fits(r)
    ensures var e := CheckInOf(c, u, key, r, publicIp, now, iv, iv');
            var t := Step(c, s, e);
            && Taken(c, s, e) == Some(r)
            && u in t.table && t.table[u].publicIp == publicIp && t.table[u].localIp == r.ip
            && t.table[u].targets == r.targets && t.table[u].lastSeen == now
            && (forall q: nat :: q in t.table[u].ports <==> q in r.ports)
            && (forall v :: v != u ==> KeyOf(t, v) == KeyOf(s, v))
  {
    hide Wire.Request, Parse, Fits, Lawful;
    RequestArrives(c, s, u, key, r, publicIp, now, iv, iv');
  }

  /** Two new clients register, B checks in asking for A, and at most thirty seconds later, a sweep in between, A
      checks in asking for B. A is then told of B, and how to reach it. */
  lemma TwoMeet(c: Cipher, events: seq<Event>, a: Data, b: Data, ka: Key, kb: Key, ra: Parsed, rb: Parsed,
                eb: Event, swept: nat, ea: Event, ivs: (nat, nat, nat, nat))
    requires Lawful(c) && forall i :: 0 <= i < |events| ==> WellFramed(events[i])
    requires a != b && |a| == |b| == UUID && KeyOf(Run(c, events), a) == None && KeyOf(Run(c, events), b) == None
    requires Fits(ra) && Fits(rb) && b in ra.targets && a in rb.targets
    requires ea.Request? && eb.Request? && WellFramed(ea) && WellFramed(eb) && swept - eb.now <= 30_000_000_000
    requires eb == CheckInOf(c, b, kb, rb, eb.publicIp, eb.now, ivs.0, ivs.1)
    requires ea == CheckInOf(c, a, ka, ra, ea.publicIp, ea.now, ivs.2, ivs.3)
    ensures var s := Run(c, events + [Register(a, ka)] + [Register(b, kb)] + [eb] + [Sweep(swept)]);
            && Taken(c, s, ea) == Some(ra)
            && var answer := Answer(s, a, ea.publicIp, ra, ea.now);
               && (exists p :: p in answer && p.uuid == b)
               && forall p :: p in answer && p.uuid == b ==> DescribedBy(p, ea, ra, eb, rb)
  {
    var s0 := Run(c, events);
    var s2 := Step(c, Step(c, s0, Register(a, ka)), Register(b, kb));
    var s3 := Step(c, s2, eb);
    var s4 := Step(c, s3, Sweep(swept));
    FourMore(c, events, Register(a, ka), Register(b, kb), eb, Sweep(swept));
    ReachableTableOk(c, events);
    assert KeyOf(s2, a) == Some(ka) && KeyOf(s2, b) == Some(kb) && s2.table == s0.table;
    StepKeepsTable(c, s2, eb);
    CheckInIsStored(c, s2, b, kb, rb, eb.publicIp, eb.now, ivs.0, ivs.1);
    assert b in s4.table && s4.table[b] == s3.table[b];
    assert KeyOf(s4, a) == Some(ka);
    StepKeepsTable(c, s3, Sweep(swept));
    CheckInIsStored(c, s4, a, ka, ra, ea.publicIp, ea.now, ivs.2, ivs.3);
    StepKeepsTable(c, s4, ea);
    AfterCheckIn(c, s4, ea);
    var t := Step(c, s4, ea).table;
    hide *;
    TakenFits(c, s4, ea);
    ListedIff(t, a, ea.publicIp, PortSet(ra.ports), ra.targets, b);
    forall p | p in Matches(t, a, ea.publicIp, PortSet(ra.ports), ra.targets) && p.uuid == b
      ensures DescribedBy(p, ea, ra, eb, rb)
    {
      ListedIs(t, ea, ra, p);
      SamePeer(t[b], ea, ra, p, eb, rb);
    }
  }

  lemma FourMore(c: Cipher, events: seq<Event>, e1: Event, e2: Event, e3: Event, e4: Event)
    ensures Run(c, events + [e1] + [e2] + [e3] + [e4]) ==
            Step(c, Step(c, Step(c, Step(c, Run(c, events), e1), e2), e3), e4)
  {
    hide Run, Step;
    RunLast(c, events, e1);
    RunLast(c, events + [e1], e2);
    RunLast(c, events + [e1] + [e2], e3);
    RunLast(c, events + [e1] + [e2] + [e3], e4);
  }
}
