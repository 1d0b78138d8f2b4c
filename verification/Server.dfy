/** The coordinating server: the table of live sessions, mutual matching, the choice of ports, and expiry. */
module Server {
  import opened Basics
  import opened Bytes
  import opened Crypto
  import opened Wire

  const SECOND := 1_000_000_000
  const LIFETIME := 30 * SECOND
  const FIRST_PORT := 8888
  const LAST_PORT := 30000

  datatype Session = Session(uuid: Data, publicIp: Data, localIp: Data, ports: set<nat>, targets: seq<Data>,
                             lastSeen: nat, key: Key)

  type Table = map<Data, Session>

  // ---- Choosing two ports

  predicate Free(a: set<nat>, b: set<nat>, port: nat) {
    port !in a && port !in b
  }

  /** The least port from `port` on that both sides have free, or zero. */
  function NextFree(a: set<nat>, b: set<nat>, port: nat): nat
    decreases LAST_PORT + 1 - port
  {
    if port > LAST_PORT then 0
    else if Free(a, b, port) then port
    else NextFree(a, b, port + 1)
  }

  function PortPair(a: set<nat>, b: set<nat>): (nat, nat) {
    var p1 := NextFree(a, b, FIRST_PORT);
    (p1, if p1 == 0 then 0 else NextFree(a, b, p1 + 1))
  }

  lemma {:induction false} NextFreeIsLeast(a: set<nat>, b: set<nat>, port: nat)
    requires port > 0
    ensures var p := NextFree(a, b, port);
            if p == 0 then forall q :: port <= q <= LAST_PORT ==> !Free(a, b, q)
            else port <= p <= LAST_PORT && Free(a, b, p) && forall q :: port <= q < p ==> !Free(a, b, q)
    decreases LAST_PORT + 1 - port
  {
    if port <= LAST_PORT && !Free(a, b, port) {
      NextFreeIsLeast(a, b, port + 1);
    }
  }

  lemma FreeSomewhere(a: set<nat>, b: set<nat>, s: set<nat>) returns (q: nat)
    requires |a| + |b| < |s|
    ensures q in s && Free(a, b, q)
  {
    SumOfSizes(a, b);
    if s <= a + b {
      SmallerSet(s, a + b);
    }
    q :| q in s && q !in a + b;
  }

  /** With every port below `from` blocked or in `passed`, there is a least free one from there on. */
  lemma OnePortExists(a: set<nat>, b: set<nat>, from: nat, passed: set<nat>) returns (p: nat)
    requires |a| + |b| + |passed| <= LAST_PORT - FIRST_PORT && FIRST_PORT <= from
    requires forall q :: FIRST_PORT <= q < from ==> q in passed || !Free(a, b, q)
    ensures p == NextFree(a, b, from) && from <= p <= LAST_PORT
    ensures Free(a, b, p) && forall q :: from <= q < p ==> !Free(a, b, q)
  {
    p := NextFree(a, b, from);
    NextFreeIsLeast(a, b, from);
    hide NextFree, Interval, Free;
    var all := Interval(FIRST_PORT, LAST_PORT + 1);
    SumOfSizes(all - passed, passed);
    SmallerSet(all, (all - passed) + passed);
    var q := FreeSomewhere(a, b, all - passed);
  }

  /** 21113 ports against at most 21111 blocked ones: there are always two, the two smallest. */
  lemma TwoPortsExist(a: set<nat>, b: set<nat>)
    requires |a| + |b| <= LAST_PORT - FIRST_PORT - 1
    ensures var (p1, p2) := PortPair(a, b);
            && FIRST_PORT <= p1 < p2 <= LAST_PORT
            && Free(a, b, p1) && Free(a, b, p2)
            && forall q :: FIRST_PORT <= q < p2 && q != p1 ==> !Free(a, b, q)
  {
    hide NextFree, Free;
    var p1 := OnePortExists(a, b, FIRST_PORT, {});
    var p2 := OnePortExists(a, b, p1 + 1, {p1});
  }

  lemma {:induction false} NextFreeSymmetric(a: set<nat>, b: set<nat>, port: nat)
    ensures NextFree(a, b, port) == NextFree(b, a, port)
    decreases LAST_PORT + 1 - port
  {
    if port <= LAST_PORT {
      NextFreeSymmetric(a, b, port + 1);
    }
  }

  lemma PortPairSymmetric(a: set<nat>, b: set<nat>)
    ensures PortPair(a, b) == PortPair(b, a)
  {
    NextFreeSymmetric(a, b, FIRST_PORT);
    var (p1, _) := PortPair(a, b);
    NextFreeSymmetric(a, b, p1 + 1);
  }

  /** `find_available_ports`: one pass, stopping at the second hit. */
  method FindAvailablePorts(a: set<nat>, b: set<nat>) returns (p1: nat, p2: nat)
    ensures (p1, p2) == PortPair(a, b)
  {
    p1, p2 := 0, 0;
    var port := FIRST_PORT;
    while port <= LAST_PORT
      invariant FIRST_PORT <= port <= LAST_PORT + 1 && p2 == 0
      invariant p1 == 0 ==> NextFree(a, b, FIRST_PORT) == NextFree(a, b, port)
      invariant p1 != 0 ==> p1 == NextFree(a, b, FIRST_PORT) && NextFree(a, b, p1 + 1) == NextFree(a, b, port)
    {
      if port !in a && port !in b {
        if p1 == 0 {
          p1 := port;
        } else {
          p2 := port;
          break;
        }
      }
      port := port + 1;
    }
  }

  // ---- The order of UUIDs

  predicate Less(a: Data, b: Data) {
    if b == [] then false
    else if a == [] then true
    else if a[0] != b[0] then a[0] < b[0]
    else Less(a[1..], b[1..])
  }

  lemma {:induction false} ExactlyOneLess(a: Data, b: Data)
    requires a != b
    ensures Less(a, b) <==> !Less(b, a)
    decreases |a|
  {
    if a != [] && b != [] && a[0] == b[0] {
      assert a == [a[0]] + a[1..] && b == [b[0]] + b[1..];
      ExactlyOneLess(a[1..], b[1..]);
    }
  }

  /** The order is that of the first differing byte, and a proper prefix comes first. */
  ghost predicate Precedes(a: Data, b: Data) {
    exists k: nat ::
      k <= |a| && k < |b| && a[..k] == b[..k] && (k < |a| ==> a[k] < b[k])
  }

  lemma {:induction false} LessIsLexicographic(a: Data, b: Data)
    ensures Less(a, b) <==> Precedes(a, b)
    decreases |a|
  {
    if a != [] && b != [] && a[0] == b[0] {
      LessIsLexicographic(a[1..], b[1..]);
      if Less(a, b) {
        var k: nat :| k <= |a[1..]| && k < |b[1..]| && a[1..][..k] == b[1..][..k] && (k < |a[1..]| ==> a[1..][k] < b[1..][k]);
        assert a[..k + 1] == [a[0]] + a[1..][..k] && b[..k + 1] == [b[0]] + b[1..][..k];
        assert k + 1 <= |a| && k + 1 < |b| && a[..k + 1] == b[..k + 1] && (k + 1 < |a| ==> a[k + 1] < b[k + 1]);
      }
      if Precedes(a, b) {
        var k: nat :| k <= |a| && k < |b| && a[..k] == b[..k] && (k < |a| ==> a[k] < b[k]);
        assert k > 0;
        assert a[1..][..k - 1] == a[..k][1..] && b[1..][..k - 1] == b[..k][1..];
        assert k - 1 <= |a[1..]| && k - 1 < |b[1..]| && a[1..][..k - 1] == b[1..][..k - 1]
            && (k - 1 < |a[1..]| ==> a[1..][k - 1] < b[1..][k - 1]);
      }
    } else {
      assert a[..0] == b[..0];
      assert forall k: nat :: 0 < k <= |a| && k < |b| && a[..k] == b[..k] ==> a[..k][0] == b[..k][0];
    }
  }

  // ---- Matching

  /** What the answer to `uuid` says about a target, if it is listed. */
  function MatchFor(table: Table, uuid: Data, publicIp: Data, ports: set<nat>, target: Data): Option<Peer> {
    if target !in table then None
    else
      var peer := table[target];
      if uuid !in peer.targets then None
      else
        var (p1, p2) := PortPair(ports, peer.ports);
        var ip := if publicIp == peer.publicIp then peer.localIp else peer.publicIp;
        Some(if Less(uuid, peer.uuid) then Peer(peer.uuid, ip, p2, p1) else Peer(peer.uuid, ip, p1, p2))
  }

  function Matches(table: Table, uuid: Data, publicIp: Data, ports: set<nat>, targets: seq<Data>): seq<Peer> {
    if targets == [] then []
    else
      (match MatchFor(table, uuid, publicIp, ports, targets[0]) case None => [] case Some(p) => [p])
      + Matches(table, uuid, publicIp, ports, targets[1..])
  }

  lemma {:induction false} MatchesAppend(table: Table, uuid: Data, publicIp: Data, ports: set<nat>,
                                         targets: seq<Data>, t: Data)
    ensures Matches(table, uuid, publicIp, ports, targets + [t]) ==
            Matches(table, uuid, publicIp, ports, targets) +
            (match MatchFor(table, uuid, publicIp, ports, t) case None => [] case Some(p) => [p])
    decreases |targets|
  {
    hide MatchFor;
    if targets == [] {
      assert (targets + [t])[1..] == [];
    } else {
      assert (targets + [t])[1..] == targets[1..] + [t];
      MatchesAppend(table, uuid, publicIp, ports, targets[1..], t);
    }
  }

  /** The answer lists exactly the matches of the targets. */
  lemma {:induction false} InMatches(table: Table, uuid: Data, publicIp: Data, ports: set<nat>, targets: seq<Data>, p: Peer)
    ensures p in Matches(table, uuid, publicIp, ports, targets) <==>
            exists t :: t in targets && MatchFor(table, uuid, publicIp, ports, t) == Some(p)
    decreases |targets|
  {
    hide MatchFor;
    if targets != [] {
      InMatches(table, uuid, publicIp, ports, targets[1..], p);
      assert forall t :: t in targets <==> t == targets[0] || t in targets[1..];
    }
  }

  /** The targets that are listed: live, and asking back. */
  function ListedTargets(table: Table, uuid: Data, targets: seq<Data>): seq<Data> {
    if targets == [] then []
    else
      var rest := ListedTargets(table, uuid, targets[1..]);
      if targets[0] in table && uuid in table[targets[0]].targets then [targets[0]] + rest else rest
  }

  /** The answer lists them in the order in which they were asked for. */
  lemma {:induction false} MatchesInOrder(table: Table, uuid: Data, publicIp: Data, ports: set<nat>, targets: seq<Data>)
    requires forall u :: u in table ==> table[u].uuid == u
    ensures var ps, ts := Matches(table, uuid, publicIp, ports, targets), ListedTargets(table, uuid, targets);
            |ps| == |ts| && forall i :: 0 <= i < |ps| ==> ps[i].uuid == ts[i]
    decreases |targets|
  {
    hide PortPair, Less;
    if targets != [] {
      MatchesInOrder(table, uuid, publicIp, ports, targets[1..]);
    }
  }

  function PortSet(ports: seq<nat>): set<nat> {
    set i | 0 <= i < |ports| :: ports[i]
  }

  lemma {:induction false} PortSetSize(ports: seq<nat>)
    ensures |PortSet(ports)| <= |ports|
    decreases |ports|
  {
    if ports != [] {
      var last := |ports| - 1;
      PortSetSize(ports[..last]);
      assert PortSet(ports) == PortSet(ports[..last]) + {ports[last]};
    }
  }

  // ---- One routine request, as a function of the table

  function SessionOf(uuid: Data, publicIp: Data, r: Parsed, now: nat, key: Key): Session {
    Session(uuid, publicIp, r.ip, PortSet(r.ports), r.targets, now, key)
  }

  datatype State = State(table: Table, keys: map<Data, Key>)

  function KeyOf(s: State, uuid: Data): Option<Key> {
    if uuid in s.table then Some(s.table[uuid].key)
    else if uuid in s.keys then Some(s.keys[uuid])
    else None
  }

  /** What a routine request asks for, unless it is rejected: no key, undecipherable, or malformed. */
  function Accepted(c: Cipher, s: State, uuid: Data, encrypted: Data): Option<Parsed> {
    var key :- KeyOf(s, uuid);
    var text :- c.dec(encrypted, key);
    Parse(text)
  }

  function CheckIn(s: State, uuid: Data, publicIp: Data, r: Parsed, now: nat): State
    requires KeyOf(s, uuid).Some?
  {
    s.(table := s.table[uuid := SessionOf(uuid, publicIp, r, now, KeyOf(s, uuid).value)])
  }

  /** The peers listed in the answer. The session is stored before the answer is made. */
  function Answer(s: State, uuid: Data, publicIp: Data, r: Parsed, now: nat): seq<Peer>
    requires KeyOf(s, uuid).Some?
  {
    Matches(CheckIn(s, uuid, publicIp, r, now).table, uuid, publicIp, PortSet(r.ports), r.targets)
  }

  function Swept(table: Table, now: nat): Table {
    map u | u in table && now - table[u].lastSeen <= LIFETIME :: table[u]
  }

  class CoordinatingServer {
    const cipher: Cipher
    var activeSessions: Table
    var keyFiles: map<Data, Key>

    function Value(): State
      reads this
    {
      State(activeSessions, keyFiles)
    }

    constructor (cipher: Cipher)
      ensures this.cipher == cipher && Value() == State(map[], map[])
    {
      this.cipher := cipher;
      activeSessions, keyFiles := map[], map[];
    }

    /** The table part of a registration: the new key is saved under the new UUID. */
    method SaveKey(uuid: Data, key: Key)
      modifies this`keyFiles
      ensures Value() == old(Value()).(keys := old(keyFiles)[uuid := key])
    {
      keyFiles := keyFiles[uuid := key];
    }

    method BuildRoutineResponse(uuid: Data, publicIp: Data, ports: set<nat>, targets: seq<Data>, key: Key, iv: nat)
      returns (response: Data)
      ensures response == cipher.enc(Response(Matches(activeSessions, uuid, publicIp, ports, targets)), key, iv)
    {
      var matched: seq<Peer> := [];
      for i := 0 to |targets|
        invariant matched == Matches(activeSessions, uuid, publicIp, ports, targets[..i])
      {
        assert targets[..i + 1] == targets[..i] + [targets[i]];
        MatchesAppend(activeSessions, uuid, publicIp, ports, targets[..i], targets[i]);
        var target := targets[i];
        if target in activeSessions {
          var peer := activeSessions[target];
          if uuid in peer.targets {
            var ip := if publicIp == peer.publicIp then peer.localIp else peer.publicIp;
            var p1, p2 := FindAvailablePorts(ports, peer.ports);
            if Less(uuid, peer.uuid) {
              matched := matched + [Peer(peer.uuid, ip, p2, p1)];
            } else {
              matched := matched + [Peer(peer.uuid, ip, p1, p2)];
            }
          }
        }
      }
      assert targets[..|targets|] == targets;
      var raw := WriteResponse(matched);
      response := cipher.enc(raw, key, iv);
    }

    /** A rejected request changes nothing and gets no answer. */
    method ProcessRoutineRequest(uuid: Data, encrypted: Data, publicIp: Data, now: nat, iv: nat)
      returns (response: Option<Data>)
      modifies this`activeSessions
      ensures response.None? <==>
              (uuid !in old(activeSessions) && uuid !in old(keyFiles))
              || var key := if uuid in old(activeSessions) then old(activeSessions)[uuid].key else old(keyFiles)[uuid];
                 cipher.dec(encrypted, key).None? || Parse(cipher.dec(encrypted, key).value).None?
      ensures match Accepted(cipher, old(Value()), uuid, encrypted)
              case None => response == None && Value() == old(Value())
              case Some(r) =>
                && uuid in activeSessions
                && activeSessions[uuid].uuid == uuid && activeSessions[uuid].publicIp == publicIp
                && activeSessions[uuid].localIp == r.ip && activeSessions[uuid].targets == r.targets
                && (forall q: nat :: q in activeSessions[uuid].ports <==> q in r.ports)
                && activeSessions[uuid].lastSeen == now
                && activeSessions[uuid].key ==
                   (if uuid in old(activeSessions) then old(activeSessions)[uuid].key else old(keyFiles)[uuid])
                && (forall u :: u != uuid ==>
                      (u in activeSessions <==> u in old(activeSessions))
                      && (u in activeSessions ==> activeSessions[u] == old(activeSessions)[u]))
                && Value() == CheckIn(old(Value()), uuid, publicIp, r, now)
                && response == Some(cipher.enc(Response(Answer(old(Value()), uuid, publicIp, r, now)),
                                               KeyOf(old(Value()), uuid).value, iv))
    {
      hide Parse, Response, Matches;
      var key: Key;
      if uuid in activeSessions {
        key := activeSessions[uuid].key;
      } else if uuid in keyFiles {
        key := keyFiles[uuid];
      } else {
        return None;
      }
      var decrypted := cipher.dec(encrypted, key);
      if decrypted.None? {
        return None;
      }
      var parsed := ParseRequest(decrypted.value);
      if parsed.None? {
        return None;
      }
      var r := parsed.value;
      activeSessions := activeSessions[uuid := SessionOf(uuid, publicIp, r, now, key)];
      var out := BuildRoutineResponse(uuid, publicIp, activeSessions[uuid].ports, activeSessions[uuid].targets, key, iv);
      response := Some(out);
    }

    /** Erasing while walking the table keeps exactly the sessions seen in the last thirty seconds. */
    method Sweep(now: nat)
      modifies this`activeSessions
      ensures activeSessions == Swept(old(activeSessions), now) && keyFiles == old(keyFiles)
      ensures forall u :: u in activeSessions <==>
                u in old(activeSessions) && now - old(activeSessions)[u].lastSeen <= 30_000_000_000
      ensures forall u :: u in activeSessions ==> activeSessions[u] == old(activeSessions)[u]
    {
      ghost var before := activeSessions;
      var left := activeSessions.Keys;
      while left != {}
        invariant left <= activeSessions.Keys <= before.Keys
        invariant forall u :: u in activeSessions ==> activeSessions[u] == before[u]
        invariant forall u :: u in before && u !in left ==>
                    (u in activeSessions <==> now - before[u].lastSeen <= LIFETIME)
        decreases left
      {
        var u :| u in left;
        if now - activeSessions[u].lastSeen > LIFETIME {
          activeSessions := activeSessions - {u};
        }
        left := left - {u};
      }
    }
  }
}
