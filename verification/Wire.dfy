/** The payloads between client and coordinating server, before encryption: the routine request and its answer,
    each written by one end and parsed by the other. Numbers of two bytes count ports and peers, lengths of one
    byte stand before addresses. The parsers meet arbitrary bytes, so what they accept is stated on all inputs. */
module Wire {
  import opened Basics
  import opened Bytes

  const UUID := 36
  const MOST_PORTS := 100
  const MOST_TARGETS := 32

  // ---- The routine request

  function Ports(ps: seq<nat>): Data {
    if ps == [] then [] else ToBE(ps[0], 2) + Ports(ps[1..])
  }

  function Flat(ts: seq<Data>): Data {
    if ts == [] then [] else ts[0] + Flat(ts[1..])
  }

  function ShortIp(ip: Data): (s: Data)
    ensures |s| <= 255 && s <= ip && (|ip| <= 255 ==> s == ip) && (|ip| > 255 ==> |s| == 255)
  {
    ip[..Min(|ip|, 255)]
  }

  /** What `do_routine` writes, the busy ports in the order the set is walked. */
  function Request(ip: Data, ports: seq<nat>, targets: seq<Data>): Data {
    [|ShortIp(ip)|] + ShortIp(ip) + ToBE(|ports|, 2) + Ports(ports) + ToBE(|targets|, 2) + Flat(targets)
  }

  lemma {:induction false} PortsAre(ps: seq<nat>, i: nat)
    requires i < |ps|
    ensures |Ports(ps)| == 2 * |ps|
    ensures Ports(ps)[2 * i] == ps[i] / 256 % 256 && Ports(ps)[2 * i + 1] == ps[i] % 256
    decreases |ps|
  {
    Spelt(ps[0]);
    hide ToBE;
    if |ps| == 1 {
      assert Ports(ps[1..]) == [];
    } else {
      PortsAre(ps[1..], if i == 0 then 0 else i - 1);
    }
  }

  lemma {:induction false} FlatIs(ts: seq<Data>, i: nat)
    requires i < |ts| && forall j :: 0 <= j < |ts| ==> |ts[j]| == UUID
    ensures |Flat(ts)| == UUID * |ts| && Flat(ts)[UUID * i..UUID * i + UUID] == ts[i]
    decreases |ts|
  {
    if |ts| == 1 {
      assert Flat(ts[1..]) == [];
    } else {
      FlatIs(ts[1..], if i == 0 then 0 else i - 1);
      if i > 0 {
        assert Flat(ts)[UUID * i..UUID * i + UUID] == Flat(ts[1..])[UUID * (i - 1)..UUID * (i - 1) + UUID];
      }
    }
  }

  lemma SixParts(x: byte, ip: Data, n: Data, f: Data, m: Data, g: Data)
    requires |n| == |m| == 2
    ensures var d := [x] + ip + n + f + m + g;
            var p := 1 + |ip| + 2;
            var t := p + |f| + 2;
            && |d| == t + |g| && d[0] == x && d[1..1 + |ip|] == ip && d[p - 2] == n[0] && d[p - 1] == n[1]
            && d[p..p + |f|] == f && d[t - 2] == m[0] && d[t - 1] == m[1] && d[t..] == g
  {
  }

  lemma InPart(d: Data, f: Data, p: nat, i: nat)
    requires p + |f| <= |d| && d[p..p + |f|] == f && i + 1 < |f|
    ensures d[p + i] == f[i] && d[p + i + 1] == f[i + 1]
  {
  }

  lemma SliceOfTail(d: Data, t: nat, i: nat, j: nat)
    requires t + j <= |d| && i <= j
    ensures d[t..][i..j] == d[t + i..t + j]
  {
  }

  lemma RequestParts(ip: Data, ports: seq<nat>, targets: seq<Data>)
    requires |ip| <= 255
    ensures Request(ip, ports, targets) == [|ip|] + ip + ToBE(|ports|, 2) + Ports(ports) + ToBE(|targets|, 2) + Flat(targets)
  {
    hide ToBE, Ports, Flat;
    assert ShortIp(ip) == ip;
  }

  lemma TwoByteForm(n: nat)
    requires n < 0x1_0000
    ensures ToBE(n, 2) == [n / 256, n % 256]
  {
    Spelt(n);
    hide ToBE;
    assert n / 256 % 256 == n / 256;
  }

  /** The bytes of a request up to the ports and around them: the length of the address and the address, the number
      of ports and then the ports, the number of targets and then the targets. */
  lemma RequestBytes(ip: Data, ports: seq<nat>, targets: seq<Data>)
    requires |ip| <= 255 && |ports| < 0x1_0000 && |targets| < 0x1_0000
    requires forall j :: 0 <= j < |targets| ==> |targets[j]| == UUID
    ensures var d := Request(ip, ports, targets);
            var p := 1 + |ip| + 2;
            var t := p + 2 * |ports| + 2;
            && |d| == t + UUID * |targets| && d[0] == |ip| && d[1..1 + |ip|] == ip
            && d[p - 2] == |ports| / 256 && d[p - 1] == |ports| % 256 && d[p..t - 2] == Ports(ports)
            && d[t - 2] == |targets| / 256 && d[t - 1] == |targets| % 256 && d[t..] == Flat(targets)
  {
    TwoByteForm(|ports|);
    TwoByteForm(|targets|);
    Lengths(ports, targets);
    RequestParts(ip, ports, targets);
    hide *;
    SixParts(|ip|, ip, ToBE(|ports|, 2), Ports(ports), ToBE(|targets|, 2), Flat(targets));
  }

  /** Each port takes two bytes, the high one first, and each target its thirty-six. */
  lemma RequestListBytes(ip: Data, ports: seq<nat>, targets: seq<Data>, i: nat)
    requires |ip| <= 255 && |ports| < 0x1_0000 && |targets| < 0x1_0000
    requires forall j :: 0 <= j < |targets| ==> |targets[j]| == UUID
    ensures var d := Request(ip, ports, targets);
            var p := 1 + |ip| + 2;
            var t := p + 2 * |ports| + 2;
            && (i < |ports| ==> p + 2 * i + 1 < |d| && d[p + 2 * i] == ports[i] / 256 % 256 && d[p + 2 * i + 1] == ports[i] % 256)
            && (i < |targets| ==> t + UUID * i + UUID <= |d| && d[t + UUID * i..t + UUID * i + UUID] == targets[i])
  {
    var d := Request(ip, ports, targets);
    var p := 1 + |ip| + 2;
    var t := p + 2 * |ports| + 2;
    RequestBytes(ip, ports, targets);
    Lengths(ports, targets);
    hide Request, Ports, Flat;
    if i < |ports| {
      PortsAre(ports, i);
      InPart(d, Ports(ports), p, 2 * i);
    }
    if i < |targets| {
      FlatIs(targets, i);
      SliceOfTail(d, t, UUID * i, UUID * i + UUID);
    }
  }

  lemma Lengths(ports: seq<nat>, targets: seq<Data>)
    requires forall j :: 0 <= j < |targets| ==> |targets[j]| == UUID
    ensures |Ports(ports)| == 2 * |ports| && |Flat(targets)| == UUID * |targets|
  {
    if ports != [] {
      PortsAre(ports, 0);
    }
    if targets != [] {
      FlatIs(targets, 0);
    }
  }

  datatype Parsed = Parsed(ip: Data, ports: seq<nat>, targets: seq<Data>)

  /** The values both ends agree on. */
  ghost predicate Fits(r: Parsed) {
    && |r.ip| <= 255
    && |r.ports| <= MOST_PORTS && (forall i :: 0 <= i < |r.ports| ==> r.ports[i] < 0x1_0000)
    && |r.targets| <= MOST_TARGETS && (forall i :: 0 <= i < |r.targets| ==> |r.targets[i]| == UUID)
  }

  function ReadPorts(s: Data, n: nat): seq<nat>
    requires |s| >= 2 * n
    decreases n
  {
    if n == 0 then [] else [FromBE(s[..2])] + ReadPorts(s[2..], n - 1)
  }

  function ReadTargets(s: Data, n: nat): seq<Data>
    requires |s| >= UUID * n
    decreases n
  {
    if n == 0 then [] else [s[..UUID]] + ReadTargets(s[UUID..], n - 1)
  }

  /** The checks of `process_routine_request`, in its order. */
  function Parse(d: Data): Option<Parsed> {
    if |d| < 1 then None
    else
      var ipLen: nat := d[0];
      if |d| < 1 + ipLen + 2 then None
      else
        var n := FromBE(d[1 + ipLen..1 + ipLen + 2]);
        var s := d[1 + ipLen + 2..];
        if n > MOST_PORTS || |s| < 2 * n + 2 then None
        else
          var m := FromBE(s[2 * n..2 * n + 2]);
          var t := s[2 * n + 2..];
          if m > MOST_TARGETS || |t| < UUID * m then None
          else Some(Parsed(d[1..1 + ipLen], ReadPorts(s, n), ReadTargets(t, m)))
  }

  lemma TwoBytes(n: nat)
    ensures n < 0x1_0000 ==> FromBE(ToBE(n, 2)) == n
    ensures FromBE(ToBE(n, 2)) == n % 0x1_0000
  {
    Widths();
    FromToBE(n, 2);
  }

  lemma TwoBytesBack(s: Data)
    requires |s| == 2
    ensures FromBE(s) < 0x1_0000 && ToBE(FromBE(s), 2) == s
  {
    Widths();
    ToFromBE(s);
  }

  lemma {:induction false} PortsLength(ps: seq<nat>)
    ensures |Ports(ps)| == 2 * |ps|
    decreases |ps|
  {
    hide ToBE;
    if ps != [] {
      PortsLength(ps[1..]);
    }
  }

  lemma {:induction false} FlatLength(ts: seq<Data>)
    requires forall i :: 0 <= i < |ts| ==> |ts[i]| == UUID
    ensures |Flat(ts)| == UUID * |ts|
    decreases |ts|
  {
    if ts != [] {
      FlatLength(ts[1..]);
    }
  }

  lemma {:induction false} ReadPortsOf(ps: seq<nat>, rest: Data)
    requires forall i :: 0 <= i < |ps| ==> ps[i] < 0x1_0000
    ensures |Ports(ps) + rest| >= 2 * |ps|
    ensures ReadPorts(Ports(ps) + rest, |ps|) == ps
    decreases |ps|
  {
    hide ToBE, FromBE;
    PortsLength(ps);
    if ps != [] {
      var more := Ports(ps[1..]) + rest;
      var s := Ports(ps) + rest;
      assert s == ToBE(ps[0], 2) + more;
      assert s[..2] == ToBE(ps[0], 2) && s[2..] == more;
      TwoBytes(ps[0]);
      ReadPortsOf(ps[1..], rest);
      assert ps == [ps[0]] + ps[1..];
    }
  }

  lemma {:induction false} PortsOfRead(s: Data, n: nat)
    requires |s| >= 2 * n
    ensures |ReadPorts(s, n)| == n && Ports(ReadPorts(s, n)) == s[..2 * n]
    ensures forall i :: 0 <= i < n ==> ReadPorts(s, n)[i] < 0x1_0000
    decreases n
  {
    hide ToBE, FromBE;
    if n > 0 {
      TwoBytesBack(s[..2]);
      PortsOfRead(s[2..], n - 1);
      assert ReadPorts(s, n)[1..] == ReadPorts(s[2..], n - 1);
      assert s[..2 * n] == s[..2] + s[2..][..2 * (n - 1)];
    }
  }

  lemma {:induction false} ReadTargetsOf(ts: seq<Data>, rest: Data)
    requires forall i :: 0 <= i < |ts| ==> |ts[i]| == UUID
    ensures |Flat(ts) + rest| >= UUID * |ts|
    ensures ReadTargets(Flat(ts) + rest, |ts|) == ts
    decreases |ts|
  {
    FlatLength(ts);
    if ts != [] {
      var more := Flat(ts[1..]) + rest;
      var s := Flat(ts) + rest;
      assert s == ts[0] + more;
      assert s[..UUID] == ts[0] && s[UUID..] == more;
      ReadTargetsOf(ts[1..], rest);
      assert ts == [ts[0]] + ts[1..];
    }
  }

  lemma {:induction false} FlatOfRead(s: Data, n: nat)
    requires |s| >= UUID * n
    ensures |ReadTargets(s, n)| == n && Flat(ReadTargets(s, n)) == s[..UUID * n]
    ensures forall i :: 0 <= i < n ==> |ReadTargets(s, n)[i]| == UUID
    decreases n
  {
    if n > 0 {
      FlatOfRead(s[UUID..], n - 1);
      assert ReadTargets(s, n)[1..] == ReadTargets(s[UUID..], n - 1);
      assert s[..UUID * n] == s[..UUID] + s[UUID..][..UUID * (n - 1)];
    }
  }

  lemma Cut(a: Data, b: Data, c: Data)
    ensures (a + b + c)[..|a|] == a
    ensures (a + b + c)[|a|..|a| + |b|] == b
    ensures (a + b + c)[|a| + |b|..] == c
  {
  }

  /** Parsing undoes writing, whatever bytes follow. */
  lemma RequestRoundTrip(r: Parsed, rest: Data)
    requires Fits(r)
    ensures Parse(Request(r.ip, r.ports, r.targets) + rest) == Some(r)
  {
    hide ToBE, FromBE, ReadPorts, ReadTargets, Ports, Flat;
    var k, n, m := |r.ip|, |r.ports|, |r.targets|;
    var t := Flat(r.targets) + rest;
    var s := Ports(r.ports) + (ToBE(m, 2) + t);
    var d := Request(r.ip, r.ports, r.targets) + rest;
    assert d == ([k] + r.ip) + ToBE(n, 2) + s;
    Cut([k] + r.ip, ToBE(n, 2), s);
    assert d[1..1 + k] == r.ip;
    TwoBytes(n);
    TwoBytes(m);
    PortsLength(r.ports);
    FlatLength(r.targets);
    assert s == Ports(r.ports) + ToBE(m, 2) + t;
    Cut(Ports(r.ports), ToBE(m, 2), t);
    ReadPortsOf(r.ports, ToBE(m, 2) + t);
    ReadTargetsOf(r.targets, rest);
  }

  lemma Parts(d: Data, i: nat, j: nat)
    requires i <= j <= |d|
    ensures d == d[..i] + d[i..j] + d[j..]
  {
  }

  /** What the checks have established when a request is accepted. */
  lemma ParseCuts(d: Data) returns (s: Data, t: Data)
    requires Parse(d).Some?
    ensures var r := Parse(d).value;
            && |r.ip| <= 255 && |r.ports| <= MOST_PORTS && |r.targets| <= MOST_TARGETS
            && d == ([|r.ip|] + r.ip + ToBE(|r.ports|, 2)) + s
            && |s| >= 2 * |r.ports| && r.ports == ReadPorts(s, |r.ports|)
            && s == (s[..2 * |r.ports|] + ToBE(|r.targets|, 2)) + t
            && |t| >= UUID * |r.targets| && r.targets == ReadTargets(t, |r.targets|)
  {
    hide ToBE, FromBE, ReadPorts, ReadTargets;
    var k: nat := d[0];
    var n := FromBE(d[1 + k..1 + k + 2]);
    s := d[1 + k + 2..];
    var m := FromBE(s[2 * n..2 * n + 2]);
    t := s[2 * n + 2..];
    TwoBytesBack(d[1 + k..1 + k + 2]);
    TwoBytesBack(s[2 * n..2 * n + 2]);
    PortsOfRead(s, n);
    FlatOfRead(t, m);
    Parts(d, 1 + k, 1 + k + 2);
    Parts(s, 2 * n, 2 * n + 2);
    assert d[..1 + k] == [k] + d[1..1 + k];
  }

  /** Whatever is accepted starts with the writing of what was read. */
  lemma ParseIsRequest(d: Data)
    ensures Parse(d).Some? ==>
              var r := Parse(d).value;
              Fits(r) && Request(r.ip, r.ports, r.targets) <= d
  {
    hide ToBE, FromBE, ReadPorts, ReadTargets, Ports, Flat, Parse;
    if Parse(d).Some? {
      var r := Parse(d).value;
      var s, t := ParseCuts(d);
      var n, m := |r.ports|, |r.targets|;
      PortsOfRead(s, n);
      FlatOfRead(t, m);
      assert t == Flat(r.targets) + t[UUID * m..];
      Pieces(d, [|r.ip|] + r.ip + ToBE(n, 2), s, Ports(r.ports) + ToBE(m, 2), t, Flat(r.targets), t[UUID * m..]);
      Regroup([|r.ip|] + r.ip + ToBE(n, 2), Ports(r.ports), ToBE(m, 2), Flat(r.targets));
    }
  }

  lemma Regroup(a: Data, b: Data, c: Data, e: Data)
    ensures a + (b + c) + e == a + b + c + e
  {
  }

  lemma Pieces(d: Data, a: Data, s: Data, b: Data, t: Data, c: Data, rest: Data)
    requires d == a + s && s == b + t && t == c + rest
    ensures a + b + c <= d
  {
    assert d == (a + b + c) + rest;
  }

  /** The parser accepts exactly the byte strings that begin with a request in the agreed ranges, and reads it. */
  lemma ParseIsExact(d: Data, r: Parsed)
    ensures Parse(d) == Some(r) <==> Fits(r) && Request(r.ip, r.ports, r.targets) <= d
  {
    hide Parse, Request, Fits;
    ParseIsRequest(d);
    if Fits(r) && Request(r.ip, r.ports, r.targets) <= d {
      var w := Request(r.ip, r.ports, r.targets);
      RequestRoundTrip(r, d[|w|..]);
      assert d == w + d[|w|..];
    }
  }

  /** The client sets no limit of its own; the server takes a request exactly when it keeps to the server's. */
  lemma RequestTakenIff(ip: Data, ports: seq<nat>, targets: seq<Data>)
    requires |ports| < 0x1_0000 && forall i :: 0 <= i < |ports| ==> ports[i] < 0x1_0000
    requires |targets| < 0x1_0000 && forall i :: 0 <= i < |targets| ==> |targets[i]| == UUID
    ensures Parse(Request(ip, ports, targets)) ==
            if |ports| <= 100 && |targets| <= 32 then Some(Parsed(ShortIp(ip), ports, targets)) else None
  {
    hide ToBE, FromBE, ReadPorts, ReadTargets, Ports, Flat;
    var d := Request(ip, ports, targets);
    var k, n, m := |ShortIp(ip)|, |ports|, |targets|;
    if n <= MOST_PORTS && m <= MOST_TARGETS {
      RequestRoundTrip(Parsed(ShortIp(ip), ports, targets), []);
      assert d + [] == d;
    } else {
      var t := Flat(targets);
      var s := Ports(ports) + ToBE(m, 2) + t;
      assert d == ([k] + ShortIp(ip)) + ToBE(n, 2) + s;
      Cut([k] + ShortIp(ip), ToBE(n, 2), s);
      TwoBytes(n);
      TwoBytes(m);
      PortsLength(ports);
      Cut(Ports(ports), ToBE(m, 2), t);
    }
  }

  // ---- The answer

  datatype Peer = Peer(uuid: Data, ip: Data, iport: nat, oport: nat)

  predicate PeerFits(p: Peer) {
    |p.uuid| == UUID && |p.ip| <= 255 && p.iport < 0x1_0000 && p.oport < 0x1_0000
  }

  function PeerBytes(p: Peer): Data {
    p.uuid + [|ShortIp(p.ip)|] + ShortIp(p.ip) + ToBE(p.iport, 2) + ToBE(p.oport, 2)
  }

  function PeersBytes(ps: seq<Peer>): Data {
    if ps == [] then [] else PeerBytes(ps[0]) + PeersBytes(ps[1..])
  }

  function Response(ps: seq<Peer>): Data {
    ToBE(|ps|, 2) + PeersBytes(ps)
  }

  /** The bytes of an answer: the number of peers, then one peer after the other. */
  lemma ResponseBytes(ps: seq<Peer>)
    requires |ps| < 0x1_0000
    ensures Response(ps) == [|ps| / 256, |ps| % 256] + PeersBytes(ps)
  {
    TwoByteForm(|ps|);
    hide ToBE, PeersBytes;
  }

  /** One peer: its number, its address behind the length, its two ports. */
  lemma PeerIsBytes(p: Peer)
    requires PeerFits(p)
    ensures PeerBytes(p) == p.uuid + [|p.ip|] + p.ip + [p.iport / 256, p.iport % 256] + [p.oport / 256, p.oport % 256]
  {
    TwoByteForm(p.iport);
    TwoByteForm(p.oport);
    hide ToBE;
    assert ShortIp(p.ip) == p.ip;
  }

  lemma PeersBytesAre(p: Peer, ps: seq<Peer>)
    ensures PeersBytes([p] + ps) == PeerBytes(p) + PeersBytes(ps) && PeersBytes([]) == []
  {
    assert ([p] + ps)[1..] == ps;
  }

  lemma {:induction false} PeersAreShort(ps: seq<Peer>)
    requires forall i :: 0 <= i < |ps| ==> PeerFits(ps[i])
    ensures |PeersBytes(ps)| <= 296 * |ps|
    decreases |ps|
  {
    if ps != [] {
      assert |PeerBytes(ps[0])| <= 296;
      PeersAreShort(ps[1..]);
    }
  }

  /** One record at the front, if it is complete. */
  function ReadPeer(s: Data): Option<(Peer, Data)> {
    if |s| < UUID + 1 then None
    else
      var k := UUID + 1 + s[UUID];
      if |s| < k + 4 then None
      else Some((Peer(s[..UUID], s[UUID + 1..k], FromBE(s[k..k + 2]), FromBE(s[k + 2..k + 4])), s[k + 4..]))
  }

  function ReadPeers(s: Data, n: nat): seq<Peer>
    decreases n
  {
    if n == 0 then []
    else match ReadPeer(s)
      case None => []
      case Some((p, rest)) => [p] + ReadPeers(rest, n - 1)
  }

  /** `handle_routine_response`: too short a text leaves the peers found before in place. */
  function ParseResponse(d: Data): Option<seq<Peer>> {
    if |d| < 2 then None else Some(ReadPeers(d[2..], FromBE(d[..2])))
  }

  lemma ReadPeerOf(p: Peer, rest: Data)
    requires PeerFits(p)
    ensures ReadPeer(PeerBytes(p) + rest) == Some((p, rest))
  {
    hide ToBE, FromBE;
    var k := UUID + 1 + |p.ip|;
    var s := PeerBytes(p) + rest;
    TwoBytes(p.iport);
    TwoBytes(p.oport);
    assert s == p.uuid + [|p.ip|] + (p.ip + ToBE(p.iport, 2) + (ToBE(p.oport, 2) + rest));
    Cut(p.uuid, [|p.ip|], p.ip + ToBE(p.iport, 2) + (ToBE(p.oport, 2) + rest));
    var u := s[UUID + 1..];
    Cut(p.ip, ToBE(p.iport, 2), ToBE(p.oport, 2) + rest);
    assert s[UUID + 1..k] == u[..|p.ip|] && s[k..k + 2] == u[|p.ip|..|p.ip| + 2];
    assert s[k + 2..] == u[|p.ip| + 2..] == ToBE(p.oport, 2) + rest;
    assert s[k + 2..k + 4] == s[k + 2..][..2] == ToBE(p.oport, 2);
    assert s[k + 4..] == s[k + 2..][2..] == rest;
  }

  lemma ReadPeerIsExact(s: Data)
    ensures match ReadPeer(s)
            case Some((p, rest)) => PeerFits(p) && s == PeerBytes(p) + rest
            case None => forall p, rest :: PeerFits(p) ==> s != PeerBytes(p) + rest
  {
    hide ToBE, FromBE;
    match ReadPeer(s)
    case Some((p, rest)) =>
      var k := UUID + 1 + s[UUID];
      TwoBytesBack(s[k..k + 2]);
      TwoBytesBack(s[k + 2..k + 4]);
      assert s == s[..UUID] + [s[UUID]] + s[UUID + 1..k] + s[k..k + 2] + s[k + 2..k + 4] + s[k + 4..];
    case None =>
      forall p, rest | PeerFits(p)
        ensures s != PeerBytes(p) + rest
      {
        ReadPeerOf(p, rest);
      }
  }

  lemma {:induction false} ReadPeersOf(ps: seq<Peer>, rest: Data)
    requires forall i :: 0 <= i < |ps| ==> PeerFits(ps[i])
    ensures ReadPeers(PeersBytes(ps) + rest, |ps|) == ps
    decreases |ps|
  {
    hide PeerBytes, ReadPeer, PeerFits;
    if ps != [] {
      var more := PeersBytes(ps[1..]) + rest;
      assert PeersBytes(ps) + rest == PeerBytes(ps[0]) + more;
      assert PeerFits(ps[0]);
      ReadPeerOf(ps[0], more);
      ReadPeersOf(ps[1..], rest);
      assert ps == [ps[0]] + ps[1..];
    }
  }

  /** The client reads exactly the peers the server wrote. */
  lemma ResponseRoundTrip(ps: seq<Peer>)
    requires forall i :: 0 <= i < |ps| ==> PeerFits(ps[i])
    requires |ps| < 0x1_0000
    ensures ParseResponse(Response(ps)) == Some(ps)
  {
    hide ToBE, FromBE, PeersBytes, ReadPeers;
    var d := Response(ps);
    assert d[..2] == ToBE(|ps|, 2) && d[2..] == PeersBytes(ps);
    TwoBytes(|ps|);
    ReadPeersOf(ps, []);
    assert PeersBytes(ps) + [] == PeersBytes(ps);
  }

  /** On any bytes the client takes the longest run of complete records, up to the announced number. */
  lemma {:induction false} ReadPeersIsGreedy(s: Data, n: nat) returns (rest: Data)
    ensures var ps := ReadPeers(s, n);
            && |ps| <= n
            && s == PeersBytes(ps) + rest
            && (forall i :: 0 <= i < |ps| ==> PeerFits(ps[i]))
            && (|ps| < n ==> forall p, more :: PeerFits(p) ==> rest != PeerBytes(p) + more)
    decreases n
  {
    hide PeerBytes, ReadPeer, PeerFits;
    rest := s;
    if n > 0 {
      ReadPeerIsExact(s);
      match ReadPeer(s)
      case None =>
      case Some((p, more)) =>
        rest := ReadPeersIsGreedy(more, n - 1);
        var ps := ReadPeers(s, n);
        assert ps[0] == p && ps[1..] == ReadPeers(more, n - 1);
        assert PeersBytes(ps) + rest == PeerBytes(p) + (PeersBytes(ps[1..]) + rest);
    }
  }

  // ---- The loops of both ends

  function Unsigned(b: nat): Data {
    [b / 256 % 256, b % 256]
  }

  lemma UnsignedIsBE(n: nat)
    ensures Unsigned(n) == ToBE(n, 2)
  {
    Spelt(n);
  }

  lemma {:induction false} PortsAppend(ps: seq<nat>, p: nat)
    ensures Ports(ps + [p]) == Ports(ps) + ToBE(p, 2)
    decreases |ps|
  {
    hide ToBE;
    if ps == [] {
      assert (ps + [p])[1..] == [];
    } else {
      assert (ps + [p])[1..] == ps[1..] + [p];
      PortsAppend(ps[1..], p);
    }
  }

  lemma {:induction false} FlatAppend(ts: seq<Data>, t: Data)
    ensures Flat(ts + [t]) == Flat(ts) + t
    decreases |ts|
  {
    if ts == [] {
      assert (ts + [t])[1..] == [];
    } else {
      assert (ts + [t])[1..] == ts[1..] + [t];
      FlatAppend(ts[1..], t);
    }
  }

  lemma {:induction false} PeersAppend(ps: seq<Peer>, p: Peer)
    ensures PeersBytes(ps + [p]) == PeersBytes(ps) + PeerBytes(p)
    decreases |ps|
  {
    hide PeerBytes;
    if ps == [] {
      assert (ps + [p])[1..] == [];
    } else {
      assert (ps + [p])[1..] == ps[1..] + [p];
      PeersAppend(ps[1..], p);
    }
  }

  method WriteRequest(ip: Data, ports: seq<nat>, targets: seq<Data>) returns (raw: Data)
    ensures raw == Request(ip, ports, targets)
  {
    hide ToBE, Ports, Flat;
    var ipLen := Min(|ip|, 255);
    raw := [ipLen] + ip[..ipLen];
    UnsignedIsBE(|ports|);
    raw := raw + Unsigned(|ports|);
    ghost var head := raw;
    NoPorts();
    for i := 0 to |ports|
      invariant raw == head + Ports(ports[..i])
    {
      assert ports[..i + 1] == ports[..i] + [ports[i]];
      PortsAppend(ports[..i], ports[i]);
      UnsignedIsBE(ports[i]);
      raw := raw + Unsigned(ports[i]);
    }
    assert ports[..|ports|] == ports;
    UnsignedIsBE(|targets|);
    raw := raw + Unsigned(|targets|);
    ghost var body := raw;
    for i := 0 to |targets|
      invariant raw == body + Flat(targets[..i])
    {
      assert targets[..i + 1] == targets[..i] + [targets[i]];
      FlatAppend(targets[..i], targets[i]);
      raw := raw + targets[i];
    }
    assert targets[..|targets|] == targets;
  }

  lemma NoPorts()
    ensures Ports([]) == [] && Flat([]) == [] && PeersBytes([]) == []
  {
  }

  lemma {:induction false} ReadPortsAt(s: Data, n: nat, i: nat)
    requires i < n && |s| >= 2 * n
    ensures |ReadPorts(s, n)| == n && ReadPorts(s, n)[i] == FromBE(s[2 * i..2 * i + 2])
    decreases n
  {
    hide FromBE;
    PortsOfRead(s, n);
    if i > 0 {
      ReadPortsAt(s[2..], n - 1, i - 1);
      assert s[2..][2 * (i - 1)..2 * (i - 1) + 2] == s[2 * i..2 * i + 2];
    } else {
      assert s[2 * i..2 * i + 2] == s[..2];
    }
  }

  lemma {:induction false} ReadTargetsAt(s: Data, n: nat, i: nat)
    requires i < n && |s| >= UUID * n
    ensures |ReadTargets(s, n)| == n && ReadTargets(s, n)[i] == s[UUID * i..UUID * i + UUID]
    decreases n
  {
    FlatOfRead(s, n);
    if i > 0 {
      ReadTargetsAt(s[UUID..], n - 1, i - 1);
      assert s[UUID..][UUID * (i - 1)..UUID * (i - 1) + UUID] == s[UUID * i..UUID * i + UUID];
    } else {
      assert s[UUID * i..UUID * i + UUID] == s[..UUID];
    }
  }

  method ParsePorts(d: Data, start: nat, n: nat) returns (ports: seq<nat>, offset: nat)
    requires |d| >= start + 2 * n
    ensures offset == start + 2 * n && ports == ReadPorts(d[start..], n)
  {
    hide FromBE, ReadPorts;
    ports, offset := [], start;
    ghost var s := d[start..];
    PortsOfRead(s, n);
    for i := 0 to n
      invariant offset == start + 2 * i && |ports| == i
      invariant ports == ReadPorts(s, n)[..i]
    {
      ReadPortsAt(s, n, i);
      assert s[2 * i..2 * i + 2] == d[offset..offset + 2];
      ports := ports + [FromBE(d[offset..offset + 2])];
      offset := offset + 2;
    }
  }

  method ParseTargets(d: Data, start: nat, n: nat) returns (targets: seq<Data>, offset: nat)
    requires |d| >= start + UUID * n
    ensures offset == start + UUID * n && targets == ReadTargets(d[start..], n)
  {
    hide ReadTargets;
    targets, offset := [], start;
    ghost var s := d[start..];
    FlatOfRead(s, n);
    for i := 0 to n
      invariant offset == start + UUID * i && |targets| == i
      invariant targets == ReadTargets(s, n)[..i]
    {
      ReadTargetsAt(s, n, i);
      assert s[UUID * i..UUID * i + UUID] == d[offset..offset + UUID];
      targets := targets + [d[offset..offset + UUID]];
      offset := offset + UUID;
    }
  }

  method ParseRequest(d: Data) returns (r: Option<Parsed>)
    ensures r == Parse(d)
  {
    hide FromBE, ReadPorts, ReadTargets;
    var offset := 0;
    if |d| < 1 {
      return None;
    }
    var ipLen := d[offset];
    offset := offset + 1;
    if |d| < offset + ipLen + 2 {
      return None;
    }
    var ip := d[offset..offset + ipLen];
    offset := offset + ipLen;
    var nPorts := FromBE(d[offset..offset + 2]);
    offset := offset + 2;
    ghost var s := d[offset..];
    if nPorts > MOST_PORTS {
      return None;
    }
    if |d| < offset + 2 * nPorts + 2 {
      return None;
    }
    var ports, next := ParsePorts(d, offset, nPorts);
    assert s[2 * nPorts..2 * nPorts + 2] == d[next..next + 2];
    offset := next;
    var nTargets := FromBE(d[offset..offset + 2]);
    offset := offset + 2;
    assert s[2 * nPorts + 2..] == d[offset..];
    if nTargets > MOST_TARGETS {
      return None;
    }
    if |d| < offset + UUID * nTargets {
      return None;
    }
    var targets, end := ParseTargets(d, offset, nTargets);
    r := Some(Parsed(ip, ports, targets));
  }

  method WriteResponse(ps: seq<Peer>) returns (raw: Data)
    ensures raw == Response(ps)
  {
    hide ToBE, PeersBytes;
    UnsignedIsBE(|ps|);
    raw := Unsigned(|ps|);
    ghost var head := raw;
    NoPorts();
    for i := 0 to |ps|
      invariant raw == head + PeersBytes(ps[..i])
    {
      assert ps[..i + 1] == ps[..i] + [ps[i]];
      PeersAppend(ps[..i], ps[i]);
      var p := ps[i];
      ghost var before := raw;
      UnsignedIsBE(p.iport);
      UnsignedIsBE(p.oport);
      raw := raw + (p.uuid + [|ShortIp(p.ip)|] + ShortIp(p.ip) + Unsigned(p.iport) + Unsigned(p.oport));
      assert raw == before + PeerBytes(p);
    }
    assert ps[..|ps|] == ps;
  }

  method ReadResponse(d: Data) returns (ps: Option<seq<Peer>>)
    ensures ps == ParseResponse(d)
  {
    hide FromBE, ReadPeers, ReadPeer;
    if |d| < 2 {
      return None;
    }
    var numPeers := FromBE(d[..2]);
    var found: seq<Peer> := [];
    var offset := 2;
    var i := 0;
    while i < numPeers && offset < |d|
      invariant 0 <= i <= numPeers && 2 <= offset <= |d|
      invariant ReadPeers(d[2..], numPeers) == found + ReadPeers(d[offset..], numPeers - i)
      decreases numPeers - i
    {
      ghost var s := d[offset..];
      assert |s| == |d| - offset;
      if offset + UUID > |d| {
        ReadPeerShort(d, offset, numPeers - i);
        break;
      }
      var uuid := d[offset..offset + UUID];
      if offset + UUID + 1 > |d| {
        ReadPeerShort(d, offset, numPeers - i);
        break;
      }
      var ipLen: nat := d[offset + UUID];
      var k := offset + UUID + 1 + ipLen;
      if k > |d| {
        ReadPeerShort(d, offset, numPeers - i);
        break;
      }
      var ip := d[offset + UUID + 1..k];
      if k + 4 > |d| {
        ReadPeerShort(d, offset, numPeers - i);
        break;
      }
      var p := Peer(uuid, ip, FromBE(d[k..k + 2]), FromBE(d[k + 2..k + 4]));
      assert ReadPeer(s) == Some((p, d[k + 4..])) by {
        ReadPeerAt(d, offset);
      }
      ReadPeersStep(s, numPeers - i, p, d[k + 4..]);
      assert (found + [p]) + ReadPeers(d[k + 4..], numPeers - i - 1)
          == found + ([p] + ReadPeers(d[k + 4..], numPeers - i - 1));
      found := found + [p];
      offset := k + 4;
      i := i + 1;
    }
    if i == numPeers || offset == |d| {
      ReadPeerShort(d, offset, numPeers - i);
    }
    assert found + [] == found;
    ps := Some(found);
  }

  lemma ReadPeersStep(s: Data, n: nat, p: Peer, rest: Data)
    requires n > 0 && ReadPeer(s) == Some((p, rest))
    ensures ReadPeers(s, n) == [p] + ReadPeers(rest, n - 1)
  {
  }

  /** Nothing is read at an incomplete record, nor once the announced number is reached. */
  lemma ReadPeerShort(d: Data, o: nat, n: nat)
    requires o <= |d|
    requires n == 0 || o + UUID + 1 > |d| || o + UUID + 1 + d[o + UUID] + 4 > |d|
    ensures ReadPeers(d[o..], n) == []
  {
    if n > 0 && o + UUID + 1 <= |d| {
      assert d[o..][UUID] == d[o + UUID];
    }
  }

  lemma ReadPeerAt(d: Data, o: nat)
    requires o + UUID + 1 <= |d|
    requires o + UUID + 1 + d[o + UUID] + 4 <= |d|
    ensures var k := o + UUID + 1 + d[o + UUID];
            ReadPeer(d[o..]) ==
            Some((Peer(d[o..o + UUID], d[o + UUID + 1..k], FromBE(d[k..k + 2]), FromBE(d[k + 2..k + 4])), d[k + 4..]))
  {
    hide FromBE;
    var s := d[o..];
    var k := o + UUID + 1 + d[o + UUID];
    assert s[UUID] == d[o + UUID];
    assert s[..UUID] == d[o..o + UUID];
    assert s[UUID + 1..k - o] == d[o + UUID + 1..k];
    assert s[k - o..k - o + 2] == d[k..k + 2];
    assert s[k - o + 2..k - o + 4] == d[k + 2..k + 4];
    assert s[k - o + 4..] == d[k + 4..];
  }
}
