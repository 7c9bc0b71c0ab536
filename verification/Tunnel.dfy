/** Two connections and a network that drops, repeats and reorders datagrams: what
    holds in every run. */
module Tunnels {
  import opened Base
  import opened Confirmations
  import opened Receivers
  import opened Senders
  import opened Rates
  import opened Endpoints
  import opened Invariants
  import opened PreservationUdp
  import opened PreservationStep
  import opened PacketData
  import IntPair

  // ---------- construction ----------

  lemma InitialSender(cfg: Config, clock: int)
    ensures SendOk(cfg, Enqueue(cfg, Senders.EMPTY, Hello, []), true, clock)
  {
    var s := Enqueue(cfg, Senders.EMPTY, Hello, []);
    var p := Fresh(Datagram(Hello, 0, []), cfg.udpResendCount);
    TotalInsert(map[], 0, p, Bytes);
    TotalInsert(map[], 0, p, Unsent);
    assert s.packets == map[][0 := p];
  }

  lemma InitialCounted(cfg: Config, intervalUs: int, now: int)
    ensures Counted(cfg, InitialRate(intervalUs, now), map[0 := Fresh(Datagram(Hello, 0, []), cfg.udpResendCount)], map[], true)
  {
    hide Total;
    var packets: map<nat, Packet> := map[0 := Fresh(Datagram(Hello, 0, []), cfg.udpResendCount)];
    TotalZero(packets, Tried(0, cfg.udpResendCount));
    TotalZero(packets, InFlight(0));
  }

  lemma InitialReceiver(cfg: Config)
    ensures RecvOk(Receivers.EMPTY, Window(cfg), cfg.udpSendPacketSize, true)
  {
    hide RecvOk;
    InitialRecvOk(Window(cfg), cfg.udpSendPacketSize);
  }

  /** The constructor establishes the invariant; hello waits to be sent now, with the given
      interval, and the first measure begins. */
  lemma InitialOk(cfg: Config, intervalUs: nat, now: nat)
    ensures EndOk(Initial(cfg, intervalUs, now))
    ensures var e := Initial(cfg, intervalUs, now);
      && e.tcpConnected && e.udpConnected
      && e.snd.log == [Datagram(Hello, 0, [])] && e.snd.packets.Keys == {0} && e.pacer.udpWrite == now
      && e.rate.intervalUs == intervalUs && e.rate.measures == map[0 := Measure(now, -1, 0, 0, 0, 0, 0)]
  {
    hide SendOk, RecvOk, Counted;
    var e := Initial(cfg, intervalUs, now);
    InitialSender(cfg, now);
    InitialReceiver(cfg);
    InitialCounted(cfg, intervalUs, now);
    assert e.snd.packets == map[0 := Fresh(Datagram(Hello, 0, []), cfg.udpResendCount)];
    assert e.snd.log == [Datagram(Hello, 0, [])];
    assert LogContents(e.snd.log, 1) == LogContents(e.snd.log, 0) + [];
  }

  // ---------- runs ----------

  datatype Side = Left | Right {
    function Other(): Side { if Left? then Right else Left }
  }

  datatype Tunnel = Tunnel(left: Endpoint, right: Endpoint) {
    function End(side: Side): Endpoint { if side.Left? then left else right }

    function With(side: Side, e: Endpoint): Tunnel {
      if side.Left? then Tunnel(e, right) else Tunnel(left, e)
    }
  }

  /** A handler of one side runs, or raw bytes from the network reach one side. */
  datatype Move =
    | Local(side: Side, action: Action, now: int)
    | Arrive(side: Side, raw: seq<byte>, now: int)

  /** Any bytes may arrive, any number of times; those that pass the check are a
      datagram that the other side handed to its socket before. */
  ghost predicate Possible(t: Tunnel, m: Move) {
    match m
    case Local(side, action, now) => !action.Receive? && Ready(t.End(side), action, now)
    case Arrive(side, raw, now) =>
      && 0 <= t.End(side).clock <= now
      && (CheckCrc32(raw) ==> exists d :: d in t.End(side.Other()).snd.outbox && raw == Frame(d))
  }

  /** `UdpListener::handle` passes on what passes the check. */
  ghost function Apply(t: Tunnel, m: Move): Tunnel {
    match m
    case Local(side, action, now) => t.With(side, Step(t.End(side), action, now))
    case Arrive(side, raw, now) =>
      if CheckCrc32(raw) then t.With(side, Step(t.End(side), Receive(Parse(raw)), now)) else t
  }

  /** Both sides have numbered fewer packets than an index can count. */
  ghost predicate Countable(t: Tunnel) {
    |t.left.snd.log| < INT_MAX && |t.right.snd.log| < INT_MAX
  }

  ghost predicate ValidRun(t: Tunnel, moves: seq<Move>)
    decreases |moves|
  {
    && Countable(t)
    && (moves == [] || (Possible(t, moves[0]) && ValidRun(Apply(t, moves[0]), moves[1..])))
  }

  ghost function After(t: Tunnel, moves: seq<Move>): Tunnel
    decreases |moves|
  {
    if moves == [] then t else After(Apply(t, moves[0]), moves[1..])
  }

  /** Two new connections with the same settings. */
  ghost predicate Start(t: Tunnel) {
    exists cfg: Config, i: nat, j: nat, m: nat, n: nat :: t == Tunnel(Initial(cfg, i, m), Initial(cfg, j, n))
  }

  // ---------- the invariant of a tunnel ----------

  /** What one side received is what the other numbered and sent. */
  ghost predicate Linked(s: Sender, got: map<nat, Datagram>) {
    forall k: nat :: k in got ==> k < |s.log| && got[k] == s.log[k] && k in s.attempts
  }

  /** Every numbered packet is still stored or was received, as long as UDP is open or
      was closed because everything is done. */
  ghost predicate Covered(e: Endpoint, got: map<nat, Datagram>) {
    e.udpConnected || e.reason.AllDone? ==> forall k: nat :: k < |e.snd.log| ==> k in e.snd.packets || k in got
  }

  ghost predicate Link(e: Endpoint, peer: Endpoint) {
    e.cfg == peer.cfg && Linked(e.snd, peer.rcv.got) && Covered(e, peer.rcv.got)
  }

  ghost predicate TunnelOk(t: Tunnel) {
    && EndOk(t.left) && EndOk(t.right)
    && Link(t.left, t.right) && Link(t.right, t.left)
  }

  // ---------- one move keeps it ----------

  lemma StartOk(t: Tunnel)
    requires Start(t)
    ensures TunnelOk(t) && Countable(t)
  {
    hide EndOk;
    var cfg: Config, i: nat, j: nat, m: nat, n: nat :| t == Tunnel(Initial(cfg, i, m), Initial(cfg, j, n));
    InitialOk(cfg, i, m);
    InitialOk(cfg, j, n);
  }

  lemma EndParts(e: Endpoint)
    requires EndOk(e)
    ensures EndCore(e)
    ensures LogOk(e.snd.log, e.cfg.udpSendPacketSize) && OutboxOk(e.snd.outbox, e.snd.log, e.snd.attempts)
    ensures AllTruthful(e.snd.outbox, e.snd.control, e.rcv.got)
    ensures GotOk(e.rcv.got, e.cfg.udpSendPacketSize)
    ensures RecvOk(e.rcv, Window(e.cfg), e.cfg.udpSendPacketSize, e.tcpConnected)
  {
    hide ByeOk, LogOk, OutboxOk, AllTruthful, GotOk, PacketsOk, ControlOk, AllBudgetsOk, Total, QueueBytes;
    hide RateOkAt, Counted, Paced, StreamIn, ReasonOk, EndsWithBye, Contents, Kept, AllStoredOk, FinalOk, StreamOpen, Contiguous;
  }

  lemma TruthfulIndex(d: Datagram, got: map<nat, Datagram>, packetSize: int)
    requires Truthful(d, got) && GotOk(got, packetSize)
    ensures d.kind.Confirmation? ==> d.index <= INT_MAX
  {
    hide Listed;
    var k: nat := INT_MAX;
    assert k in got ==> k < INT_MAX - 1;
  }

  /** What a side sent travels through the wire form unchanged. */
  lemma SentIsReadable(e: Endpoint, d: Datagram)
    requires EndOk(e) && d in e.snd.outbox && |e.snd.log| < INT_MAX
    ensures Parse(Frame(d)) == d
  {
    EndParts(e);
    hide EndOk, EndCore, RecvOk, Parse, Frame, Listed;
    assert d.IsNumbered() || d.IsControl(|e.snd.log|);
    TruthfulIndex(d, e.rcv.got, e.cfg.udpSendPacketSize);
    FrameRoundTrip(d);
  }

  lemma PeerIsHonest(e: Endpoint, peer: Endpoint, d: Datagram)
    requires EndOk(peer) && Link(e, peer) && Link(peer, e) && d in peer.snd.outbox && |peer.snd.log| < INT_MAX
    ensures Honest(e, d)
    ensures d.IsNumbered() ==> 0 <= d.index < |peer.snd.log| && d == peer.snd.log[d.index] && d.index in peer.snd.attempts
    ensures forall k: nat :: k in AckedBy(e, d) ==> k in peer.rcv.got
  {
    EndParts(peer);
    hide EndOk, EndCore, RecvOk, Listed;
    assert Truthful(d, peer.rcv.got);
  }

  lemma GrowsParts(e: Endpoint, f: Endpoint)
    requires Grows(e, f)
    ensures SendGrows(e.snd, f.snd) && RecvGrows(e.rcv, f.rcv) && f.cfg == e.cfg && e.clock <= f.clock
    ensures !e.udpConnected ==> !f.udpConnected && f.reason == e.reason && f.snd == e.snd.(tcpIn := f.snd.tcpIn)
  {
    hide SendGrows, RecvGrows;
  }

  /** The side that moved still covers and links what its peer received. */
  lemma MoverKeepsLink(e: Endpoint, f: Endpoint, peer: Endpoint, acked: set<nat>)
    requires Link(e, peer) && Grows(e, f) && Covers(e, f, acked)
    requires forall k: nat :: k in acked ==> k in peer.rcv.got
    ensures Link(f, peer)
  {
    GrowsParts(e, f);
    hide Grows, RecvGrows, EndsWithBye;
    if f.udpConnected || f.reason.AllDone? {
      forall k: nat | k < |f.snd.log|
        ensures k in f.snd.packets || k in peer.rcv.got
      {
        if k < |e.snd.log| {
          assert k in e.snd.packets || k in peer.rcv.got;
        }
      }
    }
  }

  /** The side that did not move stays linked to what the other now received. */
  lemma PeerKeepsLink(peer: Endpoint, e: Endpoint, f: Endpoint, d: Datagram)
    requires Link(peer, e) && f.cfg == e.cfg
    requires d.IsNumbered() ==> 0 <= d.index < |peer.snd.log| && d == peer.snd.log[d.index] && d.index in peer.snd.attempts
    requires f.rcv.got == e.rcv.got || (d.IsNumbered() && f.rcv.got == e.rcv.got[d.index := d])
    ensures Link(peer, f)
  {
  }

  lemma LocalKeeps(e: Endpoint, peer: Endpoint, a: Action, now: int)
    requires EndOk(e) && Link(e, peer) && Link(peer, e) && !a.Receive? && Ready(e, a, now)
    ensures var f := Step(e, a, now);
      EndOk(f) && Grows(e, f) && Link(f, peer) && Link(peer, f)
  {
    hide EndOk, Grows, Covers, Step, Link, Ready;
    StepKeeps(e, a, now);
    StepGot(e, a, now);
    MoverKeepsLink(e, Step(e, a, now), peer, {});
    GrowsParts(e, Step(e, a, now));
    SameGotKeepsLink(peer, e, Step(e, a, now));
  }

  lemma SameGotKeepsLink(peer: Endpoint, e: Endpoint, f: Endpoint)
    requires Link(peer, e) && f.cfg == e.cfg && f.rcv.got == e.rcv.got
    ensures Link(peer, f)
  {
  }

  lemma ArrivalKeeps(e: Endpoint, peer: Endpoint, d: Datagram, now: int)
    requires EndOk(e) && EndOk(peer) && Link(e, peer) && Link(peer, e) && |peer.snd.log| < INT_MAX
    requires d in peer.snd.outbox && 0 <= e.clock <= now
    ensures var f := Step(e, Receive(d), now);
      EndOk(f) && Grows(e, f) && Link(f, peer) && Link(peer, f)
  {
    hide EndOk, Grows, Covers, Link, UdpRead, Honest, AckedBy;
    PeerIsHonest(e, peer, d);
    StepKeeps(e, Receive(d), now);
    var f := Step(e, Receive(d), now);
    MoverKeepsLink(e, f, peer, AckedBy(e, d));
    ReceivedGot(e, d, now);
    GrowsParts(e, f);
    PeerKeepsLink(peer, e, f, d);
  }

  lemma ReceivedGot(e: Endpoint, d: Datagram, now: int)
    requires EndOk(e) && Honest(e, d) && 0 <= e.clock <= now
    ensures var f := Step(e, Receive(d), now);
      f.rcv.got == e.rcv.got || (d.IsNumbered() && f.rcv.got == e.rcv.got[d.index := d])
  {
    hide EndOk, Grows, Covers, UdpRead, AckedBy;
    ClockStep(e, now);
    UdpReadKeeps(e.(clock := now), d, now);
  }

  /** A side only ever grows. */
  ghost predicate BothGrow(t: Tunnel, u: Tunnel) {
    Grows(t.left, u.left) && Grows(t.right, u.right)
  }

  lemma MoveKeeps(t: Tunnel, m: Move)
    requires TunnelOk(t) && Countable(t) && Possible(t, m)
    ensures TunnelOk(Apply(t, m)) && BothGrow(t, Apply(t, m))
  {
    hide EndOk, Link, Grows, Step, Ready, CheckCrc32, Parse, Frame;
    GrowsItself(t.left);
    GrowsItself(t.right);
    var e, peer := t.End(m.side), t.End(m.side.Other());
    match m {
      case Local(side, action, now) =>
        LocalKeeps(e, peer, action, now);
      case Arrive(side, raw, now) =>
        if CheckCrc32(raw) {
          var d :| d in peer.snd.outbox && raw == Frame(d);
          SentIsReadable(peer, d);
          ArrivalKeeps(e, peer, d, now);
        }
    }
  }

  lemma GrowsItself(e: Endpoint)
    ensures Grows(e, e)
  {
  }

  lemma {:induction false} RunKeeps(t: Tunnel, moves: seq<Move>)
    requires TunnelOk(t) && ValidRun(t, moves)
    ensures TunnelOk(After(t, moves)) && Countable(After(t, moves)) && BothGrow(t, After(t, moves))
    decreases |moves|
  {
    hide TunnelOk, Countable, Possible, Apply, Grows;
    if moves == [] {
      GrowsItself(t.left);
      GrowsItself(t.right);
    } else {
      var u := Apply(t, moves[0]);
      MoveKeeps(t, moves[0]);
      RunKeeps(u, moves[1..]);
      GrowsTransitive(t.left, u.left, After(u, moves[1..]).left);
      GrowsTransitive(t.right, u.right, After(u, moves[1..]).right);
    }
  }
}
