/** Runs that show what can happen: two complete runs of the tunnel, move by move, with
    the default settings. */
module Witnesses {
  import opened Base
  import opened Confirmations
  import opened Receivers
  import opened Senders
  import opened Rates
  import opened Endpoints
  import opened Tunnels
  import opened Streams
  import opened PacketData

  /** Some run of two new connections leads to this state. */
  ghost predicate Reachable(t: Tunnel) {
    exists start: Tunnel, moves: seq<Move> :: Leads(start, moves, t)
  }

  ghost predicate Leads(start: Tunnel, moves: seq<Move>, t: Tunnel) {
    Start(start) && ValidRun(start, moves) && After(start, moves) == t
  }

  lemma {:induction false} RunExtends(t: Tunnel, moves: seq<Move>, m: Move)
    requires ValidRun(t, moves) && Possible(After(t, moves), m) && Countable(Apply(After(t, moves), m))
    ensures ValidRun(t, moves + [m]) && After(t, moves + [m]) == Apply(After(t, moves), m)
    decreases |moves|
  {
    hide Possible, Apply, Countable;
    if moves == [] {
      assert [] + [m] == [m];
      assert ValidRun(Apply(t, m), []);
    } else {
      RunExtends(Apply(t, moves[0]), moves[1..], m);
      assert (moves + [m])[1..] == moves[1..] + [m];
    }
  }

  lemma Extend(t: Tunnel, m: Move, u: Tunnel)
    requires Reachable(t) && Possible(t, m) && u == Apply(t, m) && Countable(u)
    ensures Reachable(u)
  {
    hide Start, ValidRun, After, Possible, Apply, Countable;
    var start: Tunnel, moves: seq<Move> :| Leads(start, moves, t);
    RunExtends(start, moves, m);
    assert Leads(start, moves + [m], u);
  }

  lemma AtStart(t: Tunnel)
    requires Start(t)
    ensures Reachable(t)
  {
    StartOk(t);
    assert Leads(t, [], t) by {
      assert ValidRun(t, []);
    }
  }

  /** A handler of one side runs. */
  lemma LocalMove(t: Tunnel, side: Side, a: Action, now: int, u: Tunnel)
    requires Reachable(t) && !a.Receive? && Ready(t.End(side), a, now)
    requires u == t.With(side, Step(t.End(side), a, now)) && Countable(u)
    ensures Reachable(u)
  {
    hide Reachable, Ready, Step, Countable;
    Extend(t, Local(side, a, now), u);
  }

  /** A datagram the other side sent arrives. */
  lemma ArrivalMove(t: Tunnel, side: Side, d: Datagram, now: int, u: Tunnel)
    requires Reachable(t) && 0 <= t.End(side).clock <= now && d in t.End(side.Other()).snd.outbox
    requires !d.kind.Unknown? && 0 <= d.index < INT_MAX
    requires u == t.With(side, Step(t.End(side), Receive(d), now)) && Countable(u)
    ensures Reachable(u)
  {
    hide Reachable, Step, Countable, CheckCrc32, Parse, Frame;
    FrameRoundTrip(d);
    Extend(t, Arrive(side, Frame(d), now), u);
  }

  // ---------- two new connections ----------

  const INTERVAL := 1000

  const HELLO := Datagram(Hello, 0, [])

  function New(): Endpoint { Initial(DEFAULTS, INTERVAL, 0) }

  lemma NewPair()
    ensures Reachable(Tunnel(New(), New()))
  {
    var i: nat, m: nat := INTERVAL, 0;
    assert Start(Tunnel(Initial(DEFAULTS, i, m), Initial(DEFAULTS, i, m)));
    AtStart(Tunnel(New(), New()));
  }

  /** Alive with no timer in the way: what all states below have in common. */
  predicate Running(e: Endpoint, now: int) {
    e.cfg == DEFAULTS && e.clock == now && e.udpConnected && e.rate.intervalUs == INTERVAL && |e.snd.log| <= 2
  }

  // ---------- bytes are thrown away ----------

  const BYE := Datagram(Bye, 1, [])

  predicate Greeted(e: Endpoint) {
    && Running(e, 0) && e.tcpConnected && e.rcv == Receivers.EMPTY
    && e.snd.packets.Keys == {0} && e.snd.packets[0].sent
    && e.snd.next == |e.snd.log| == 1 && e.snd.control == [] && e.snd.data == [] && e.snd.toSend == 0
    && HELLO in e.snd.outbox && e.pacer.udpWrite == -1 && e.pacer.lastSentUs == 0
  }

  lemma Greets()
    ensures Ready(New(), WriteUdp(true), 0) && Greeted(Step(New(), WriteUdp(true), 0))
  {
    var e := New();
    assert e.snd.packets == map[0 := Fresh(HELLO, DEFAULTS.udpResendCount)];
    assert 0 in e.snd.packets && !e.snd.packets[0].sent;
    assert FirstUnsent(e.snd.packets).Some?;
  }

  predicate Leaving(e: Endpoint) {
    && Running(e, 0) && !e.tcpConnected && e.rcv == Receivers.EMPTY
    && e.snd.packets.Keys == {0, 1} && e.snd.packets[0].sent && e.snd.packets[1] == Fresh(BYE, DEFAULTS.udpResendCount)
    && e.snd.control == [] && HELLO in e.snd.outbox && e.pacer.udpWrite == INTERVAL
  }

  lemma Leaves(e: Endpoint)
    requires Greeted(e)
    ensures Leaving(Step(e, CloseTcp(false), 0))
  {
    var c := e.(clock := 0, tcpConnected := false, timers := e.timers.(tcpWrite := -1));
    assert Discard(c.rcv) == c.rcv;
    assert CutAll(c, true, 0) == c;
  }

  predicate Left(e: Endpoint) {
    Running(e, INTERVAL) && HELLO in e.snd.outbox && BYE in e.snd.outbox
  }

  lemma SaysBye(e: Endpoint)
    requires Leaving(e)
    ensures Ready(e, WriteUdp(true), INTERVAL) && Left(Step(e, WriteUdp(true), INTERVAL))
  {
    assert FirstUnsent(e.snd.packets) == Some(1);
  }

  predicate HeardHello(e: Endpoint) {
    && Running(e, INTERVAL) && e.tcpConnected && e.snd == New().snd
    && e.rcv.packets.Keys == {0} && e.rcv.master == 1 && e.rcv.tcpNext == 0 && e.rcv.final == INT_MAX
    && e.timers.buildConfirmations == INTERVAL + DEFAULTS.buildConfirmationsUs && e.pacer.udpWrite == 0
  }

  lemma HearsHello(e: Endpoint)
    requires e == New()
    ensures HeardHello(Step(e, Receive(HELLO), INTERVAL))
  {
  }

  predicate HeardBye(e: Endpoint) {
    Running(e, INTERVAL) && e.tcpConnected && e.snd == New().snd && Finished(e.rcv)
  }

  lemma HearsBye(e: Endpoint)
    requires HeardHello(e)
    ensures HeardBye(Step(e, Receive(BYE), INTERVAL))
  {
    assert 0 in e.snd.packets;
    var stored := Insert(e.rcv, BYE);
    assert Advance(stored) == stored.(master := 2, final := 2);
  }

  lemma ReadsInVain(e: Endpoint, bytes: seq<byte>)
    requires HeardBye(e) && 0 < |bytes| <= DEFAULTS.udpSendPacketSize
    ensures var f := Step(e, ReadTcp(bytes), INTERVAL);
      Ready(e, ReadTcp(bytes), INTERVAL) && Running(f, INTERVAL) && Lossy(f.snd)
  {
  }

  lemma ClosesAnyTime(e: Endpoint)
    requires Greeted(e)
    ensures Ready(e, CloseTcp(false), 0)
  {
  }

  /** The peer greets and leaves. */
  lemma PeerLeaves() returns (t: Tunnel)
    ensures Reachable(t) && t.left == New() && Left(t.right)
  {
    hide Reachable, Step, Ready, Initial, Enqueue;
    var r0 := New();
    NewPair();
    Greets();
    var r1 := Step(r0, WriteUdp(true), 0);
    NewIsShort(r0);
    LocalMove(Tunnel(r0, r0), Side.Right, WriteUdp(true), 0, Tunnel(r0, r1));
    Leaves(r1);
    var r2 := Step(r1, CloseTcp(false), 0);
    ClosesAnyTime(r1);
    LocalMove(Tunnel(r0, r1), Side.Right, CloseTcp(false), 0, Tunnel(r0, r2));
    SaysBye(r2);
    var r3 := Step(r2, WriteUdp(true), INTERVAL);
    LocalMove(Tunnel(r0, r2), Side.Right, WriteUdp(true), INTERVAL, Tunnel(r0, r3));
    t := Tunnel(r0, r3);
  }

  lemma NewIsShort(e: Endpoint)
    requires e == New()
    ensures |e.snd.log| == 1 && e.clock == 0
  {
  }

  /** Bytes are lost: the peer greets and leaves, both datagrams arrive, and whatever is
      read from TCP afterwards is thrown away. */
  lemma BytesCanBeLost(bytes: seq<byte>)
    requires 0 < |bytes| <= DEFAULTS.udpSendPacketSize
    ensures exists t: Tunnel :: Reachable(t) && t.left.udpConnected && Lossy(t.left.snd)
  {
    var t := PeerLeaves();
    hide Reachable, Step, Ready, Initial, Enqueue, Lossy;
    var l0, r := New(), t.right;
    NewIsShort(l0);
    HearsHello(l0);
    var l1 := Step(l0, Receive(HELLO), INTERVAL);
    ArrivalMove(t, Side.Left, HELLO, INTERVAL, Tunnel(l1, r));
    HearsBye(l1);
    var l2 := Step(l1, Receive(BYE), INTERVAL);
    ArrivalMove(Tunnel(l1, r), Side.Left, BYE, INTERVAL, Tunnel(l2, r));
    ReadsInVain(l2, bytes);
    var l3 := Step(l2, ReadTcp(bytes), INTERVAL);
    LocalMove(Tunnel(l2, r), Side.Left, ReadTcp(bytes), INTERVAL, Tunnel(l3, r));
  }

  // ---------- a packet counts both ways ----------

  function Full(bytes: seq<byte>): Datagram { Datagram(Data, 1, bytes) }

  predicate IsFull(bytes: seq<byte>) { |bytes| == DEFAULTS.udpSendPacketSize }

  const RESEND_US := DEFAULTS.udpResendUs

  /** The open measure has counted these many bytes. */
  predicate Measured(r: Rate, size: int, success: int, fail: int) {
    && r.index == 0 && r.measures.Keys == {0}
    && r.measures[0].beginUs == 0 && r.measures[0].endUs == -1
    && r.measures[0].size == size && r.measures[0].successSize == success && r.measures[0].failSize == fail
  }

  predicate HasRead(e: Endpoint, bytes: seq<byte>) {
    && Running(e, 0) && e.tcpConnected && e.rcv == Receivers.EMPTY && Measured(e.rate, 0, 0, 0)
    && e.snd.packets == map[0 := Fresh(HELLO, 20), 1 := Fresh(Full(bytes), 20)]
    && e.snd.control == [] && e.snd.data == [] && e.snd.toSend == 2
    && e.pacer.udpWrite == 0 && e.timers.udpResend == -1
  }

  lemma Reads(bytes: seq<byte>)
    requires IsFull(bytes)
    ensures Ready(New(), ReadTcp(bytes), 0) && HasRead(Step(New(), ReadTcp(bytes), 0), bytes)
  {
    var e := New();
    var c := e.(snd := e.snd.(tcpIn := [] + bytes, data := bytes));
    assert [] + bytes == bytes && bytes[..|bytes|] == bytes && bytes[|bytes|..] == [];
    var q := Queue(c.(snd := c.snd.(data := [])), Data, bytes, 0);
    assert CutAll(q, false, 0) == q;
    assert CutAll(c, false, 0) == q;
  }

  /** The hello packet was sent. */
  predicate HasGreeted(e: Endpoint, bytes: seq<byte>) {
    && Running(e, 0) && e.tcpConnected && e.rcv == Receivers.EMPTY && Measured(e.rate, 0, 0, 0)
    && e.snd.packets == map[0 := Sent(HELLO, 0, false), 1 := Fresh(Full(bytes), 20)]
    && e.snd.control == [] && e.snd.data == [] && e.snd.toSend == 1
    && e.pacer.udpWrite == INTERVAL && e.timers.udpResend == RESEND_US
    && HELLO in e.snd.outbox
  }

  /** A packet that was sent once, and possibly given up since. */
  function Sent(d: Datagram, at: int, waits: bool): Packet {
    Packet(d, !waits, at, 0, if waits then 19 else 20, false)
  }

  /** Both packets were sent; they may wait to be sent again. */
  predicate HasSent(e: Endpoint, bytes: seq<byte>, now: int, helloWaits: bool, dataWaits: bool) {
    && Running(e, now) && e.tcpConnected && e.rcv == Receivers.EMPTY
    && Measured(e.rate, |bytes|, 0, if dataWaits then |bytes| else 0)
    && e.snd.packets == map[0 := Sent(HELLO, 0, helloWaits), 1 := Sent(Full(bytes), INTERVAL, dataWaits)]
    && HELLO in e.snd.outbox && Full(bytes) in e.snd.outbox
  }

  lemma SendsHello(e: Endpoint, bytes: seq<byte>)
    requires HasRead(e, bytes)
    ensures Ready(e, WriteUdp(true), 0) && HasGreeted(Step(e, WriteUdp(true), 0), bytes)
  {
    assert 0 in e.snd.packets && !e.snd.packets[0].sent;
    assert FirstUnsent(e.snd.packets) == Some(0);
  }

  lemma SendsData(e: Endpoint, bytes: seq<byte>)
    requires HasGreeted(e, bytes) && IsFull(bytes)
    ensures var f := Step(e, WriteUdp(true), INTERVAL);
      && Ready(e, WriteUdp(true), INTERVAL) && HasSent(f, bytes, INTERVAL, false, false)
      && f.timers.udpResend == RESEND_US
  {
    assert 1 in e.snd.packets && !e.snd.packets[1].sent;
    assert FirstUnsent(e.snd.packets) == Some(1);
  }

  lemma KeysZeroOne(s: set<nat>)
    requires s == {0, 1}
    ensures Ascending(s) == [0, 1]
  {
    assert Least(s) == 0 && s - {0} == {1};
    assert Least({1}) == 1 && {1} - {1} == {};
  }

  lemma ExpiresHello(e: Endpoint, bytes: seq<byte>, now: int)
    requires HasSent(e, bytes, now, false, false) && now == INTERVAL + RESEND_US
    ensures HasSent(ExpireOne(e, 0, now), bytes, now, true, false)
    ensures ResendFrom(e, [0, 1], 0, now) == ResendFrom(ExpireOne(e, 0, now), [0, 1], 1, now)
  {
  }

  lemma ExpiresData(e: Endpoint, bytes: seq<byte>, now: int)
    requires HasSent(e, bytes, now, true, false) && now == INTERVAL + RESEND_US
    ensures HasSent(ExpireOne(e, 1, now), bytes, now, true, true)
  {
  }

  lemma ResendEnds(e: Endpoint, bytes: seq<byte>, now: int)
    requires HasSent(e, bytes, now, true, false) && now == INTERVAL + RESEND_US
    ensures ResendFrom(e, [0, 1], 1, now) == ExpireOne(e, 1, now)
  {
    var f := ExpireOne(e, 1, now);
    hide ExpireOne;
    assert ResendFrom(f, [0, 1], 2, now) == f;
  }

  lemma Expires(e: Endpoint, bytes: seq<byte>)
    requires HasSent(e, bytes, INTERVAL, false, false) && e.timers.udpResend == RESEND_US
    ensures var now := INTERVAL + RESEND_US;
      Ready(e, Resend, now) && HasSent(Step(e, Resend, now), bytes, now, true, true)
  {
    hide ResendFrom, ExpireOne, Measured;
    var now := INTERVAL + RESEND_US;
    var c := e.(clock := now, timers := e.timers.(udpResend := -1));
    KeysZeroOne(c.snd.packets.Keys);
    ExpiresHello(c, bytes, now);
    var d := ExpireOne(c, 0, now);
    ExpiresData(d, bytes, now);
    ResendEnds(d, bytes, now);
  }

  // ---------- the peer confirms ----------

  const CONFIRMATION := Datagram(Confirmation, 2, [])

  predicate HeardData(e: Endpoint) {
    && Running(e, INTERVAL) && e.tcpConnected && |e.snd.packets| > 0
    && e.rcv.packets.Keys == {0, 1} && e.rcv.master == 2 && e.rcv.final == INT_MAX
    && e.timers.buildConfirmations == INTERVAL + DEFAULTS.buildConfirmationsUs && e.pacer.udpWrite == 0
    && e.snd.control == []
  }

  lemma HearsData(e: Endpoint, bytes: seq<byte>)
    requires HeardHello(e) && IsFull(bytes)
    ensures HeardData(Step(e, Receive(Full(bytes)), INTERVAL))
  {
    assert 0 in e.snd.packets;
    var stored := Insert(e.rcv, Full(bytes));
    assert Advance(stored) == stored.(master := 2);
  }

  predicate Confirms(e: Endpoint, now: int) {
    && Running(e, now) && e.tcpConnected && |e.snd.packets| > 0 && !Finished(e.rcv)
    && e.pacer.udpWrite == 0 && e.snd.control == [Fresh(CONFIRMATION, 0)]
  }

  lemma Confirmed(e: Endpoint)
    requires HeardData(e)
    ensures var now := INTERVAL + DEFAULTS.buildConfirmationsUs;
      Ready(e, Confirm, now) && Confirms(Step(e, Confirm, now), now)
  {
    assert KeysFrom(e.rcv.packets, 2) == {};
    assert Ascending({}) == [];
    assert ConfirmationPayloads(e) == [[]];
  }

  lemma SendsConfirmation(e: Endpoint, now: int)
    requires Confirms(e, now) && now >= 0
    ensures var f := Step(e, WriteUdp(true), now);
      Ready(e, WriteUdp(true), now) && Running(f, now) && CONFIRMATION in f.snd.outbox
  {
  }

  // ---------- the confirmation arrives late ----------

  lemma ConfirmsHello(e: Endpoint, bytes: seq<byte>, now: int)
    requires HasSent(e, bytes, now, true, true)
    ensures var f := ConfirmOne(e, 0);
      && ConfirmBelow(e, [0, 1], 0, 2) == ConfirmBelow(f, [0, 1], 1, 2)
      && Measured(f.rate, |bytes|, 0, |bytes|) && Running(f, now) && f.tcpConnected && f.rcv == e.rcv
      && f.snd.packets == map[1 := Sent(Full(bytes), INTERVAL, true)]
  {
  }

  lemma ConfirmsData(e: Endpoint, bytes: seq<byte>, now: int)
    requires Running(e, now) && Measured(e.rate, |bytes|, 0, |bytes|)
    requires e.snd.packets == map[1 := Sent(Full(bytes), INTERVAL, true)]
    ensures var f := ConfirmBelow(e, [0, 1], 1, 2);
      && Measured(f.rate, |bytes|, |bytes|, |bytes|) && Running(f, now) && f.snd.packets == map[]
      && f.tcpConnected == e.tcpConnected && f.rcv == e.rcv
  {
    var f := ConfirmOne(e, 1);
    assert Measured(f.rate, |bytes|, |bytes|, |bytes|) && Running(f, now) && f.snd.packets == map[];
    hide ConfirmOne;
    assert ConfirmBelow(f, [0, 1], 2, 2) == f;
  }

  lemma NothingListed()
    ensures Listed(2, []) == []
  {
  }

  lemma AllConfirmed(e: Endpoint, bytes: seq<byte>, now: int)
    requires HasSent(e, bytes, now, true, true)
    ensures var f := ConfirmAll(e, CONFIRMATION);
      && Measured(f.rate, |bytes|, |bytes|, |bytes|) && Running(f, now)
      && f.tcpConnected && f.rcv == Receivers.EMPTY
  {
    hide ConfirmBelow, ConfirmOne, Measured, Listed, Ascending;
    KeysZeroOne(e.snd.packets.Keys);
    ConfirmsHello(e, bytes, now);
    ConfirmsData(ConfirmOne(e, 0), bytes, now);
    NothingListed();
  }

  lemma IsConfirmed(e: Endpoint, bytes: seq<byte>, now: int)
    requires HasSent(e, bytes, now, true, true)
    ensures var f := Step(e, Receive(CONFIRMATION), now);
      Running(f, now) && Measured(f.rate, |bytes|, |bytes|, |bytes|)
  {
    hide ConfirmAll, Measured, UdpClose;
    assert e.(clock := now) == e;
    AllConfirmed(e, bytes, now);
  }

  /** The peer hears both packets and confirms them. */
  lemma PeerConfirms(t: Tunnel, bytes: seq<byte>) returns (u: Tunnel)
    requires Reachable(t) && IsFull(bytes) && t.right == New() && HasSent(t.left, bytes, INTERVAL, false, false)
    ensures Reachable(u) && u.left == t.left && |u.right.snd.log| <= 2 && CONFIRMATION in u.right.snd.outbox
  {
    hide Reachable, Step, Ready, Initial, Enqueue;
    var l, r0 := t.left, New();
    NewIsShort(r0);
    HearsHello(r0);
    var r1 := Step(r0, Receive(HELLO), INTERVAL);
    ArrivalMove(t, Side.Right, HELLO, INTERVAL, Tunnel(l, r1));
    HearsData(r1, bytes);
    var r2 := Step(r1, Receive(Full(bytes)), INTERVAL);
    ArrivalMove(Tunnel(l, r1), Side.Right, Full(bytes), INTERVAL, Tunnel(l, r2));
    Confirmed(r2);
    var now := INTERVAL + DEFAULTS.buildConfirmationsUs;
    var r3 := Step(r2, Confirm, now);
    LocalMove(Tunnel(l, r2), Side.Right, Confirm, now, Tunnel(l, r3));
    SendsConfirmation(r3, now);
    var r4 := Step(r3, WriteUdp(true), now);
    LocalMove(Tunnel(l, r3), Side.Right, WriteUdp(true), now, Tunnel(l, r4));
    u := Tunnel(l, r4);
  }

  lemma SenderSends(bytes: seq<byte>) returns (t: Tunnel)
    requires IsFull(bytes)
    ensures Reachable(t) && t.right == New() && HasSent(t.left, bytes, INTERVAL, false, false)
    ensures t.left.timers.udpResend == RESEND_US
  {
    hide Reachable, Step, Ready, Initial, Enqueue;
    var e0 := New();
    NewPair();
    NewIsShort(e0);
    Reads(bytes);
    var e1 := Step(e0, ReadTcp(bytes), 0);
    LocalMove(Tunnel(e0, e0), Side.Left, ReadTcp(bytes), 0, Tunnel(e1, e0));
    SendsHello(e1, bytes);
    var e2 := Step(e1, WriteUdp(true), 0);
    LocalMove(Tunnel(e1, e0), Side.Left, WriteUdp(true), 0, Tunnel(e2, e0));
    SendsData(e2, bytes);
    var e3 := Step(e2, WriteUdp(true), INTERVAL);
    LocalMove(Tunnel(e2, e0), Side.Left, WriteUdp(true), INTERVAL, Tunnel(e3, e0));
    t := Tunnel(e3, e0);
  }

  /** A full packet is sent, expires because its confirmation is slow, and is confirmed
      before it is sent again: the only measure then counts all bytes as success and as
      failure. */
  lemma SumsCanExceedSize(bytes: seq<byte>)
    requires IsFull(bytes)
    ensures exists t: Tunnel ::
      Reachable(t) && t.left.udpConnected && Measured(t.left.rate, |bytes|, |bytes|, |bytes|)
  {
    var t := SenderSends(bytes);
    var u := PeerConfirms(t, bytes);
    hide Reachable, Step, Ready, Initial, Enqueue;
    var now := INTERVAL + RESEND_US;
    var l0, r := u.left, u.right;
    Expires(l0, bytes);
    var l1 := Step(l0, Resend, now);
    LocalMove(u, Side.Left, Resend, now, Tunnel(l1, r));
    IsConfirmed(l1, bytes, now);
    var l2 := Step(l1, Receive(CONFIRMATION), now);
    ArrivalMove(Tunnel(l1, r), Side.Left, CONFIRMATION, now, Tunnel(l2, r));
    assert Reachable(Tunnel(l2, r));
  }
}
