/** The bytes between TCP and the numbered packets: which steps move them, and exactly
    which step loses some. */
module Streams {
  import opened Base
  import opened Confirmations
  import opened Receivers
  import opened Senders
  import opened Rates
  import opened Endpoints
  import opened Invariants
  import opened Preservation
  import opened PreservationUdp
  import opened PreservationStep
  import opened PacketData
  import opened Tunnels

  /** What was read from TCP is what is numbered and what waits to be numbered. */
  ghost predicate Conserved(s: Sender) {
    LogContents(s.log, |s.log|) + s.data == s.tcpIn
  }

  /** Some of what was read from TCP is neither numbered nor waiting. */
  ghost predicate Lossy(s: Sender) {
    |LogContents(s.log, |s.log|)| + |s.data| < |s.tcpIn|
  }

  // ---------- steps that do not touch the stream ----------

  ghost predicate SameStream(e: Endpoint, f: Endpoint) {
    f.snd.log == e.snd.log && f.snd.tcpIn == e.snd.tcpIn && (f.udpConnected ==> f.snd.data == e.snd.data)
  }

  lemma UdpCloseStream(e: Endpoint, reason: CloseReason, now: int)
    ensures SameStream(e, UdpClose(e, reason, now))
    ensures e.udpConnected ==> !UdpClose(e, reason, now).udpConnected
  {
  }

  lemma CloseIfFinishedStream(e: Endpoint, now: int)
    ensures SameStream(e, CloseIfFinished(e, now))
  {
    hide UdpClose, IsUdpFinished;
    UdpCloseStream(e, AllDone, now);
  }

  lemma SendStream(e: Endpoint, planned: int, taken: bool, now: int)
    ensures SameStream(e, UdpWrite(e, planned, taken, now))
  {
    hide UdpClose, OnSent, IsUdpFinished;
    if e.udpConnected {
      if e.snd.control != [] {
        UdpCloseStream(SendControl(e, planned), AllDone, now);
      } else if FirstUnsent(e.snd.packets).Some? {
        var k := FirstUnsent(e.snd.packets).value;
        var s := SendPacket(e, k, planned, now);
        UdpCloseStream(s.(snd := Erase(s.snd, k)), AllDone, now);
      }
    }
  }

  lemma {:induction false} ResendFromStream(e: Endpoint, ks: seq<nat>, i: nat, now: int)
    ensures SameStream(e, ResendFrom(e, ks, i, now))
    decreases |ks| - i
  {
    hide UdpClose, OnDelivered;
    if i < |ks| {
      if ks[i] !in e.snd.packets || !e.snd.packets[ks[i]].sent {
        ResendFromStream(e, ks, i + 1, now);
      } else {
        var p := e.snd.packets[ks[i]];
        ResendFromStream(ArmResend(e, p.sentTimeUs + e.cfg.udpResendUs), ks, i + 1, now);
        ResendFromStream(ExpireOne(e, ks[i], now), ks, i + 1, now);
        UdpCloseStream(e, NoAnswer(ks[i]), now);
      }
    }
  }

  lemma {:induction false} PushAllStream(s: Sender, master: int, payloads: seq<seq<byte>>)
    ensures var t := PushAll(s, master, payloads);
      t.log == s.log && t.data == s.data && t.tcpIn == s.tcpIn
    decreases |payloads|
  {
    if payloads != [] {
      PushAllStream(PushControl(s, Confirmation, master, payloads[0]), master, payloads[1..]);
    }
  }

  lemma {:induction false} ConfirmBelowStream(e: Endpoint, ks: seq<nat>, i: nat, master: int)
    ensures var f := ConfirmBelow(e, ks, i, master);
      SameStream(e, f) && f.udpConnected == e.udpConnected && f.snd.data == e.snd.data
    decreases |ks| - i
  {
    hide OnDelivered;
    if i < |ks| && ks[i] < master {
      if ks[i] in e.snd.packets {
        ConfirmBelowStream(ConfirmOne(e, ks[i]), ks, i + 1, master);
      } else {
        ConfirmBelowStream(e, ks, i + 1, master);
      }
    }
  }

  lemma {:induction false} ConfirmListedStream(e: Endpoint, indices: seq<int>, i: nat)
    ensures var f := ConfirmListed(e, indices, i);
      SameStream(e, f) && f.udpConnected == e.udpConnected && f.snd.data == e.snd.data
    decreases |indices| - i
  {
    hide OnDelivered;
    if i < |indices| {
      if indices[i] >= 0 && indices[i] in e.snd.packets {
        ConfirmListedStream(ConfirmOne(e, indices[i]), indices, i + 1);
      } else {
        ConfirmListedStream(e, indices, i + 1);
      }
    }
  }

  lemma ReadStream(e: Endpoint, d: Datagram, now: int)
    ensures SameStream(e, UdpRead(e, d, now))
  {
    hide ConfirmBelow, ConfirmListed, IsNoMoreDataWillBeSent, CloseIfFinished, Store, Discard, WithoutConfirmations, QueueBytes;
    if e.udpConnected {
      if d.kind.Confirmation? {
        var ks := Ascending(e.snd.packets.Keys);
        ConfirmBelowStream(e, ks, 0, d.index);
        ConfirmListedStream(ConfirmBelow(e, ks, 0, d.index), Listed(d.index, d.payload), 0);
        CloseIfFinishedStream(ReadConfirmation(e, d, now), now);
      } else if Acceptable(e.rcv, d, Window(e.cfg)) {
        CloseIfFinishedStream(ReadNumbered(e, d, now), now);
      } else if d.kind.ByeBye? && d.index == e.rcv.master && d.index == e.rcv.final {
        CloseIfFinishedStream(ReadByeBye(e, now), now);
      } else {
        CloseIfFinishedStream(e, now);
      }
    }
  }

  /** Only reading from TCP, flushing and closing TCP touch the stream. */
  predicate Moves(a: Action) { a.ReadTcp? || a.Build? || a.CloseTcp? || a.WriteTcp? }

  lemma StepSameStream(e: Endpoint, a: Action, now: int)
    requires !Moves(a)
    ensures SameStream(e, Step(e, a, now))
  {
    hide UdpWrite, UdpClose, ResendFrom, CloseIfFinished, ConfirmationPayloads, PushAll, UdpRead, QueueBytes, WithoutConfirmations;
    var c := e.(clock := now);
    match a {
      case WriteUdp(taken) => SendStream(c.(pacer := c.pacer.(udpWrite := -1)), e.pacer.udpWrite, taken, now);
      case CloseUdp => UdpCloseStream(c, ByCaller, now);
      case Confirm => PushAllStream(DropConfirmations(c.snd), c.rcv.master, ConfirmationPayloads(c.(timers := c.timers.(buildConfirmations := -1))));
      case SayByeBye =>
      case Resend =>
        var r := c.(timers := c.timers.(udpResend := -1));
        ResendFromStream(r, Ascending(r.snd.packets.Keys), 0, now);
      case CloseWait => CloseIfFinishedStream(c.(timers := c.timers.(udpCloseWait := -1)), now);
      case Receive(d) => ReadStream(c, d, now);
    }
  }

  // ---------- flushing ----------

  /** `buildUdpPackets` numbers the buffer and, once the peer has finished, throws it
      away: what was conserved stays so exactly when there was nothing to throw away. */
  lemma BuildConserves(e: Endpoint, flush: bool, now: int)
    requires EndCore(e) && e.udpConnected
    requires EndsWithBye(e.snd.log) ==> e.snd.data == []
    ensures var f := BuildUdpPackets(e, flush, now);
      && f.udpConnected && f.rcv == e.rcv && f.snd.tcpIn == e.snd.tcpIn
      && (Finished(e.rcv) ==> f.snd.log == e.snd.log && f.snd.data == [])
      && (Conserved(e.snd) ==> (Conserved(f.snd) <==> !(Finished(e.rcv) && e.snd.data != [])))
      && (Conserved(e.snd) && !Conserved(f.snd) ==> Lossy(f.snd))
      && (Lossy(e.snd) ==> Lossy(f.snd))
  {
    BuildKeeps(e, flush, now);
    var f := BuildUdpPackets(e, flush, now);
    StreamOf(e);
    StreamOf(f);
    if Finished(e.rcv) {
      NothingToCut(e.(snd := e.snd.(data := [])), flush, now);
    }
    BuildTcpIn(e, flush, now);
    hide EndCore, EndsWithBye, LogContents, BuildUdpPackets;
    Unchanged(LogContents(e.snd.log, |e.snd.log|), e.snd.data);
  }

  lemma Unchanged(s: seq<byte>, t: seq<byte>)
    ensures s + t == s + [] <==> t == []
    ensures s + [] == s && |s + t| == |s| + |t|
  {
  }

  lemma StreamOf(e: Endpoint)
    requires EndCore(e)
    ensures LogContents(e.snd.log, |e.snd.log|) <= e.snd.tcpIn
    ensures e.udpConnected && !Finished(e.rcv) ==> Conserved(e.snd)
  {
    CoreParts(e);
    hide EndCore;
  }

  lemma {:induction false} CutAllTcpIn(e: Endpoint, flush: bool, now: int)
    ensures CutAll(e, flush, now).snd.tcpIn == e.snd.tcpIn
    decreases |e.snd.data|
  {
    if Cut(e.cfg, e.snd.data, flush) {
      var n := Min(|e.snd.data|, e.cfg.udpSendPacketSize);
      CutAllTcpIn(Queue(e.(snd := e.snd.(data := e.snd.data[n..])), Data, e.snd.data[..n], now), flush, now);
    }
  }

  lemma BuildTcpIn(e: Endpoint, flush: bool, now: int)
    ensures BuildUdpPackets(e, flush, now).snd.tcpIn == e.snd.tcpIn
  {
    hide CutAll;
    CutAllTcpIn(e.(snd := e.snd.(data := if Finished(e.rcv) then [] else e.snd.data)), flush, now);
  }

  /** The steps inside a handler in terms of contents alone. */
  ghost predicate SameContents(e: Endpoint, f: Endpoint) {
    && LogContents(f.snd.log, |f.snd.log|) == LogContents(e.snd.log, |e.snd.log|)
    && f.snd.data == e.snd.data && f.snd.tcpIn == e.snd.tcpIn
  }

  /** What a handler makes of the stream when it is known whether it throws bytes away. */
  ghost predicate Fate(e: Endpoint, f: Endpoint, discards: bool) {
    && (Conserved(e.snd) ==> (Conserved(f.snd) <==> !discards))
    && (Conserved(e.snd) && discards ==> Lossy(f.snd))
    && (Lossy(e.snd) ==> Lossy(f.snd))
  }

  lemma SameFate(e: Endpoint, f: Endpoint)
    requires SameStream(e, f) && f.udpConnected
    ensures Fate(e, f, false)
  {
  }

  lemma ByeContents(log: seq<Datagram>, d: Datagram)
    requires d.IsBye()
    ensures LogContents(log + [d], |log + [d]|) == LogContents(log, |log|)
  {
    AppendContents(log, d);
    assert LogContents(log, |log|) + [] == LogContents(log, |log|);
  }

  /** `tcpClose` flushes before it numbers the closing packet. */
  lemma TcpCloseFate(e: Endpoint, error: bool, now: int)
    requires EndOk(e) && e.tcpConnected && e.udpConnected
    ensures var f := TcpClose(e, error, now);
      && f.udpConnected && !f.tcpConnected && f.snd.data == []
      && Fate(e, f, Finished(e.rcv) && e.snd.data != [])
      && (Finished(e.rcv) ==> exists d: Datagram :: d.IsBye() && f.snd.log == e.snd.log + [d])
  {
    hide EndCore, BuildUdpPackets, TcpWriteFake, ArmUdpWrite, EndsWithBye, LogContents;
    NoByeYet(e);
    var c := e.(tcpConnected := false, timers := e.timers.(tcpWrite := -1));
    CloseTcpKeeps(e);
    TimersKeep(e.(tcpConnected := false), c);
    TcpWriteFakeKeeps(c);
    var w := TcpWriteFake(c);
    BuildConserves(w, true, now);
    BuildKeeps(w, true, now);
    var b := BuildUdpPackets(w, true, now);
    var d := Datagram(if error then Disconnect else Bye, b.snd.next, []);
    assert TcpClose(e, error, now).snd.log == b.snd.log + [d];
    ByeContents(b.snd.log, d);
  }

  // ---------- any step ----------

  /** The steps that throw bytes away: reading or flushing after the peer has finished. */
  predicate Discards(e: Endpoint, a: Action) {
    && e.udpConnected && Finished(e.rcv)
    && match a
       case ReadTcp(bytes) => e.tcpConnected && bytes != []
       case Build => e.snd.data != []
       case CloseTcp(_) => e.tcpConnected && e.snd.data != []
       case WriteTcp(accepted) => e.tcpConnected && Deliver(e.rcv, accepted).Closing? && e.snd.data != []
       case _ => false
  }

  lemma ReadFate(e: Endpoint, bytes: seq<byte>, now: int)
    requires EndOk(e) && e.udpConnected
    ensures var f := TcpRead(e, bytes, now);
      && f.udpConnected && f.rcv == e.rcv
      && Fate(e, f, e.tcpConnected && Finished(e.rcv) && bytes != [])
      && (e.tcpConnected && Finished(e.rcv) && e.snd.data == [] ==> f.snd.log == e.snd.log && f.snd.data == [])
  {
    hide EndCore, EndsWithBye, BuildUdpPackets, Conserved, Lossy;
    ItsOwnFate(e);
    if e.tcpConnected {
      NoByeYet(e);
      ReadKeeps(e, bytes);
      BytesJoin(e.snd, bytes);
      if bytes != [] {
        BuildConserves(e.(snd := e.snd.(tcpIn := e.snd.tcpIn + bytes, data := e.snd.data + bytes)), false, now);
      } else {
        assert e.snd.tcpIn + bytes == e.snd.tcpIn;
      }
    }
  }

  lemma BytesJoin(s: Sender, bytes: seq<byte>)
    ensures var t := s.(tcpIn := s.tcpIn + bytes, data := s.data + bytes);
      (Conserved(s) ==> Conserved(t)) && (Lossy(s) ==> Lossy(t))
  {
    hide LogContents;
    var all := LogContents(s.log, |s.log|);
    assert all + (s.data + bytes) == (all + s.data) + bytes;
  }

  lemma WriteFate(e: Endpoint, accepted: int, now: int)
    requires EndOk(e) && e.udpConnected
    ensures var f := TcpWrite(e, accepted, now);
      && f.udpConnected
      && Fate(e, f, e.tcpConnected && Finished(e.rcv) && Deliver(e.rcv, accepted).Closing? && e.snd.data != [])
  {
    hide EndCore, RecvOk, Deliver, TcpClose, Conserved, Lossy;
    if e.tcpConnected {
      CoreReceiver(e);
      DeliverKeeps(e.rcv, accepted, Window(e.cfg), e.cfg.udpSendPacketSize);
      var d := Deliver(e.rcv, accepted);
      var m := e.(rcv := d.r);
      ReceiverKeeps(e, d.r, true);
      assert m == e.(rcv := d.r, tcpConnected := true);
      SameFateHere(e, m);
      if d.Closing? {
        TcpCloseFate(m, false, now);
        FateThrough(e, m, TcpClose(m, false, now), Finished(m.rcv) && m.snd.data != []);
      } else {
        SameFateHere(e, TcpWrite(e, accepted, now));
      }
    }
    ItsOwnFate(e);
  }

  lemma SameFateHere(e: Endpoint, f: Endpoint)
    requires f.snd == e.snd
    ensures Fate(e, f, false) && SameContents(e, f)
  {
    hide LogContents;
    ExclusiveFates(e.snd);
  }

  lemma ItsOwnFate(e: Endpoint)
    ensures Fate(e, e, false)
  {
    SameFateHere(e, e);
  }

  lemma ExclusiveFates(s: Sender)
    ensures !(Conserved(s) && Lossy(s))
  {
  }

  lemma FateThrough(e: Endpoint, m: Endpoint, f: Endpoint, discards: bool)
    requires Fate(e, m, false) && Fate(m, f, discards)
    ensures Fate(e, f, discards)
  {
    hide Conserved, Lossy;
  }

  /** The main result about one step: as long as UDP is open, nothing is lost but by the
      steps that throw bytes away, and those do lose some, for good. */
  lemma StepFate(e: Endpoint, a: Action, now: int)
    requires EndOk(e) && Ready(e, a, now) && e.udpConnected && Step(e, a, now).udpConnected
    ensures Fate(e, Step(e, a, now), Discards(e, a))
  {
    hide EndCore, ByeOk, EndsWithBye, Fate, TcpRead, TcpWrite, TcpClose, UdpWrite, UdpClose, BuildUdpPackets, UdpRead, CloseIfFinished, Deliver;
    hide BuildConfirmations, BuildByeBye, UdpResend;
    var c := e.(clock := now);
    ClockStep(e, now);
    SameFateHere(e, c);
    var f := Step(e, a, now);
    match a {
      case ReadTcp(bytes) =>
        ReadFate(c, bytes, now);
        FateThrough(e, c, f, Discards(e, a));
      case Build =>
        var t := c.(timers := c.timers.(buildUdpPackets := -1));
        TimerStep(c, t.timers);
        SameFateHere(e, t);
        BuildFate(t, now);
        FateThrough(e, t, f, Discards(e, a));
      case CloseTcp(error) =>
        if e.tcpConnected {
          TcpCloseFate(c, error, now);
        } else {
          ClosedTcp(c, error, now);
        }
        FateThrough(e, c, f, Discards(e, a));
      case WriteTcp(accepted) =>
        var t := c.(timers := c.timers.(tcpWrite := -1));
        TimerStep(c, t.timers);
        SameFateHere(e, t);
        WriteFate(t, accepted, now);
        FateThrough(e, t, f, Discards(e, a));
      case _ =>
        StepSameStream(e, a, now);
        SameFate(e, f);
    }
  }

  lemma ClosedTcp(e: Endpoint, error: bool, now: int)
    requires !e.tcpConnected
    ensures TcpClose(e, error, now) == e && Fate(e, e, false)
  {
    ItsOwnFate(e);
  }

  lemma BuildFate(e: Endpoint, now: int)
    requires EndOk(e) && e.udpConnected
    ensures Fate(e, BuildUdpPackets(e, true, now), Finished(e.rcv) && e.snd.data != [])
  {
    hide EndCore, EndsWithBye, BuildUdpPackets;
    if e.tcpConnected {
      NoByeYet(e);
    }
    BuildConserves(e, true, now);
  }

  // ---------- whole runs ----------

  /** A move in which one side throws bytes away. */
  predicate DiscardsAt(t: Tunnel, m: Move, side: Side) {
    m.Local? && m.side == side && Discards(t.End(side), m.action)
  }

  ghost predicate NoDiscard(t: Tunnel, moves: seq<Move>, side: Side)
    decreases |moves|
  {
    moves == [] || (!DiscardsAt(t, moves[0], side) && NoDiscard(Apply(t, moves[0]), moves[1..], side))
  }

  lemma MoveFate(t: Tunnel, m: Move, side: Side)
    requires TunnelOk(t) && Countable(t) && Possible(t, m)
    requires t.End(side).udpConnected && Apply(t, m).End(side).udpConnected
    ensures Fate(t.End(side), Apply(t, m).End(side), DiscardsAt(t, m, side))
  {
    hide EndOk, Link, Step, Ready, CheckCrc32, Parse, Frame, Fate, Discards;
    var e := t.End(side);
    ItsOwnFate(e);
    if m.side == side {
      match m {
        case Local(_, action, now) => StepFate(e, action, now);
        case Arrive(_, raw, now) =>
          if CheckCrc32(raw) {
            ArrivalFate(e, Parse(raw), now);
          }
      }
    }
  }

  lemma ArrivalFate(e: Endpoint, d: Datagram, now: int)
    requires Step(e, Receive(d), now).udpConnected
    ensures Fate(e, Step(e, Receive(d), now), false)
  {
    hide Step, Fate;
    StepSameStream(e, Receive(d), now);
    SameFate(e, Step(e, Receive(d), now));
  }

  /** Through any run that leaves UDP open: what was conserved still is exactly when no
      move threw bytes away, and what was lost stays lost. */
  lemma {:induction false} RunFate(t: Tunnel, moves: seq<Move>, side: Side)
    requires TunnelOk(t) && ValidRun(t, moves) && After(t, moves).End(side).udpConnected
    ensures t.End(side).udpConnected
    ensures Fate(t.End(side), After(t, moves).End(side), !NoDiscard(t, moves, side))
    decreases |moves|
  {
    hide TunnelOk, Countable, Possible, Apply, Fate, DiscardsAt;
    if moves == [] {
      ItsOwnFate(t.End(side));
    } else {
      var u := Apply(t, moves[0]);
      MoveKeeps(t, moves[0]);
      OpenBefore(t, u, side);
      RunFate(u, moves[1..], side);
      MoveFate(t, moves[0], side);
      FateJoined(t.End(side), u.End(side), After(t, moves).End(side), DiscardsAt(t, moves[0], side), !NoDiscard(u, moves[1..], side));
    }
  }

  lemma OpenBefore(t: Tunnel, u: Tunnel, side: Side)
    requires BothGrow(t, u)
    ensures u.End(side).udpConnected ==> t.End(side).udpConnected
  {
    hide SendGrows, RecvGrows;
  }

  lemma FateJoined(e: Endpoint, m: Endpoint, f: Endpoint, first: bool, second: bool)
    requires Fate(e, m, first) && Fate(m, f, second)
    ensures Fate(e, f, first || second)
  {
    hide Conserved, Lossy;
    ExclusiveFates(f.snd);
  }

  // ---------- no more data ----------

  /** Nothing will be numbered any more but at most a closing packet. */
  ghost predicate Quiet(e: Endpoint) {
    e.udpConnected ==> (!e.tcpConnected || Finished(e.rcv)) && e.snd.data == []
  }

  /** The log stayed, or a closing packet was numbered. */
  ghost predicate OnlyBye(log: seq<Datagram>, more: seq<Datagram>) {
    more == log || (|more| == |log| + 1 && more[..|log|] == log && more[|log|].IsBye())
  }

  lemma QuietBuild(e: Endpoint, flush: bool, now: int)
    requires e.snd.data == []
    ensures var f := BuildUdpPackets(e, flush, now);
      f.snd.log == e.snd.log && f.snd.data == [] && f.rcv == e.rcv && f.tcpConnected == e.tcpConnected && f.udpConnected == e.udpConnected
  {
    NothingToCut(e, flush, now);
  }

  lemma QuietTcpClose(e: Endpoint, error: bool, now: int)
    requires EndOk(e) && Quiet(e)
    ensures Quiet(TcpClose(e, error, now)) && OnlyBye(e.snd.log, TcpClose(e, error, now).snd.log)
  {
    hide EndOk, Fate;
    if e.tcpConnected && e.udpConnected {
      TcpCloseFate(e, error, now);
    }
  }

  lemma QuietWrite(e: Endpoint, accepted: int, now: int)
    requires EndOk(e) && Quiet(e)
    ensures Quiet(TcpWrite(e, accepted, now)) && OnlyBye(e.snd.log, TcpWrite(e, accepted, now).snd.log)
  {
    hide EndCore, RecvOk, Deliver, TcpClose, OnlyBye;
    assert OnlyBye(e.snd.log, e.snd.log) by { SameLog(e.snd.log); }
    if e.tcpConnected {
      CoreReceiver(e);
      DeliverKeeps(e.rcv, accepted, Window(e.cfg), e.cfg.udpSendPacketSize);
      var d := Deliver(e.rcv, accepted);
      ReceiverKeeps(e, d.r, true);
      assert e.(rcv := d.r) == e.(rcv := d.r, tcpConnected := true);
      if d.Closing? {
        QuietTcpClose(e.(rcv := d.r), false, now);
      }
    }
  }

  lemma SameLog(log: seq<Datagram>)
    ensures OnlyBye(log, log)
  {
  }

  lemma QuietRead(e: Endpoint, bytes: seq<byte>, now: int)
    requires EndOk(e) && Quiet(e)
    ensures Quiet(TcpRead(e, bytes, now)) && TcpRead(e, bytes, now).snd.log == e.snd.log
  {
    hide EndOk, Fate, BuildUdpPackets;
    if e.tcpConnected && e.udpConnected {
      ReadFate(e, bytes, now);
    }
  }

  lemma QuietStep(e: Endpoint, a: Action, now: int)
    requires EndOk(e) && Ready(e, a, now) && (a.Receive? ==> Honest(e, a.d)) && Quiet(e)
    ensures var f := Step(e, a, now);
      Quiet(f) && OnlyBye(e.snd.log, f.snd.log)
  {
    hide EndOk, Honest, TcpRead, TcpWrite, TcpClose, UdpWrite, UdpClose, BuildUdpPackets, UdpRead, CloseIfFinished;
    hide BuildConfirmations, BuildByeBye, UdpResend;
    var c := e.(clock := now);
    ClockStep(e, now);
    match a {
      case ReadTcp(bytes) => QuietRead(c, bytes, now);
      case Build =>
        if e.udpConnected {
          QuietBuild(c.(timers := c.timers.(buildUdpPackets := -1)), true, now);
        } else {
          ClosedBuild(c.(timers := c.timers.(buildUdpPackets := -1)), now);
        }
      case CloseTcp(error) => QuietTcpClose(c, error, now);
      case WriteTcp(accepted) =>
        var t := c.(timers := c.timers.(tcpWrite := -1));
        TimerStep(c, t.timers);
        QuietWrite(t, accepted, now);
      case _ =>
        StepSameStream(e, a, now);
        StepKeeps(e, a, now);
        QuietStays(e, Step(e, a, now));
    }
  }

  lemma ClosedBuild(e: Endpoint, now: int)
    requires !e.udpConnected
    ensures BuildUdpPackets(e, true, now) == e
  {
  }

  lemma QuietStays(e: Endpoint, f: Endpoint)
    requires Quiet(e) && SameStream(e, f) && Grows(e, f)
    ensures Quiet(f)
  {
    hide SendGrows;
  }

  lemma QuietMove(t: Tunnel, m: Move, side: Side)
    requires TunnelOk(t) && Countable(t) && Possible(t, m) && Quiet(t.End(side))
    ensures Quiet(Apply(t, m).End(side)) && OnlyBye(t.End(side).snd.log, Apply(t, m).End(side).snd.log)
  {
    hide EndOk, Link, Step, Ready, CheckCrc32, Parse, Frame, Quiet, OnlyBye, Honest;
    var e, peer := t.End(side), t.End(side.Other());
    SameLog(e.snd.log);
    if m.side == side {
      match m {
        case Local(_, action, now) => QuietStep(e, action, now);
        case Arrive(_, raw, now) =>
          if CheckCrc32(raw) {
            var d :| d in peer.snd.outbox && raw == Frame(d);
            SentIsReadable(peer, d);
            PeerIsHonest(e, peer, d);
            assert Ready(e, Receive(d), now) by { ReceiveIsReady(e, d, now); }
            QuietStep(e, Receive(d), now);
          }
      }
    }
  }

  lemma ReceiveIsReady(e: Endpoint, d: Datagram, now: int)
    requires 0 <= e.clock <= now
    ensures Ready(e, Receive(d), now)
  {
  }

  /** A quiet side numbers at most one more packet in any run, and that closes. */
  lemma {:induction false} QuietRun(t: Tunnel, moves: seq<Move>, side: Side)
    requires TunnelOk(t) && ValidRun(t, moves) && Quiet(t.End(side))
    ensures OnlyBye(t.End(side).snd.log, After(t, moves).End(side).snd.log)
    decreases |moves|
  {
    hide TunnelOk, Countable, Possible, Apply, Quiet, OnlyBye, BothGrow;
    if moves == [] {
      SameLog(t.End(side).snd.log);
    } else {
      var u := Apply(t, moves[0]);
      MoveKeeps(t, moves[0]);
      QuietMove(t, moves[0], side);
      QuietRun(u, moves[1..], side);
      RunKeeps(u, moves[1..]);
      ByeOnce(u, After(t, moves), side, t.End(side).snd.log);
    }
  }

  lemma ByeOnce(u: Tunnel, v: Tunnel, side: Side, log: seq<Datagram>)
    requires BothGrow(u, v) && OnlyBye(log, u.End(side).snd.log) && OnlyBye(u.End(side).snd.log, v.End(side).snd.log)
    ensures OnlyBye(log, v.End(side).snd.log)
  {
    hide RecvGrows;
  }
}
