/** What each handler achieves, said in the fields of the connection and not through the
    functions that compute it. */
module Effects {
  import opened Base
  import opened Confirmations
  import opened Receivers
  import opened Senders
  import opened Rates
  import opened Endpoints
  import opened Invariants
  import opened Preservation
  import opened PreservationUdp
  import opened PreservationStep
  import opened Delivery
  import opened Wakeups

  /** The time of an event after it was asked for at the given one: it only moves earlier. */
  function Sooner(armed: int, at: int): int {
    if armed < 0 then at else Min(armed, at)
  }

  // ---------- reading from UDP ----------

  /** A numbered packet that is wanted: not below the master index, not above the window, and
      not after the end of the stream. */
  predicate IsWanted(e: Endpoint, d: Datagram) {
    && ((d.kind.Hello? && d.index == 0) || d.kind.Data? || d.kind.Bye? || d.kind.Disconnect?)
    && e.rcv.master <= d.index < e.rcv.final
    && d.index - e.rcv.tcpNext <= 2 * e.cfg.udpMaxReceiveBufferSize / e.cfg.udpSendPacketSize
  }

  /** Packets are accepted in any order: a wanted one is received if it was not before,
      and announces full rounds of confirmations in any case. */
  lemma AcceptsInAnyOrder(e: Endpoint, d: Datagram, now: int)
    requires EndOk(e) && e.udpConnected && Honest(e, d) && IsWanted(e, d) && now >= 0
    ensures var f := UdpRead(e, d, now);
      && f.rcv.got == (if d.index in e.rcv.got then e.rcv.got else e.rcv.got[d.index := d])
      && (f.udpConnected ==>
            && f.remainConfirmation == e.cfg.confirmationResendCount
            && f.timers.buildConfirmations == Sooner(e.timers.buildConfirmations, now + e.cfg.buildConfirmationsUs))
  {
    hide EndCore, ByeOk, ReadNew, CloseIfFinished, Grows, Covers;
    EndReceiver(e);
    GotIsStored(e.rcv, d.index, Window(e.cfg), e.cfg.udpSendPacketSize, e.tcpConnected);
    var m := ReadNumbered(e, d, now);
    ReadNumberedKeeps(e, d, now);
    CloseKeepsGot(m, now);
    OpenIsUntouched(m, now);
    if d.index !in e.rcv.packets {
      ReadNewKeeps(e, d, now);
      SameRounds(e, d, now);
    }
  }

  lemma EndReceiver(e: Endpoint)
    requires EndOk(e)
    ensures RecvOk(e.rcv, Window(e.cfg), e.cfg.udpSendPacketSize, e.tcpConnected)
  {
    hide EndCore;
    CoreReceiver(e);
  }

  /** At or above the master index what was received is stored. */
  lemma GotIsStored(r: Receiver, k: nat, window: int, packetSize: int, open: bool)
    requires RecvOk(r, window, packetSize, open) && k >= r.master
    ensures k in r.got <==> k in r.packets
  {
    hide Total, Contents, StreamOpen, FinalOk, GotOk, AllStoredOk;
  }

  lemma SameRounds(e: Endpoint, d: Datagram, now: int)
    requires d.index >= 0
    ensures ReadNew(e, d, now).timers.buildConfirmations == e.timers.buildConfirmations
  {
    hide Store, Discard;
  }

  lemma OpenIsUntouched(e: Endpoint, now: int)
    ensures CloseIfFinished(e, now).udpConnected ==> CloseIfFinished(e, now) == e
  {
    hide IsUdpFinished;
    NeverOpen(e, AllDone, now);
  }

  lemma NeverOpen(e: Endpoint, reason: CloseReason, now: int)
    ensures !UdpClose(e, reason, now).udpConnected
  {
  }

  /** What is neither a confirmation, nor wanted, nor is the goodbye for the end of the
      stream, changes nothing while UDP stays open. */
  lemma IgnoresOthers(e: Endpoint, d: Datagram, now: int)
    requires e.udpConnected && !d.kind.Confirmation? && !IsWanted(e, d)
    requires !(d.kind.ByeBye? && d.index == e.rcv.master == e.rcv.final)
    ensures var f := UdpRead(e, d, now); f.udpConnected ==> f == e
    ensures UdpRead(e, d, now).rcv.got == e.rcv.got
  {
    hide CloseIfFinished;
    OpenIsUntouched(e, now);
    CloseGot(e, now);
  }

  lemma CloseGot(e: Endpoint, now: int)
    ensures CloseIfFinished(e, now).rcv.got == e.rcv.got
  {
    hide UdpClose, IsUdpFinished;
    UdpCloseGot(e, AllDone, now);
  }

  // ---------- writing to TCP ----------

  /** Of the first packet with bytes left exactly what the socket took is written, and the
      rest stays stored. */
  lemma WritesWhatIsTaken(e: Endpoint, accepted: int, now: int, k: nat)
    requires EndOk(e) && e.tcpConnected && InTurn(e.rcv, k) && now >= 0
    ensures var f := TcpWrite(e, accepted, now);
      var p := e.rcv.packets[k].dg.payload;
      var n := Min(Max(accepted, 0), |p|);
      && f.tcpConnected && f.rcv.tcpOut == e.rcv.tcpOut + p[..n]
      && k in f.rcv.packets && f.rcv.packets[k].dg.payload == p[n..]
      && f.rcv.tcpNext == (if n == |p| then k + 1 else k)
      && (forall j: nat :: j in e.rcv.packets && j != k ==> j in f.rcv.packets && f.rcv.packets[j].dg == e.rcv.packets[j].dg)
      && f.timers == e.timers.(tcpWrite := if f.rcv.tcpNext < e.rcv.master then Sooner(e.timers.tcpWrite, now) else e.timers.tcpWrite)
  {
    hide EndOk, RecvOk, Deliver, InTurn, RecvGrows;
    EndReceiver(e);
    OpenReceiver(e);
    assert k in e.rcv.packets by { InTurnIsStored(e.rcv, k); }
    DeliverTakes(e.rcv, accepted, k, Window(e.cfg), e.cfg.udpSendPacketSize);
    DeliverKeeps(e.rcv, accepted, Window(e.cfg), e.cfg.udpSendPacketSize);
  }

  lemma OpenReceiver(e: Endpoint)
    requires EndOk(e) && e.tcpConnected
    ensures RecvOk(e.rcv, Window(e.cfg), e.cfg.udpSendPacketSize, true)
  {
    EndReceiver(e);
  }

  lemma InTurnIsStored(r: Receiver, k: nat)
    requires InTurn(r, k)
    ensures k in r.packets
  {
  }

  /** With no such packet nothing is written, and TCP is closed exactly when a closing
      packet is in turn. */
  lemma WritesNothingElse(e: Endpoint, accepted: int, now: int)
    requires EndOk(e) && e.tcpConnected && forall k: nat :: !InTurn(e.rcv, k)
    ensures var f := TcpWrite(e, accepted, now);
      && f.rcv.tcpOut == e.rcv.tcpOut
      && (!f.tcpConnected <==> exists k: nat :: ByeInTurn(e.rcv, k))
  {
    EndReceiver(e);
    hide EndCore, ByeOk, RecvOk, Deliver, InTurn, ByeInTurn, TcpClose;
    DeliverNothing(e.rcv, accepted, Window(e.cfg), e.cfg.udpSendPacketSize);
    var d := Deliver(e.rcv, accepted);
    TcpCloseOut(e.(rcv := d.r), false, now);
  }

  lemma {:induction false} DiscardOut(r: Receiver)
    ensures Discard(r).tcpOut == r.tcpOut
    decreases r.master - r.tcpNext
  {
    if r.tcpNext < r.master && r.tcpNext in r.packets {
      DiscardOut(Skip(r));
    }
  }

  lemma TcpCloseOut(e: Endpoint, error: bool, now: int)
    ensures TcpClose(e, error, now).rcv.tcpOut == e.rcv.tcpOut && !TcpClose(e, error, now).tcpConnected
  {
    hide Discard, BuildUdpPackets;
    var c := e.(tcpConnected := false, timers := e.timers.(tcpWrite := -1));
    DiscardOut(c.rcv);
    BuildReceiver(TcpWriteFake(c), true, now);
    BuildTcp(TcpWriteFake(c), true, now);
  }

  lemma {:induction false} CutAllTcp(e: Endpoint, flush: bool, now: int)
    ensures CutAll(e, flush, now).tcpConnected == e.tcpConnected
    decreases |e.snd.data|
  {
    if Cut(e.cfg, e.snd.data, flush) {
      var n := Min(|e.snd.data|, e.cfg.udpSendPacketSize);
      CutAllTcp(Queue(e.(snd := e.snd.(data := e.snd.data[n..])), Data, e.snd.data[..n], now), flush, now);
    }
  }

  lemma BuildTcp(e: Endpoint, flush: bool, now: int)
    ensures BuildUdpPackets(e, flush, now).tcpConnected == e.tcpConnected
  {
    hide CutAll;
    CutAllTcp(e.(snd := e.snd.(data := if Finished(e.rcv) then [] else e.snd.data)), flush, now);
  }

  // ---------- the close handshake ----------

  /** A wanted packet arms the next round of confirmations; one that is new arms writing to
      TCP if something contiguous is left to write, and the one that completes the stream
      arms the wait for the peer's goodbye. */
  lemma ArrivalArmsEvents(e: Endpoint, d: Datagram, now: int)
    requires EndOk(e) && e.udpConnected && Honest(e, d) && IsWanted(e, d) && now >= 0
    ensures var f := UdpRead(e, d, now);
      var isNew := d.index !in e.rcv.got;
      f.udpConnected ==>
        f.timers == e.timers.(
          buildConfirmations := Sooner(e.timers.buildConfirmations, now + e.cfg.buildConfirmationsUs),
          tcpWrite := if isNew && f.rcv.tcpNext < f.rcv.master then Sooner(e.timers.tcpWrite, now) else e.timers.tcpWrite,
          udpCloseWait := if isNew && f.rcv.master == f.rcv.final
                          then Sooner(e.timers.udpCloseWait, now + e.cfg.udpResendUs * (e.cfg.udpResendCount + 1))
                          else e.timers.udpCloseWait)
  {
    hide EndCore, ByeOk, CloseIfFinished;
    EndReceiver(e);
    GotIsStored(e.rcv, d.index, Window(e.cfg), e.cfg.udpSendPacketSize, e.tcpConnected);
    OpenIsUntouched(ReadNumbered(e, d, now), now);
    if d.index !in e.rcv.packets {
      NewPacketArms(e, d, now);
      assert e.cfg.udpResendUs * (e.cfg.udpResendCount + 1) == CloseWaitUs(e.cfg);
    }
  }

  lemma NewPacketArms(e: Endpoint, d: Datagram, now: int)
    requires EndOk(e) && Acceptable(e.rcv, d, Window(e.cfg)) && d.index !in e.rcv.packets && now >= 0
    requires d.WellFormed(e.cfg.udpSendPacketSize) && d.index < INT_MAX - 1
    ensures var f := ReadNew(e, d, now);
      f.timers == e.timers.(
        tcpWrite := if f.rcv.tcpNext < f.rcv.master then Sooner(e.timers.tcpWrite, now) else e.timers.tcpWrite,
        udpCloseWait := if f.rcv.master == f.rcv.final then Sooner(e.timers.udpCloseWait, now + CloseWaitUs(e.cfg))
                        else e.timers.udpCloseWait)
  {
    hide EndOk, Grows, Covers, Store, Discard, RecvOk, EndCore;
    ReadNewKeeps(e, d, now);
    var f := ReadNew(e, d, now);
    EndReceiver(f);
    assert e.cfg.udpResendUs * e.cfg.udpResendCount >= 0;
    MasterBelowFinal(f.rcv, Window(f.cfg), f.cfg.udpSendPacketSize, f.tcpConnected);
  }

  lemma MasterBelowFinal(r: Receiver, window: int, packetSize: int, open: bool)
    requires RecvOk(r, window, packetSize, open)
    ensures r.master <= r.final
  {
    hide Contiguous, GotOk, Kept, AllStoredOk, FinalOk, Contents, StreamOpen, Total;
  }

  lemma {:induction false} NoConfirmationLeft(q: seq<Packet>)
    ensures forall i :: 0 <= i < |WithoutConfirmations(q)| ==> !WithoutConfirmations(q)[i].dg.kind.Confirmation?
  {
    if q != [] {
      NoConfirmationLeft(q[1..]);
    }
  }

  /** The peer's goodbye for the end of its stream ends all confirming, and shortens the
      wait if that still runs. */
  lemma ReadsGoodbye(e: Endpoint, d: Datagram, now: int)
    requires EndOk(e) && e.udpConnected && d.kind.ByeBye? && d.index == e.rcv.master == e.rcv.final && now >= 0
    ensures var f := UdpRead(e, d, now);
      && (f.udpConnected ==>
            && f.remainConfirmation == 0 && f.timers.buildConfirmations < 0
            && (forall i :: 0 <= i < |f.snd.control| ==> !f.snd.control[i].dg.kind.Confirmation?)
            && (e.timers.udpCloseWait < 0 ==> f.timers.udpCloseWait < 0))
      && (e.timers.udpCloseWait >= 0 ==>
            && f.udpConnected
            && f.timers.udpCloseWait
               == Min(e.timers.udpCloseWait, now + e.cfg.udpResendUs * e.cfg.confirmationResendCount / 3 + e.cfg.udpResendUs))
  {
    hide EndOk, WithoutConfirmations, QueueBytes, UdpClose;
    NoConfirmationLeft(e.snd.control);
    var m := ReadByeBye(e, now);
    OpenIsUntouched(m, now);
    assert e.cfg.udpResendUs * e.cfg.confirmationResendCount >= 0;
    assert m.timers.udpCloseWait >= 0 ==> CloseIfFinished(m, now) == m;
  }

  /** A goodbye carries the number of packets that were numbered; rounds are counted down
      and armed again while any remain. */
  lemma QueuesGoodbye(e: Endpoint, now: int)
    requires EndOk(e) && e.udpConnected && now >= 0
    ensures var f := BuildByeBye(e, now);
      && |f.snd.control| == |e.snd.control| + 1 && f.snd.control[..|e.snd.control|] == e.snd.control
      && f.snd.control[|e.snd.control|].dg == Datagram(ByeBye, |e.snd.log|, [])
      && f.snd.packets == e.snd.packets && f.snd.log == e.snd.log && f.pacer.udpWrite >= 0
      && f.remainByeBye == e.remainByeBye - 1
      && f.timers == e.timers.(buildByeBye := if e.remainByeBye > 1
                                              then Sooner(e.timers.buildByeBye, now + e.cfg.buildConfirmationsUs)
                                              else e.timers.buildByeBye)
  {
    hide EndOk, ArmUdpWrite;
    EndNext(e);
    BuildByeByeArms(e, now);
  }

  lemma EndNext(e: Endpoint)
    requires EndOk(e)
    ensures e.snd.next == |e.snd.log|
  {
    hide EndCore;
    NextIsIndex(e);
  }

  lemma BuildByeByeArms(e: Endpoint, now: int)
    requires EndOk(e) && e.udpConnected
    ensures BuildByeBye(e, now).pacer.udpWrite >= 0
  {
    hide EndCore, ArmUdpWrite;
    EndPace(e);
    ArmKeepsPace(e.pacer, e.rate.intervalUs, now);
  }

  lemma EndPace(e: Endpoint)
    requires EndOk(e)
    ensures Paced(e.pacer, e.rate.intervalUs)
  {
    hide EndCore;
    CoreParts(e);
  }

  /** A round of confirmations records the master index as confirmed; rounds are counted
      down and armed again while any remain. */
  lemma ConfirmsARound(e: Endpoint, now: int)
    requires e.udpConnected && now >= 0
    ensures var f := BuildConfirmations(e, now);
      && f.rcv.confirmedMaster == e.rcv.master == f.rcv.master && f.rcv.tcpNext == e.rcv.tcpNext
      && f.remainConfirmation == e.remainConfirmation - 1
      && f.timers == e.timers.(buildConfirmations := if e.remainConfirmation > 1
                                then Sooner(e.timers.buildConfirmations, now + e.cfg.buildConfirmationsUs)
                                else e.timers.buildConfirmations)
  {
    hide PushAll, ConfirmationPayloads, WithoutConfirmations, QueueBytes, Pruned, Dropped, Total, ArmUdpWrite;
  }

  /** Nothing more will be numbered but a closing packet, and everything numbered was confirmed. */
  predicate NothingMore(e: Endpoint) {
    (!e.tcpConnected || e.rcv.final == e.rcv.master) && e.snd.data == [] && e.snd.packets == map[]
  }

  /** The confirmation after which nothing more is to be sent announces full rounds of
      goodbyes at once; no other does. */
  lemma AnnouncesGoodbye(e: Endpoint, d: Datagram, now: int)
    requires EndOk(e) && e.udpConnected && d.kind.Confirmation? && Honest(e, d) && now >= 0
    ensures var f := UdpRead(e, d, now);
      f.udpConnected ==>
        if NothingMore(f) && !NothingMore(e)
        then f.remainByeBye == e.cfg.confirmationResendCount && f.timers.buildByeBye == Sooner(e.timers.buildByeBye, now)
        else f.remainByeBye == e.remainByeBye && f.timers.buildByeBye == e.timers.buildByeBye
  {
    hide EndOk, ConfirmAll, CloseIfFinished, Honest;
    OpenIsUntouched(ReadConfirmation(e, d, now), now);
    ConfirmAllTimers(e, d);
  }

  lemma {:induction false} ConfirmBelowTimers(e: Endpoint, ks: seq<nat>, i: nat, master: int)
    ensures var f := ConfirmBelow(e, ks, i, master);
      f.timers == e.timers && f.remainByeBye == e.remainByeBye && f.cfg == e.cfg
    decreases |ks| - i
  {
    hide OnDelivered;
    if i < |ks| && ks[i] < master {
      ConfirmBelowTimers(if ks[i] in e.snd.packets then ConfirmOne(e, ks[i]) else e, ks, i + 1, master);
    }
  }

  lemma {:induction false} ConfirmListedTimers(e: Endpoint, indices: seq<int>, i: nat)
    ensures var f := ConfirmListed(e, indices, i);
      f.timers == e.timers && f.remainByeBye == e.remainByeBye && f.cfg == e.cfg
    decreases |indices| - i
  {
    hide OnDelivered;
    if i < |indices| {
      ConfirmListedTimers(if indices[i] >= 0 && indices[i] in e.snd.packets then ConfirmOne(e, indices[i]) else e, indices, i + 1);
    }
  }

  lemma ConfirmAllTimers(e: Endpoint, d: Datagram)
    ensures var f := ConfirmAll(e, d);
      f.timers == e.timers && f.remainByeBye == e.remainByeBye && f.cfg == e.cfg
  {
    hide ConfirmBelow, ConfirmListed, Listed;
    ConfirmBelowTimers(e, Ascending(e.snd.packets.Keys), 0, d.index);
    ConfirmListedTimers(ConfirmBelow(e, Ascending(e.snd.packets.Keys), 0, d.index), Listed(d.index, d.payload), 0);
  }

  lemma {:induction false} AllCounted(m: map<nat, Packet>)
    requires forall k: nat :: k in m ==> !m[k].sent
    ensures Total(m, Unsent) == |m|
    decreases |m|
  {
    if |m| > 0 {
      var k := AnyKey(m);
      AllCounted(m - {k});
      assert (m - {k}).Keys == m.Keys - {k};
    }
  }

  lemma UnansweredIsCounted(e: Endpoint)
    requires EndOk(e) && e.udpConnected
    ensures e.snd.toSend >= |e.snd.packets| <==> !exists k: nat :: k in e.snd.packets && e.snd.packets[k].sent
  {
    hide EndCore, ByeOk, Total;
    WaitingIsCounted(e);
    SendCount(e);
    if forall k: nat :: k in e.snd.packets ==> !e.snd.packets[k].sent {
      AllCounted(e.snd.packets);
    }
  }

  /** The confirmation after which no stored packet is unanswered disables the resend
      event; no other does. */
  lemma DisarmsWhenAnswered(e: Endpoint, d: Datagram, now: int)
    requires EndOk(e) && e.udpConnected && d.kind.Confirmation? && Honest(e, d)
    ensures var f := UdpRead(e, d, now);
      f.udpConnected ==>
        f.timers.udpResend == if exists k: nat :: k in f.snd.packets && f.snd.packets[k].sent then e.timers.udpResend else -1
  {
    hide EndOk, CloseIfFinished, Honest, Total, IsNoMoreDataWillBeSent, ConfirmAll, Grows, Covers;
    var f := ReadConfirmation(e, d, now);
    OpenIsUntouched(f, now);
    ConfirmAllTimers(e, d);
    ReadConfirmationKeeps(e, d, now);
    UnansweredIsCounted(f);
  }

  // ---------- closing ----------

  /** Nothing is left to send, to confirm, to pass on or to wait for. */
  predicate AllIsDone(e: Endpoint) {
    && NothingMore(e) && e.snd.control == []
    && e.rcv.confirmedMaster >= e.rcv.master && e.rcv.tcpNext >= e.rcv.master
    && e.remainConfirmation <= 0 && e.remainByeBye <= 0 && e.timers.udpCloseWait < 0
  }

  /** The test for being finished closes UDP exactly when all is done, and otherwise
      changes nothing. */
  lemma ClosesWhenDone(e: Endpoint, now: int)
    requires e.udpConnected
    ensures var f := CloseIfFinished(e, now);
      && (AllIsDone(e) ==> !f.udpConnected && f.reason.AllDone?)
      && (!AllIsDone(e) ==> f == e)
  {
    hide TcpClose;
    TcpCloseReason(UdpClosed(e, now), false, now);
  }

  /** So does the end of the wait for the peer's goodbye. */
  lemma WaitEndCloses(e: Endpoint, now: int)
    requires e.udpConnected
    ensures var f := Step(e, CloseWait, now);
      var waited := e.(timers := e.timers.(udpCloseWait := -1));
      if AllIsDone(waited) then !f.udpConnected && f.reason.AllDone? else f == waited.(clock := now)
  {
    hide CloseIfFinished, AllIsDone;
    var c := e.(clock := now, timers := e.timers.(udpCloseWait := -1));
    ClosesWhenDone(c, now);
    SameDone(e.(timers := e.timers.(udpCloseWait := -1)), now);
  }

  lemma SameDone(e: Endpoint, now: int)
    ensures AllIsDone(e.(clock := now)) == AllIsDone(e)
  {
  }

  lemma TcpCloseReason(e: Endpoint, error: bool, now: int)
    requires !e.udpConnected
    ensures TcpClose(e, error, now).reason == e.reason && !TcpClose(e, error, now).udpConnected
  {
  }

  lemma StillDone(e: Endpoint, now: int)
    ensures CloseIfFinished(e, now).udpConnected ==> !AllIsDone(CloseIfFinished(e, now))
  {
    hide UdpClose;
    NeverOpen(e, AllDone, now);
  }

  /** No datagram that was read leaves UDP open when all is done. */
  lemma DoneIsNoticed(e: Endpoint, d: Datagram, now: int)
    requires e.udpConnected
    ensures var f := UdpRead(e, d, now); f.udpConnected ==> !AllIsDone(f)
  {
    hide CloseIfFinished, ReadConfirmation, ReadNumbered, ReadByeBye, AllIsDone;
    if d.kind.Confirmation? {
      StillDone(ReadConfirmation(e, d, now), now);
    } else if Acceptable(e.rcv, d, Window(e.cfg)) {
      StillDone(ReadNumbered(e, d, now), now);
    } else if d.kind.ByeBye? && d.index == e.rcv.master && d.index == e.rcv.final {
      StillDone(ReadByeBye(e, now), now);
    } else {
      StillDone(e, now);
    }
  }

  /** Closing UDP closes TCP too exactly when nothing contiguous is left to write, and a
      connection closed on both sides is removed at once. */
  lemma UdpCloseCloses(e: Endpoint, reason: CloseReason, now: int)
    requires e.udpConnected && now >= 0
    ensures var f := UdpClose(e, reason, now);
      && !f.udpConnected && f.reason == reason
      && (f.tcpConnected <==> e.tcpConnected && e.rcv.tcpNext < e.rcv.master)
      && f.rcv == e.rcv && f.snd.packets == map[] && f.snd.control == [] && f.snd.data == [] && f.pacer.udpWrite == -1
      && f.timers == e.timers.(
           buildUdpPackets := -1, buildConfirmations := -1, udpResend := -1,
           tcpWrite := if e.tcpConnected && !f.tcpConnected then -1 else e.timers.tcpWrite,
           close := if f.tcpConnected then e.timers.close else Sooner(e.timers.close, now))
  {
  }

  /** The closing packet says whether TCP was closed with an error. */
  lemma ClosingPacketTells(e: Endpoint, error: bool, now: int)
    requires EndOk(e) && e.tcpConnected && now >= 0
    ensures var f := TcpClose(e, error, now);
      && !f.tcpConnected && f.timers.tcpWrite < 0
      && (e.udpConnected ==>
            && f.udpConnected && f.rcv.tcpNext == f.rcv.master == e.rcv.master
            && |f.snd.log| > |e.snd.log| && f.pacer.udpWrite >= 0
            && f.snd.log[|f.snd.log| - 1].kind == if error then Disconnect else Bye)
      && (!e.udpConnected ==> f.timers.close == Sooner(e.timers.close, now))
  {
    hide EndCore, BuildUdpPackets, Queue, EndsWithBye, Grows, Covers;
    if e.udpConnected {
      NoByeYet(e);
      var c := e.(tcpConnected := false, timers := e.timers.(tcpWrite := -1));
      CloseTcpKeeps(e);
      TimersKeep(e.(tcpConnected := false), c);
      TcpWriteFakeKeeps(c);
      var w := TcpWriteFake(c);
      BuildKeeps(w, true, now);
      var b := BuildUdpPackets(w, true, now);
      LogOnlyGrows(w, b);
      BuildTimers(w, true, now);
      assert b.snd.data == [] + [] && b.snd == b.snd.(data := []);
      assert b == b.(snd := b.snd.(data := []));
      NextIsIndex(b);
      QueueKeeps(b, if error then Disconnect else Bye, [], [], now);
    }
  }

  /** So does the event of a closed socket. */
  lemma SocketErrorIsTold(e: Endpoint, error: bool, now: int)
    requires EndOk(e) && e.tcpConnected && e.udpConnected && 0 <= e.clock <= now
    ensures var f := Step(e, CloseTcp(error), now);
      && !f.tcpConnected && |f.snd.log| > |e.snd.log|
      && f.snd.log[|f.snd.log| - 1].kind == if error then Disconnect else Bye
  {
    hide EndOk, TcpClose, Keeps;
    ClockStep(e, now);
    ClosingPacketTells(e.(clock := now), error, now);
  }

  /** A closing packet in turn closes TCP without an error. */
  lemma ByeClosesTcp(e: Endpoint, accepted: int, now: int)
    requires EndOk(e) && e.tcpConnected && e.udpConnected && now >= 0
    requires (forall k: nat :: !InTurn(e.rcv, k)) && exists k: nat :: ByeInTurn(e.rcv, k)
    ensures var f := TcpWrite(e, accepted, now);
      && !f.tcpConnected && f.udpConnected && |f.snd.log| > |e.snd.log|
      && f.snd.log[|f.snd.log| - 1].kind.Bye?
  {
    hide EndCore, ByeOk, RecvOk, RecvGrows, Deliver, InTurn, ByeInTurn, TcpClose;
    OpenReceiver(e);
    DeliverNothing(e.rcv, accepted, Window(e.cfg), e.cfg.udpSendPacketSize);
    DeliverKeeps(e.rcv, accepted, Window(e.cfg), e.cfg.udpSendPacketSize);
    var d := Deliver(e.rcv, accepted);
    var m := e.(rcv := d.r);
    ReceiverStep(e, d.r);
    ClosingPacketTells(m, false, now);
  }

  lemma ReceiverStep(e: Endpoint, r: Receiver)
    requires EndOk(e) && e.tcpConnected && RecvOk(r, Window(e.cfg), e.cfg.udpSendPacketSize, true)
    requires RecvGrows(e.rcv, r) && r.got == e.rcv.got && r.master == e.rcv.master && r.final == e.rcv.final
    ensures EndOk(e.(rcv := r))
  {
    hide EndCore, RecvOk, RecvGrows;
    ReceiverKeeps(e, r, true);
    assert e.(rcv := r) == e.(rcv := r, tcpConnected := true);
  }

  lemma LogOnlyGrows(e: Endpoint, f: Endpoint)
    requires Keeps(e, f)
    ensures |f.snd.log| >= |e.snd.log|
  {
    hide EndCore, RecvGrows, EndsWithBye, Covers;
  }

  lemma BuildTimers(e: Endpoint, flush: bool, now: int)
    ensures BuildUdpPackets(e, flush, now).timers == e.timers.(buildUdpPackets := BuildUdpPackets(e, flush, now).timers.buildUdpPackets)
  {
    hide CutAll;
    CutAllTimers(e.(snd := e.snd.(data := if Finished(e.rcv) then [] else e.snd.data)), flush, now);
  }

  lemma {:induction false} CutAllTimers(e: Endpoint, flush: bool, now: int)
    ensures CutAll(e, flush, now).timers == e.timers && CutAll(e, flush, now).cfg == e.cfg
    decreases |e.snd.data|
  {
    if Cut(e.cfg, e.snd.data, flush) {
      var n := Min(|e.snd.data|, e.cfg.udpSendPacketSize);
      CutAllTimers(Queue(e.(snd := e.snd.(data := e.snd.data[n..])), Data, e.snd.data[..n], now), flush, now);
    }
  }

  // ---------- sending ----------

  /** A waiting control packet goes first; the next datagram is due one interval after
      the time this one was planned for. */
  lemma SendsControlFirst(e: Endpoint, planned: int, now: int)
    requires e.udpConnected && e.snd.control != [] && e.pacer.udpWrite < 0
    ensures var f := UdpWrite(e, planned, true, now);
      && f.snd.outbox == e.snd.outbox + {e.snd.control[0].dg} && f.pacer.lastSentUs == planned
      && (f.udpConnected ==>
            && f.snd.control == e.snd.control[1..] && f.snd.packets == e.snd.packets && f.rate == e.rate
            && f.pacer.udpWrite == (if f.snd.control != [] || f.snd.toSend > 0 then planned + e.rate.intervalUs else e.pacer.udpWrite)
            && !AllIsDone(f))
  {
    hide UdpClose;
    NeverOpen(SendControl(e, planned), AllDone, now);
    UdpCloseSends(SendControl(e, planned), AllDone, now);
  }

  lemma CutAllSends(e: Endpoint, flush: bool, now: int)
    requires e.snd.data == []
    ensures CutAll(e, flush, now) == e
  {
  }

  lemma UdpCloseSends(e: Endpoint, reason: CloseReason, now: int)
    ensures var f := UdpClose(e, reason, now);
      f.snd.outbox == e.snd.outbox && f.pacer.lastSentUs == e.pacer.lastSentUs
  {
  }

  /** Otherwise the unsent packet with the lowest index goes, is filed under the current
      measure and looked at again when its resend time is over. */
  lemma SendsLowestUnsent(e: Endpoint, k: nat, planned: int, now: int)
    requires EndOk(e) && e.udpConnected && e.snd.control == [] && e.pacer.udpWrite < 0 && now >= 0
    requires k in e.snd.packets && !e.snd.packets[k].sent
    requires forall j: nat :: j in e.snd.packets && j < k ==> e.snd.packets[j].sent
    ensures var f := UdpWrite(e, planned, true, now);
      && f.udpConnected && k < |e.snd.log| && f.snd.outbox == e.snd.outbox + {e.snd.log[k]}
      && f.snd.packets == e.snd.packets[k := e.snd.packets[k].(sent := true, sentTimeUs := now, measureIndex := e.rate.index)]
      && f.timers.udpResend == Sooner(e.timers.udpResend, now + e.cfg.udpResendUs)
      && f.pacer.lastSentUs == planned
      && f.pacer.udpWrite == if f.snd.toSend > 0 then planned + e.rate.intervalUs else e.pacer.udpWrite
  {
    hide EndOk, UdpClose, IsUdpFinished, OnSent, Senders.Tried;
    StoredWhole(e, k);
    SentInterval(e.cfg, e.rate, e.snd.packets[k].Size(), now);
    var r := FirstUnsent(e.snd.packets);
    assert r.Some?;
    assert r.value == k;
  }

  lemma SentInterval(cfg: Config, r: Rate, size: int, now: int)
    ensures OnSent(cfg, r, r.index, r.intervalUs, size, now).intervalUs == r.intervalUs
  {
  }

  lemma StoredWhole(e: Endpoint, k: nat)
    requires EndOk(e) && k in e.snd.packets
    ensures k < |e.snd.log| && e.snd.packets[k].dg == e.snd.log[k] && !e.snd.packets[k].confirmed
  {
    hide EndCore, RecvOk, RateOkAt, Counted, Paced, AllTruthful, StreamIn, EndsWithBye, ReasonOk;
    hide LogOk, OutboxOk, ControlOk, AllBudgetsOk, Total, QueueBytes;
    CoreParts(e);
  }

  /** What the socket does not take stays as it is. */
  lemma RefusedStays(e: Endpoint, planned: int, now: int)
    ensures var f := UdpWrite(e, planned, false, now);
      f.snd == e.snd && f.rate == e.rate && f.pacer.lastSentUs == e.pacer.lastSentUs && f.udpConnected == e.udpConnected
  {
  }

  /** A datagram counts as sent at the time its event was armed for, not when it was raised. */
  lemma SentAsPlanned(e: Endpoint, now: int)
    requires EndOk(e) && e.udpConnected && Ready(e, WriteUdp(true), now)
    requires e.snd.control != [] || exists k: nat :: k in e.snd.packets && !e.snd.packets[k].sent
    ensures Step(e, WriteUdp(true), now).pacer.lastSentUs == e.pacer.udpWrite
  {
    hide EndCore, ByeOk, UdpWrite, Keeps;
    ClockStep(e, now);
    var c := e.(clock := now);
    DisarmStep(c);
    var t := c.(pacer := c.pacer.(udpWrite := -1));
    if t.snd.control != [] {
      SendsControlFirst(t, e.pacer.udpWrite, now);
    } else {
      var k := LowestUnsent(t);
      SendsLowestUnsent(t, k, e.pacer.udpWrite, now);
    }
  }

  lemma LowestUnsent(e: Endpoint) returns (k: nat)
    requires exists k: nat :: k in e.snd.packets && !e.snd.packets[k].sent
    ensures k in e.snd.packets && !e.snd.packets[k].sent
    ensures forall j: nat :: j in e.snd.packets && j < k ==> e.snd.packets[j].sent
  {
    k := FirstUnsent(e.snd.packets).value;
  }

  // ---------- resending ----------

  /** A packet whose answer is overdue at the given time. */
  predicate Overdue(e: Endpoint, p: Packet, now: int) {
    p.sent && p.sentTimeUs + e.cfg.udpResendUs <= now
  }

  /** The answer to the packet will be overdue at the given time. */
  predicate AnswerDueAt(e: Endpoint, p: Packet, at: int) {
    p.sent && p.sentTimeUs + e.cfg.udpResendUs == at
  }

  function Expired(p: Packet): Packet {
    p.(sent := false, remainResendCount := p.remainResendCount - 1)
  }

  /** From position i of the keys on: exactly the overdue packets are to be sent again, or
      UDP is closed because one of them has no resend left. */
  lemma {:induction false} ResendFromExact(e: Endpoint, ks: seq<nat>, i: nat, now: int)
    requires e.udpConnected && Increasing(ks) && i <= |ks|
    ensures var f := ResendFrom(e, ks, i, now);
      && (f.udpConnected <==> forall j :: i <= j < |ks| && ks[j] in e.snd.packets && Overdue(e, e.snd.packets[ks[j]], now)
                                ==> e.snd.packets[ks[j]].remainResendCount > 0)
      && (f.udpConnected ==>
            && f.snd.packets.Keys == e.snd.packets.Keys
            && forall k: nat :: k in e.snd.packets ==>
                 f.snd.packets[k] == if k in ks[i..] && Overdue(e, e.snd.packets[k], now) then Expired(e.snd.packets[k]) else e.snd.packets[k])
      && (f.udpConnected && f.timers.udpResend != e.timers.udpResend ==>
            exists k: nat :: k in ks[i..] && k in e.snd.packets && AnswerDueAt(e, e.snd.packets[k], f.timers.udpResend))
    decreases |ks| - i
  {
    hide UdpClose, OnDelivered, ArmUdpWrite, Increasing;
    if i < |ks| {
      var k := ks[i];
      assert ks[i..] == [k] + ks[i + 1..];
      assert k !in ks[i + 1..] by { NotAgain(ks, i); }
      if k !in e.snd.packets || !e.snd.packets[k].sent {
        ResendFromExact(e, ks, i + 1, now);
      } else if e.snd.packets[k].sentTimeUs + e.cfg.udpResendUs > now {
        ResendFromExact(ArmResend(e, e.snd.packets[k].sentTimeUs + e.cfg.udpResendUs), ks, i + 1, now);
      } else if e.snd.packets[k].remainResendCount > 0 {
        ResendFromExact(ExpireOne(e, k, now), ks, i + 1, now);
      } else {
        NeverOpen(e, NoAnswer(k), now);
      }
    }
  }

  lemma NotAgain(ks: seq<nat>, i: nat)
    requires Increasing(ks) && i < |ks|
    ensures ks[i] !in ks[i + 1..]
  {
  }

  /** Exactly the packets whose answer is overdue are to be sent again, each with one
      resend less; UDP is closed exactly when one of them has none left. */
  lemma ResendsOverdue(e: Endpoint, now: int)
    requires e.udpConnected
    ensures var f := UdpResend(e, now);
      && (f.udpConnected <==> forall k: nat :: k in e.snd.packets && Overdue(e, e.snd.packets[k], now) ==> e.snd.packets[k].remainResendCount > 0)
      && (f.udpConnected ==>
            && f.snd.packets.Keys == e.snd.packets.Keys
            && forall k: nat :: k in e.snd.packets ==>
                 f.snd.packets[k] == if Overdue(e, e.snd.packets[k], now) then Expired(e.snd.packets[k]) else e.snd.packets[k])
      && (f.udpConnected && f.timers.udpResend != e.timers.udpResend ==>
            exists k: nat :: k in e.snd.packets && AnswerDueAt(e, e.snd.packets[k], f.timers.udpResend))
  {
    hide ResendFrom, Overdue, Expired, AnswerDueAt;
    var ks := Ascending(e.snd.packets.Keys);
    ResendFromExact(e, ks, 0, now);
    assert ks[0..] == ks;
  }

  // ---------- cutting ----------

  /** What was numbered from n on is data, in full packets but for the last one of a flush. */
  ghost predicate FullFrom(log: seq<Datagram>, n: nat, packetSize: int, flush: bool) {
    forall i :: n <= i < |log| ==>
      log[i].kind.Data? && (i < |log| - 1 || !flush ==> |log[i].payload| == packetSize)
  }

  lemma {:induction false} CutsFull(e: Endpoint, flush: bool, now: int)
    ensures var f := CutAll(e, flush, now);
      && e.snd.log <= f.snd.log && FullFrom(f.snd.log, |e.snd.log|, e.cfg.udpSendPacketSize, flush)
      && (|f.snd.log| > |e.snd.log| <==> Cut(e.cfg, e.snd.data, flush))
    decreases |e.snd.data|
  {
    if Cut(e.cfg, e.snd.data, flush) {
      var n := Min(|e.snd.data|, e.cfg.udpSendPacketSize);
      var q := Queue(e.(snd := e.snd.(data := e.snd.data[n..])), Data, e.snd.data[..n], now);
      QueueLog(e.(snd := e.snd.(data := e.snd.data[n..])), Data, e.snd.data[..n], now);
      hide Queue;
      CutsFull(q, flush, now);
    }
  }

  lemma QueueLog(e: Endpoint, kind: Kind, payload: seq<byte>, now: int)
    ensures var f := Queue(e, kind, payload, now);
      f.snd.log == e.snd.log + [Datagram(kind, e.snd.next, payload)] && f.snd.data == e.snd.data && f.cfg == e.cfg
  {
  }

  /** The buffer is cut into full packets; a flush makes one packet more of what is left. */
  lemma NumbersFullPackets(e: Endpoint, flush: bool, now: int)
    requires e.udpConnected && e.rcv.final != e.rcv.master
    ensures var f := BuildUdpPackets(e, flush, now);
      && e.snd.log <= f.snd.log && FullFrom(f.snd.log, |e.snd.log|, e.cfg.udpSendPacketSize, flush)
  {
    hide CutAll, FullFrom;
    CutsFull(e, flush, now);
  }

  /** Reading from TCP numbers full packets only; less than one is left. */
  lemma ReadsIntoFullPackets(e: Endpoint, bytes: seq<byte>, now: int)
    requires EndOk(e) && e.tcpConnected && e.udpConnected && e.rcv.final != e.rcv.master
    ensures var f := TcpRead(e, bytes, now);
      && e.snd.log <= f.snd.log && FullFrom(f.snd.log, |e.snd.log|, e.cfg.udpSendPacketSize, false)
      && (bytes != [] ==> |f.snd.data| < e.cfg.udpSendPacketSize)
  {
    hide EndCore, BuildUdpPackets, EndsWithBye;
    ReadKeeps(e, bytes);
    NoByeYet(e);
    if bytes != [] {
      var f := e.(snd := e.snd.(tcpIn := e.snd.tcpIn + bytes, data := e.snd.data + bytes));
      NumbersFullPackets(f, false, now);
      BuildKeeps(f, false, now);
    }
  }

  /** The flush event leaves nothing in the buffer. */
  lemma FlushEmpties(e: Endpoint, now: int)
    requires EndOk(e) && e.udpConnected && e.clock <= now
    ensures var f := Step(e, Build, now);
      && f.snd.data == [] && f.udpConnected == e.udpConnected && f.rcv == e.rcv
      && (e.snd.data != [] && e.rcv.final != e.rcv.master ==> |f.snd.log| > |e.snd.log|)
  {
    hide EndCore, BuildUdpPackets, EndsWithBye, Cut;
    ClockStep(e, now);
    var c := e.(clock := now);
    var t := c.timers.(buildUdpPackets := -1);
    TimerStep(c, t);
    var b := c.(timers := t);
    if b.tcpConnected {
      NoByeYet(b);
    }
    BuildKeeps(b, true, now);
    if e.snd.data != [] && e.rcv.final != e.rcv.master {
      FlushCuts(b, now);
    }
  }

  lemma FlushCuts(e: Endpoint, now: int)
    requires e.udpConnected && e.snd.data != [] && e.rcv.final != e.rcv.master
    ensures |BuildUdpPackets(e, true, now).snd.log| > |e.snd.log|
  {
    hide CutAll;
    CutsFull(e, true, now);
  }

  // ---------- pacing and flushing ----------

  /** After a pause the next datagram is due one interval after the last one, but not
      before now; an armed event only moves earlier. */
  lemma ArmsOneIntervalLater(p: Pacer, intervalUs: nat, now: nat)
    requires p.lastSentUs >= 0
    ensures var f := ArmUdpWrite(p, intervalUs, now);
      f.udpWrite == if p.udpWrite < 0 then Max(p.lastSentUs + intervalUs, now) else Min(p.udpWrite, p.lastSentUs + intervalUs)
  {
  }

  /** Bytes that do not fill a packet wait for the flush event, from now on if a packet
      was cut; an empty buffer needs none. */
  lemma FlushesInTime(e: Endpoint, flush: bool, now: int)
    requires e.udpConnected && now >= 0
    ensures var f := BuildUdpPackets(e, flush, now);
      var at := now + e.cfg.buildUdpPacketsUs;
      f.timers == e.timers.(buildUdpPackets :=
        if f.snd.data == [] then -1 else if |f.snd.data| < |e.snd.data| then at else Sooner(e.timers.buildUdpPackets, at))
  {
    hide CutAll;
    CutAllTimers(e.(snd := e.snd.(data := if Finished(e.rcv) then [] else e.snd.data)), flush, now);
    CutAllTimers(e.(snd := e.snd.(data := [])), flush, now);
    if Finished(e.rcv) {
      CutAllSends(e.(snd := e.snd.(data := [])), flush, now);
    }
  }
}
