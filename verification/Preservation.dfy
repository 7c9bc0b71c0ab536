/** Every handler keeps the invariant of its endpoint. */
module Preservation {
  import opened Base
  import opened Confirmations
  import opened Receivers
  import opened Senders
  import opened Rates
  import opened Endpoints
  import opened Invariants

  /** A step inside a handler: the invariant holds again, nothing settled is undone,
      and no packet leaves the store. */
  ghost predicate Keeps(e: Endpoint, f: Endpoint) {
    EndCore(f) && Grows(e, f) && Covers(e, f, {})
  }

  lemma KeepsTransitive(e: Endpoint, f: Endpoint, g: Endpoint)
    requires Keeps(e, f) && Keeps(f, g)
    ensures Keeps(e, g)
  {
    hide EndCore;
    assert Grows(e, g) by {
      GrowsTransitive(e, f, g);
    }
    CoversTransitive(e, f, g, {}, {});
  }

  lemma Reflexive(e: Endpoint)
    ensures Grows(e, e) && Covers(e, e, {})
  {
  }

  // ---------- pacing and timers ----------

  lemma SetEventUdpWriteKeeps(e: Endpoint, now: int)
    requires EndCore(e)
    ensures Keeps(e, SetEventUdpWrite(e, now))
    ensures SetEventUdpWrite(e, now).pacer.udpWrite >= 0
  {
    hide SendOk, RecvOk, RateOkAt, Counted, Paced, AllTruthful, StreamIn, EndsWithBye, ArmUdpWrite;
    ArmKeepsPace(e.pacer, e.rate.intervalUs, now);
    assert e.pacer.sends <= SetEventUdpWrite(e, now).pacer.sends by {
      ArmKeepsSends(e.pacer, e.rate.intervalUs, now);
    }
  }

  lemma ArmKeepsSends(p: Pacer, intervalUs: int, now: int)
    ensures ArmUdpWrite(p, intervalUs, now).sends == p.sends
  {
  }

  lemma RearmUdpWriteKeeps(e: Endpoint)
    requires EndCore(e)
    ensures Keeps(e, RearmUdpWrite(e)) && RearmUdpWrite(e).pacer.udpWrite >= 0
  {
    hide SendOk, RecvOk, RateOkAt, Counted, Paced, AllTruthful, StreamIn, EndsWithBye;
    RearmKeepsPace(e.pacer, e.rate.intervalUs);
  }

  /** Timers and remaining rounds are not part of the invariant. */
  lemma TimersKeep(e: Endpoint, f: Endpoint)
    requires EndCore(e)
    requires f == e.(timers := f.timers, remainConfirmation := f.remainConfirmation, remainByeBye := f.remainByeBye)
    ensures Keeps(e, f)
    ensures ByeOk(e) ==> ByeOk(f)
  {
    hide SendOk, RecvOk, RateOkAt, Counted, Paced, AllTruthful, StreamIn, EndsWithBye;
  }

  // ---------- numbering ----------

  lemma AppendContents(log: seq<Datagram>, d: Datagram)
    ensures LogContents(log + [d], |log| + 1) == LogContents(log, |log|) + d.Content()
  {
    LogContentsAppend(log, d, |log|);
  }

  lemma NumberOne(e: Endpoint, kind: Kind, payload: seq<byte>, rest: seq<byte>)
    requires EndCore(e) && e.udpConnected && !EndsWithBye(e.snd.log)
    requires Datagram(kind, e.snd.next, payload).WellFormed(e.cfg.udpSendPacketSize) && !kind.Hello?
    ensures var s := Enqueue(e.cfg, e.snd.(data := rest), kind, payload);
      && SendOk(e.cfg, s, true, e.clock) && SendGrows(e.snd, s)
      && Counted(e.cfg, e.rate, s.packets, s.late, true)
      && (forall k: nat :: k in e.snd.packets || k == |e.snd.log| ==> k in s.packets)
  {
    hide RecvOk, RateOkAt, Counted, Paced, AllTruthful, BudgetOk, Total, StreamIn;
    EnqueueKeeps(e.cfg, e.snd.(data := rest), kind, payload, e.clock);
    assert e.snd.next !in e.snd.packets;
    EnqueueCounted(e.cfg, e.rate, e.snd.packets, e.snd.late, e.snd.next, Datagram(kind, e.snd.next, payload));
  }

  lemma EnqueueStep(e: Endpoint, kind: Kind, payload: seq<byte>, rest: seq<byte>)
    requires EndCore(e) && e.udpConnected && !EndsWithBye(e.snd.log)
    requires Datagram(kind, e.snd.next, payload).WellFormed(e.cfg.udpSendPacketSize) && !kind.Hello?
    requires e.snd.data == payload + rest
    requires kind.Data? ==> !Finished(e.rcv)
    requires !kind.Data? ==> !e.tcpConnected
    ensures Keeps(e, e.(snd := Enqueue(e.cfg, e.snd.(data := rest), kind, payload)))
  {
    hide SendOk, SendGrows, RecvOk, RateOkAt, Counted, Paced, AllTruthful, StreamIn, Finished, LogContents, GaveUp;
    NumberOne(e, kind, payload, rest);
    NumberedStream(e, kind, payload, rest);
    NextIsIndex(e);
    assert Covers(e, e.(snd := Enqueue(e.cfg, e.snd.(data := rest), kind, payload)), {});
  }

  lemma NumberedStream(e: Endpoint, kind: Kind, payload: seq<byte>, rest: seq<byte>)
    requires StreamIn(e.snd, Finished(e.rcv), true) && e.snd.data == payload + rest
    requires kind.Data? ==> !Finished(e.rcv)
    requires !kind.Data? ==> payload == []
    ensures StreamIn(Enqueue(e.cfg, e.snd.(data := rest), kind, payload), Finished(e.rcv), true)
  {
    hide Finished;
    var d := Datagram(kind, e.snd.next, payload);
    var all := LogContents(e.snd.log, |e.snd.log|);
    AppendContents(e.snd.log, d);
    assert all + (payload + rest) == (all + payload) + rest;
  }

  /** Numbering the first bytes of the buffer, or a closing packet after an empty one. */
  lemma QueueKeeps(e: Endpoint, kind: Kind, payload: seq<byte>, rest: seq<byte>, now: int)
    requires EndCore(e) && e.udpConnected && !EndsWithBye(e.snd.log)
    requires Datagram(kind, e.snd.next, payload).WellFormed(e.cfg.udpSendPacketSize) && !kind.Hello?
    requires e.snd.data == payload + rest
    requires kind.Data? ==> !Finished(e.rcv)
    requires !kind.Data? ==> !e.tcpConnected
    ensures var f := Queue(e.(snd := e.snd.(data := rest)), kind, payload, now);
      && Keeps(e, f) && f.pacer.udpWrite >= 0
      && f == e.(snd := f.snd, pacer := f.pacer) && f.snd.data == rest && f.snd.tcpIn == e.snd.tcpIn
      && f.snd.control == e.snd.control && f.snd.log == e.snd.log + [Datagram(kind, e.snd.next, payload)]
  {
    hide EndCore, ArmUdpWrite, Grows, Covers, EndsWithBye, Finished;
    var m := e.(snd := Enqueue(e.cfg, e.snd.(data := rest), kind, payload));
    EnqueueStep(e, kind, payload, rest);
    SetEventUdpWriteKeeps(m, now);
    KeepsTransitive(e, m, SetEventUdpWrite(m, now));
  }

  /** The loop of `buildUdpPackets`. */
  lemma {:induction false} CutAllKeeps(e: Endpoint, flush: bool, now: int)
    requires EndCore(e) && e.udpConnected && !EndsWithBye(e.snd.log)
    requires Finished(e.rcv) ==> e.snd.data == []
    ensures var f := CutAll(e, flush, now);
      && Keeps(e, f) && f == e.(snd := f.snd, pacer := f.pacer)
      && !EndsWithBye(f.snd.log) && f.snd.tcpIn == e.snd.tcpIn && f.snd.control == e.snd.control
      && |f.snd.data| <= |e.snd.data| && (flush ==> f.snd.data == [])
      && |f.snd.data| < e.cfg.udpSendPacketSize
      && (|f.snd.data| == |e.snd.data| ==> f == e)
      && (|f.snd.data| < |e.snd.data| ==> f.pacer.udpWrite >= 0)
    decreases |e.snd.data|
  {
    hide EndCore, Queue;
    if Cut(e.cfg, e.snd.data, flush) {
      var n := Min(|e.snd.data|, e.cfg.udpSendPacketSize);
      var payload, rest := e.snd.data[..n], e.snd.data[n..];
      assert e.snd.data == payload + rest;
      var m := Queue(e.(snd := e.snd.(data := rest)), Data, payload, now);
      QueueKeeps(e, Data, payload, rest, now);
      CutAllKeeps(m, flush, now);
      KeepsTransitive(e, m, CutAll(m, flush, now));
    } else {
      Reflexive(e);
    }
  }

  lemma DropDataKeeps(e: Endpoint)
    requires EndCore(e) && Finished(e.rcv)
    ensures Keeps(e, e.(snd := e.snd.(data := [])))
  {
    hide RecvOk, RateOkAt, Counted, Paced, AllTruthful, EndsWithBye, LogContents;
    hide LogOk, PacketsOk, OutboxOk, ControlOk, AllBudgetsOk, Total, QueueBytes;
  }

  lemma BuildKeeps(e: Endpoint, flush: bool, now: int)
    requires EndCore(e)
    requires e.udpConnected && EndsWithBye(e.snd.log) ==> e.snd.data == []
    ensures var f := BuildUdpPackets(e, flush, now);
      && Keeps(e, f)
      && f == e.(snd := f.snd, pacer := f.pacer, timers := f.timers)
      && (EndsWithBye(f.snd.log) <==> EndsWithBye(e.snd.log))
      && f.snd.control == e.snd.control
      && (e.udpConnected && flush ==> f.snd.data == [])
      && (e.udpConnected ==> |f.snd.data| < e.cfg.udpSendPacketSize)
      && (e.snd.data == [] ==> f.snd == e.snd)
  {
    hide EndCore, CutAll;
    if e.udpConnected {
      var kept := e.(snd := e.snd.(data := if Finished(e.rcv) then [] else e.snd.data));
      assert Keeps(e, kept) by {
        if Finished(e.rcv) {
          DropDataKeeps(e);
        } else {
          Reflexive(e);
        }
      }
      var cut := CutAll(kept, flush, now);
      if EndsWithBye(e.snd.log) {
        NothingToCut(kept, flush, now);
        Reflexive(kept);
      } else {
        CutAllKeeps(kept, flush, now);
      }
      KeepsTransitive(e, kept, cut);
      var f := BuildUdpPackets(e, flush, now);
      TimersKeep(cut, f);
      KeepsTransitive(e, cut, f);
    } else {
      Reflexive(e);
    }
  }

  lemma NothingToCut(e: Endpoint, flush: bool, now: int)
    requires e.snd.data == []
    ensures CutAll(e, flush, now) == e
  {
  }

  // ---------- TCP ----------

  lemma ReadKeeps(e: Endpoint, bytes: seq<byte>)
    requires EndOk(e) && e.tcpConnected
    ensures var r := e.(snd := e.snd.(tcpIn := e.snd.tcpIn + bytes));
      var f := if |bytes| > 0 && e.udpConnected then r.(snd := r.snd.(data := r.snd.data + bytes)) else r;
      Keeps(e, f)
  {
    hide RecvOk, RateOkAt, Counted, Paced, AllTruthful, EndsWithBye, LogContents;
    hide LogOk, PacketsOk, OutboxOk, ControlOk, AllBudgetsOk, Total, QueueBytes;
    var all := LogContents(e.snd.log, |e.snd.log|);
    assert all + (e.snd.data + bytes) == (all + e.snd.data) + bytes;
    if bytes == [] {
      assert e.snd.tcpIn + bytes == e.snd.tcpIn;
    }
  }

  lemma TcpReadKeeps(e: Endpoint, bytes: seq<byte>, now: int)
    requires EndOk(e)
    ensures EndOk(TcpRead(e, bytes, now)) && Keeps(e, TcpRead(e, bytes, now))
  {
    hide EndCore, BuildUdpPackets;
    if e.tcpConnected {
      ReadKeeps(e, bytes);
      var r := e.(snd := e.snd.(tcpIn := e.snd.tcpIn + bytes));
      if |bytes| > 0 && e.udpConnected {
        var f := r.(snd := r.snd.(data := r.snd.data + bytes));
        assert !EndsWithBye(f.snd.log) by {
          NoByeYet(f);
        }
        BuildKeeps(f, false, now);
        KeepsTransitive(e, f, BuildUdpPackets(f, false, now));
      }
    } else {
      Reflexive(e);
    }
  }

  lemma NoByeYet(e: Endpoint)
    requires EndCore(e) && e.tcpConnected
    ensures !EndsWithBye(e.snd.log)
  {
    hide SendOk, RecvOk, RateOkAt, Counted, Paced, AllTruthful, StreamIn;
  }

  /** The receiving half moved on without receiving anything. */
  lemma ReceiverKeeps(e: Endpoint, r: Receiver, open: bool)
    requires EndCore(e) && RecvOk(r, Window(e.cfg), e.cfg.udpSendPacketSize, open)
    requires RecvGrows(e.rcv, r) && r.got == e.rcv.got && Finished(r) == Finished(e.rcv)
    requires open ==> e.tcpConnected
    ensures Keeps(e, e.(rcv := r, tcpConnected := open))
  {
    hide SendOk, RecvOk, RateOkAt, Counted, Paced, AllTruthful, StreamIn, EndsWithBye, RecvGrows;
  }

  lemma OpenIsStronger(r: Receiver, window: int, packetSize: int)
    requires RecvOk(r, window, packetSize, true)
    ensures RecvOk(r, window, packetSize, false)
  {
    hide Contiguous, GotOk, Kept, AllStoredOk, FinalOk, Contents, StreamOpen, Total;
  }

  lemma TcpCloseKeeps(e: Endpoint, error: bool, now: int)
    requires EndOk(e)
    ensures EndOk(TcpClose(e, error, now)) && Keeps(e, TcpClose(e, error, now))
    ensures !TcpClose(e, error, now).tcpConnected
  {
    hide EndCore, BuildUdpPackets, Queue;
    if e.tcpConnected {
      NoByeYet(e);
      var c := e.(tcpConnected := false, timers := e.timers.(tcpWrite := -1));
      assert Keeps(e, c) by {
        CloseTcpKeeps(e);
        TimersKeep(e.(tcpConnected := false), c);
        KeepsTransitive(e, e.(tcpConnected := false), c);
      }
      if e.udpConnected {
        var w := TcpWriteFake(c);
        assert Keeps(c, w) by {
          TcpWriteFakeKeeps(c);
        }
        KeepsTransitive(e, c, w);
        var b := BuildUdpPackets(w, true, now);
        BuildKeeps(w, true, now);
        KeepsTransitive(e, w, b);
        var kind := if error then Disconnect else Bye;
        assert b.snd.data == [] + [] && b.snd == b.snd.(data := []);
        NextIsIndex(b);
        QueueKeeps(b, kind, [], [], now);
        var f := Queue(b, kind, [], now);
        assert b == b.(snd := b.snd.(data := []));
        KeepsTransitive(e, b, f);
      } else {
        TimersKeep(c, TcpClose(e, error, now));
        KeepsTransitive(e, c, TcpClose(e, error, now));
      }
    } else {
      Reflexive(e);
    }
  }

  lemma NextIsIndex(e: Endpoint)
    requires EndCore(e)
    ensures e.snd.next == |e.snd.log| >= 1
  {
    hide RecvOk, RateOkAt, Counted, Paced, AllTruthful, StreamIn, EndsWithBye;
    hide PacketsOk, OutboxOk, ControlOk, AllBudgetsOk, Total, QueueBytes;
  }

  lemma CloseTcpKeeps(e: Endpoint)
    requires EndCore(e)
    ensures Keeps(e, e.(tcpConnected := false))
  {
    assert RecvOk(e.rcv, Window(e.cfg), e.cfg.udpSendPacketSize, false) by {
      CoreReceiver(e);
      if e.tcpConnected {
        OpenIsStronger(e.rcv, Window(e.cfg), e.cfg.udpSendPacketSize);
      }
    }
    hide RecvOk, EndCore;
    Reflexive(e);
    ReceiverKeeps(e, e.rcv, false);
  }

  lemma CoreReceiver(e: Endpoint)
    requires EndCore(e)
    ensures RecvOk(e.rcv, Window(e.cfg), e.cfg.udpSendPacketSize, e.tcpConnected)
  {
    hide SendOk, RecvOk, RateOkAt, Counted, Paced, AllTruthful, StreamIn, EndsWithBye;
  }

  lemma TcpWriteFakeKeeps(e: Endpoint)
    requires EndCore(e)
    ensures Keeps(e, TcpWriteFake(e))
    ensures TcpWriteFake(e) == e.(rcv := TcpWriteFake(e).rcv)
    ensures TcpWriteFake(e).rcv.master == e.rcv.master && TcpWriteFake(e).rcv.final == e.rcv.final
    ensures !e.tcpConnected ==> TcpWriteFake(e).rcv.tcpNext == e.rcv.master
  {
    hide EndCore, RecvOk, Discard;
    CoreReceiver(e);
    if e.tcpConnected {
      Reflexive(e);
    } else {
      DiscardKeeps(e.rcv, Window(e.cfg), e.cfg.udpSendPacketSize);
      ReceiverKeeps(e, Discard(e.rcv), false);
    }
  }

  lemma TcpWriteKeeps(e: Endpoint, accepted: int, now: int)
    requires EndOk(e)
    ensures EndOk(TcpWrite(e, accepted, now)) && Keeps(e, TcpWrite(e, accepted, now))
  {
    hide EndCore, RecvOk, Deliver, TcpClose;
    if e.tcpConnected {
      CoreReceiver(e);
      DeliverKeeps(e.rcv, accepted, Window(e.cfg), e.cfg.udpSendPacketSize);
      var d := Deliver(e.rcv, accepted);
      var m := e.(rcv := d.r);
      ReceiverKeeps(e, d.r, true);
      assert m == e.(rcv := d.r, tcpConnected := true);
      if d.Closing? {
        TcpCloseKeeps(m, false, now);
        KeepsTransitive(e, m, TcpClose(m, false, now));
      } else {
        TimersKeep(m, TcpWrite(e, accepted, now));
        KeepsTransitive(e, m, TcpWrite(e, accepted, now));
      }
    } else {
      Reflexive(e);
    }
  }

  // ---------- closing UDP ----------

  /** Whatever closes UDP: if everything is done the store is empty, and if the peer
      did not answer the budget of the packet is spent. */
  lemma UdpCloseKeeps(e: Endpoint, reason: CloseReason, now: int)
    requires EndOk(e) && e.udpConnected && !reason.NotClosed?
    requires reason.AllDone? ==> e.snd.packets == map[]
    requires reason.NoAnswer? ==> GaveUp(e.cfg, e.snd.attempts, reason.index, e.clock)
    ensures EndOk(UdpClose(e, reason, now)) && Keeps(e, UdpClose(e, reason, now))
  {
    hide EndCore, TcpClose;
    ClearedKeeps(e, reason);
    var c := e.(udpConnected := false, snd := Clear(e.snd), pacer := e.pacer.(udpWrite := -1), reason := reason);
    var t := c.(timers := e.timers.(buildUdpPackets := -1, buildConfirmations := -1, udpResend := -1));
    TimersKeep(c, t);
    KeepsTransitive(e, c, t);
    var f := UdpClose(e, reason, now);
    if e.tcpConnected && e.rcv.tcpNext >= e.rcv.master {
      TcpCloseKeeps(t, false, now);
      KeepsTransitive(e, t, f);
    } else {
      TimersKeep(t, f);
      KeepsTransitive(e, t, f);
    }
  }

  lemma ClearedKeeps(e: Endpoint, reason: CloseReason)
    requires EndOk(e) && e.udpConnected && !reason.NotClosed?
    requires reason.AllDone? ==> e.snd.packets == map[]
    requires reason.NoAnswer? ==> GaveUp(e.cfg, e.snd.attempts, reason.index, e.clock)
    ensures var c := e.(udpConnected := false, snd := Clear(e.snd), pacer := e.pacer.(udpWrite := -1), reason := reason);
      Keeps(e, c)
  {
    hide RecvOk, RateOkAt, Counted, AllTruthful, SendOk, LogContents, EndsWithBye, GaveUp, Spaced;
    ClearKeeps(e.cfg, e.snd, true, e.clock);
    assert Counted(e.cfg, e.rate, map[], e.snd.late, false) by {
      ClearedCounted(e.cfg, e.rate, e.snd.packets, e.snd.late);
    }
    assert AllTruthful(e.snd.outbox, [], e.rcv.got) by {
      ClearedTruth(e.snd.outbox, e.snd.control, e.rcv.got);
    }
  }

  lemma ClearedTruth(outbox: set<Datagram>, control: seq<Packet>, got: map<nat, Datagram>)
    requires AllTruthful(outbox, control, got)
    ensures AllTruthful(outbox, [], got)
  {
    hide Truthful;
  }

  lemma CloseIfFinishedKeeps(e: Endpoint, now: int)
    requires EndOk(e)
    ensures EndOk(CloseIfFinished(e, now)) && Keeps(e, CloseIfFinished(e, now))
  {
    hide EndCore, UdpClose;
    if IsUdpFinished(e) && e.udpConnected {
      UdpCloseKeeps(e, AllDone, now);
    } else {
      AlreadyClosed(e, AllDone, now);
      Reflexive(e);
    }
  }

  lemma AlreadyClosed(e: Endpoint, reason: CloseReason, now: int)
    ensures !e.udpConnected ==> UdpClose(e, reason, now) == e
  {
  }
}
