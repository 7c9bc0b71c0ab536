/** The class `Connection` as connection.cpp writes it: fields updated in place and
    loops over its containers. Every method turns the value of the connection into
    what the corresponding function of `Endpoints` says, and the handlers keep the
    class invariant. */
module Connections {
  import opened Base
  import opened IntPair
  import opened Confirmations
  import opened Receivers
  import opened Senders
  import opened Rates
  import opened Endpoints
  import opened Invariants
  import opened PreservationStep
  import PreservationUdp
  import opened PacketData
  import Tunnels

  class Connection {
    const cfg: Config

    var tcpConnected: bool
    var udpConnected: bool
    var snd: Sender                // what concerns sending
    var rcv: Receiver              // what concerns receiving
    var rate: Rate                 // the send interval and its measures
    var pacer: Pacer               // the last and the next planned send
    var timers: Timers             // the times of the other events
    var remainConfirmation: int    // remainConfirmationResendCount
    var remainByeBye: int          // remainByeByeResendCount
    ghost var clock: int           // history: the latest time a handler saw
    ghost var reason: CloseReason  // history: why UDP was closed

    /** The connection as a value. */
    ghost function Snap(): Endpoint
      reads this
    {
      Endpoint(cfg, tcpConnected, udpConnected, snd, rcv, rate, pacer, timers, remainConfirmation, remainByeBye, clock, reason)
    }

    ghost predicate Valid()
      reads this
    {
      EndOk(Snap())
    }

    constructor (cfg: Config, udpInitialSendIntervalUs: int, now: int)
      ensures Snap() == Initial(cfg, udpInitialSendIntervalUs, now)
      ensures udpInitialSendIntervalUs >= 0 && now >= 0 ==> Valid()
    {
      hide EndOk, Enqueue;
      this.cfg := cfg;
      tcpConnected, udpConnected := true, true;
      snd, rcv := Senders.EMPTY, Receivers.EMPTY;
      rate := InitialRate(udpInitialSendIntervalUs, now);
      pacer := Pacer(0, -1, [], udpInitialSendIntervalUs, []);
      timers := Timers(-1, -1, -1, -1, -1, -1, -1);
      remainConfirmation, remainByeBye := 0, 0;
      clock, reason := now, NotClosed;
      new;
      Number(Hello, []);
      pacer := pacer.(udpWrite := SetTime(pacer.udpWrite, now));
      if udpInitialSendIntervalUs >= 0 && now >= 0 {
        Tunnels.InitialOk(cfg, udpInitialSendIntervalUs, now);
      }
    }

    /** The lines with which the constructor, `buildUdpPackets` and `tcpClose` number
        and store a packet. */
    method Number(kind: Kind, payload: seq<byte>)
      modifies this`snd
      ensures snd == Enqueue(cfg, old(snd), kind, payload)
    {
      var d := Datagram(kind, snd.next, payload);
      snd := snd.(packets := snd.packets[snd.next := Fresh(d, cfg.udpResendCount)], log := snd.log + [d]);
      snd := snd.(next := snd.next + 1);
      snd := snd.(toSend := snd.toSend + 1);
      OnUdpSentBufferChanged(|payload|);
    }

    /** `onUdpSentBufferChanged`, but for the event that reads from TCP. */
    method OnUdpSentBufferChanged(sizeIncrement: int)
      modifies this`snd
      ensures snd == old(snd).(bufferSize := old(snd).bufferSize + sizeIncrement)
    {
      snd := snd.(bufferSize := snd.bufferSize + sizeIncrement);
    }

    // ---------- queries ----------

    predicate NoMoreDataWillBeSent()
      reads this
      ensures NoMoreDataWillBeSent() == IsNoMoreDataWillBeSent(Snap())
    {
      (!tcpConnected || rcv.final == rcv.master) && snd.data == [] && snd.packets == map[]
    }

    predicate UdpFinished()
      reads this
      ensures UdpFinished() == IsUdpFinished(Snap())
    {
      !udpConnected ||
      ( && NoMoreDataWillBeSent()
        && snd.control == []
        && rcv.confirmedMaster >= rcv.master
        && rcv.tcpNext >= rcv.master
        && remainConfirmation <= 0
        && remainByeBye <= 0
        && timers.udpCloseWait < 0 )
    }

    // ---------- rate ----------

    method OnUdpSent(measureIndex: int, intervalUs: int, size: int, now: int)
      modifies this`rate
      ensures rate == OnSent(cfg, old(rate), measureIndex, intervalUs, size, now)
    {
      if measureIndex != rate.index || rate.index !in rate.measures {
        return;
      }
      var m := rate.measures[rate.index];
      m := m.(count := m.count + 1);
      m := m.(size := m.size + size);
      m := m.(summaryIntervalUs := m.summaryIntervalUs + intervalUs);
      if m.size >= cfg.udpMaxSentMeasureSize || now - m.beginUs >= cfg.udpMaxSentMeasureUs {
        rate := rate.(measures := rate.measures[rate.index := m.(endUs := now)]);
        rate := rate.(index := rate.index + 1);
        rate := rate.(measures := rate.measures[rate.index := NEW_MEASURE.(beginUs := now)]);
      } else {
        rate := rate.(measures := rate.measures[rate.index := m]);
      }
    }

    /** The amplifier as the code computes it, one adjustment after the other. */
    static method ComputeAmplifier(cfg: Config, m: Measure) returns (speedAmplifier: real)
      requires m.count > 0
      ensures speedAmplifier == Amplifier(cfg, m)
    {
      var durationUs := (m.endUs - m.beginUs) as real;
      var intervalUs := m.summaryIntervalUs as real / m.count as real;
      var actualIntervalUs := durationUs / m.count as real;
      var successPart := if m.size == 0 then 0.0 else m.successSize as real / m.size as real;
      speedAmplifier := successPart / (1.0 - 0.01 * cfg.udpMaxSendLossPercent);
      if m.failSize <= 0 {
        speedAmplifier := 2.0;
      }
      if speedAmplifier > 1.0 && actualIntervalUs > (intervalUs + 1.0) * 2.0 {
        speedAmplifier := 1.0;
      }
      if speedAmplifier < 0.5 {
        speedAmplifier := 0.5;
      }
      if speedAmplifier > 2.0 {
        speedAmplifier := 2.0;
      }
    }

    /** The interval an answered window sets. */
    static method ComputeInterval(cfg: Config, m: Measure) returns (x: real)
      requires m.count > 0
      ensures x == SetInterval(cfg, m)
    {
      hide Amplifier;
      var speedAmplifier := ComputeAmplifier(cfg, m);
      AmplifierRange(cfg, m);
      x := (m.summaryIntervalUs as real / m.count as real) / speedAmplifier;
      var maxIntervalUs := (cfg.udpResendUs / 3) as real;
      var d := 1.0 + 1.0 / maxIntervalUs * x;
      if d != 0.0 {
        x := x / d;
      }
      if x < 0.1 {
        x := 0.1;
      }
      if x > maxIntervalUs {
        x := maxIntervalUs;
      }
    }

    /** The last loop of `onUdpDelivered`: erase the window and every older one. */
    method EraseMeasures(measureIndex: nat)
      requires measureIndex in rate.measures
      modifies this`rate
      ensures rate == old(rate).(measures := map k | k in old(rate).measures && k > measureIndex :: old(rate).measures[k])
    {
      ghost var all := rate.measures;
      var ks := Ascending(rate.measures.Keys);
      var i: nat :| i < |ks| && ks[i] == measureIndex;
      assert all == Outside(all, ks[i], measureIndex);
      while i != 0
        invariant i < |ks| && ks[i] <= measureIndex
        invariant rate == old(rate).(measures := Outside(all, ks[i], measureIndex))
      {
        EraseNext(all, ks, i, measureIndex);
        rate := rate.(measures := rate.measures - {ks[i]});
        i := i - 1;
      }
      EraseLast(all, ks, measureIndex);
      rate := rate.(measures := rate.measures - {ks[0]});
    }

    method OnUdpDelivered(success: bool, measureIndex: int, size: int)
      modifies this`rate, this`pacer
      ensures rate == OnDelivered(cfg, old(rate), success, measureIndex, size)
      ensures pacer == old(pacer).(floor := Min(old(pacer).floor, rate.intervalUs))
    {
      hide SetInterval, Rates.Round;
      if measureIndex >= 0 && measureIndex in rate.measures {
        var m := rate.measures[measureIndex];
        m := if success then m.(successSize := m.successSize + size) else m.(failSize := m.failSize + size);
        rate := rate.(measures := rate.measures[measureIndex := m]);
        if m.beginUs >= 0 && m.endUs >= m.beginUs && m.count > 0 && m.successSize + m.failSize >= m.size {
          var x := ComputeInterval(cfg, m);
          rate := rate.(intervalFloat := x);
          rate := rate.(intervalUs := Rates.Round(x));
          EraseMeasures(measureIndex);
        }
      }
      pacer := pacer.(floor := Min(pacer.floor, rate.intervalUs));
    }

    method SetWriteEvent(now: int)
      modifies this`pacer
      ensures Snap() == SetEventUdpWrite(old(Snap()), now)
    {
      if pacer.udpWrite < 0 {
        pacer := pacer.(lastSentUs := Max(pacer.lastSentUs, now - rate.intervalUs));
      }
      pacer := pacer.(udpWrite := SetTime(pacer.udpWrite, pacer.lastSentUs + rate.intervalUs));
    }
    // ---------- TCP ----------

    /** `tcpRead`; the socket gave these bytes. */
    method TcpRead(bytes: seq<byte>, now: int)
      modifies this
      ensures Snap() == Endpoints.TcpRead(old(Snap()), bytes, now)
    {
      if !tcpConnected {
        return;
      }
      snd := snd.(tcpIn := snd.tcpIn + bytes);
      if |bytes| > 0 && udpConnected {
        snd := snd.(data := snd.data + bytes);
        BuildUdpPackets(false, now);
      }
      OnUdpSentBufferChanged(0);
    }

    /** One round of the loop of `buildUdpPackets`. */
    method CutPacket(payload: seq<byte>, now: int)
      modifies this`snd, this`pacer
      ensures Snap() == Queue(old(Snap()), Data, payload, now)
    {
      Number(Data, payload);
      SetWriteEvent(now);
    }

    /** The loop of `buildUdpPackets`; the buffer itself is shortened after it. */
    method CutPackets(flush: bool, now: int) returns (fullSize: nat)
      modifies this`snd, this`pacer
      ensures fullSize <= |snd.data| && snd.data == old(snd).data
      ensures Trimmed(Snap(), fullSize) == CutAll(old(Snap()), flush, now)
    {
      hide CutAll, Queue;
      var data := snd.data;
      var i := 0;
      fullSize := 0;
      assert data[0..] == data;
      while i < |data|
        invariant 0 <= fullSize == Min(i, |data|)
        invariant snd.data == data == old(snd).data
        invariant CutAll(Trimmed(Snap(), fullSize), flush, now) == CutAll(old(Snap()), flush, now)
        decreases |data| - i
      {
        var size := Min(|data| - i, cfg.udpSendPacketSize);
        if !flush && size < cfg.udpSendPacketSize {
          break;
        }
        assert data[fullSize..][..size] == data[i..i + size] && data[fullSize..][size..] == data[fullSize + size..];
        CutOne(Trimmed(Snap(), fullSize), flush, now, size);
        QueueTrimmed(Snap(), data[i..i + size], fullSize + size, now);
        CutPacket(data[i..i + size], now);
        fullSize := fullSize + size;
        i := i + cfg.udpSendPacketSize;
      }
      CutNone(Trimmed(Snap(), fullSize), flush, now);
    }

    method BuildUdpPackets(flush: bool, now: int)
      modifies this
      ensures Snap() == Endpoints.BuildUdpPackets(old(Snap()), flush, now)
    {
      hide CutAll;
      if !udpConnected {
        return;
      }
      if rcv.final == rcv.master {
        snd := snd.(data := []);
      }
      var fullSize := CutPackets(flush, now);
      snd := snd.(data := snd.data[fullSize..]);
      if fullSize > 0 || snd.data == [] {
        timers := timers.(buildUdpPackets := -1);
      }
      if snd.data != [] {
        timers := timers.(buildUdpPackets := SetTime(timers.buildUdpPackets, now + cfg.buildUdpPacketsUs));
      }
    }

    /** The lines of `tcpWrite` for a packet that is passed over. */
    method PassOver()
      requires rcv.tcpNext in rcv.packets
      modifies this`rcv
      ensures rcv == Skip(old(rcv))
    {
      var k := rcv.tcpNext;
      var size := rcv.packets[k].Size();
      rcv := rcv.(packets := rcv.packets[k := rcv.packets[k].(sent := true)]);
      if rcv.packets[k].IsComplete() {
        rcv := rcv.(bufferSize := rcv.bufferSize - size);
        rcv := rcv.(packets := rcv.packets - {k});
      }
      rcv := rcv.(tcpNext := rcv.tcpNext + 1);
    }

    /** The lines of `tcpWrite` after the socket took the first bytes of a packet. */
    method BytesTaken(size: nat)
      requires rcv.tcpNext in rcv.packets && size <= rcv.packets[rcv.tcpNext].Size()
      modifies this`rcv
      ensures rcv == Write(old(rcv), size)
    {
      var k := rcv.tcpNext;
      var p := rcv.packets[k];
      var rest := p.(dg := p.dg.(payload := p.dg.payload[size..]));
      rcv := rcv.(packets := rcv.packets[k := rest], tcpOut := rcv.tcpOut + p.dg.payload[..size]);
      rcv := rcv.(bufferSize := rcv.bufferSize - size);
      if rest.Size() <= 0 {
        rcv := rcv.(packets := rcv.packets[k := rest.(sent := true)]);
        if rcv.packets[k].IsComplete() {
          rcv := rcv.(packets := rcv.packets - {k});
        }
        rcv := rcv.(tcpNext := rcv.tcpNext + 1);
      }
    }

    /** `tcpWrite`; the socket accepts as many as `accepted` bytes. A fake run only
        passes over what cannot be written any more. */
    method TcpWrite(fake: bool, accepted: int, now: int)
      modifies this
      ensures Snap() == if fake then TcpWriteFake(old(Snap())) else Endpoints.TcpWrite(old(Snap()), accepted, now)
      decreases if fake then 0 else 2
    {
      hide Skip, Write, Endpoints.TcpClose;
      if tcpConnected == fake {
        return;
      }
      while rcv.tcpNext < rcv.master
        invariant Snap() == old(Snap()).(rcv := rcv)
        invariant fake ==> Discard(rcv) == Discard(old(rcv))
        invariant !fake ==> Deliver(rcv, accepted) == Deliver(old(rcv), accepted)
        decreases rcv.master - rcv.tcpNext
      {
        if rcv.tcpNext !in rcv.packets {
          break;
        }
        var p := rcv.packets[rcv.tcpNext];
        SkipMoves(rcv);
        if fake || !p.dg.kind.Data? || p.Size() <= 0 {
          PassOver();
          if !fake && p.dg.IsBye() {
            TcpClose(false, now);
            return;
          }
        } else {
          var size := Min(accepted, p.Size());
          if size > 0 {
            BytesTaken(size);
          }
          if rcv.tcpNext < rcv.master {
            timers := timers.(tcpWrite := SetTime(timers.tcpWrite, now));
          }
          return;
        }
      }
    }

    method TcpClose(error: bool, now: int)
      modifies this
      ensures Snap() == Endpoints.TcpClose(old(Snap()), error, now)
      decreases 1
    {
      if !tcpConnected {
        return;
      }
      tcpConnected := false;
      timers := timers.(tcpWrite := -1);
      if !udpConnected {
        timers := timers.(close := SetTime(timers.close, now));
        return;
      }
      TcpWrite(true, 0, now);
      BuildUdpPackets(true, now);
      Number(if error then Disconnect else Bye, []);
      SetWriteEvent(now);
    }

    // ---------- UDP ----------

    method UdpClose(why: CloseReason, now: int)
      modifies this
      ensures Snap() == Endpoints.UdpClose(old(Snap()), why, now)
    {
      if !udpConnected {
        return;
      }
      udpConnected := false;
      reason := why;
      timers := timers.(buildUdpPackets := -1, buildConfirmations := -1, udpResend := -1);
      pacer := pacer.(udpWrite := -1);
      snd := snd.(data := [], control := [], packets := map[]);
      OnUdpSentBufferChanged(-snd.bufferSize);
      if !tcpConnected {
        timers := timers.(close := SetTime(timers.close, now));
        return;
      }
      if rcv.tcpNext >= rcv.master {
        TcpClose(false, now);
      }
    }

    /** The lines of `udpWrite` after the socket took a control packet. */
    method ControlTaken(planned: int)
      requires snd.control != []
      modifies this`snd, this`pacer
      ensures Snap() == SendControl(old(Snap()), planned)
    {
      var p := snd.control[0];
      pacer := Took(pacer, planned, rate.intervalUs);
      OnUdpSentBufferChanged(0 - p.Size());
      snd := snd.(control := snd.control[1..], outbox := snd.outbox + {p.dg});
    }

    /** The lines of `udpWrite` after the socket took packet k. */
    method PacketTaken(k: nat, planned: int, now: int)
      requires k in snd.packets
      modifies this`snd, this`pacer, this`rate
      ensures Snap() == SendPacket(old(Snap()), k, planned, now)
    {
      var p := snd.packets[k];
      p := p.(sent := true);
      p := p.(sentTimeUs := now);
      p := p.(measureIndex := rate.index);
      snd := snd.(packets := snd.packets[k := p], outbox := snd.outbox + {p.dg}, attempts := Senders.Tried(snd.attempts, k, now));
      pacer := Counts(Took(pacer, planned, rate.intervalUs), Send(rate.index, rate.intervalUs, p.Size(), now));
      OnUdpSent(rate.index, rate.intervalUs, p.Size(), now);
      snd := snd.(toSend := snd.toSend - 1);
    }

    method WriteAgain()
      modifies this`pacer
      ensures Snap() == RearmUdpWrite(old(Snap()))
    {
      pacer := pacer.(udpWrite := SetTime(pacer.udpWrite, pacer.lastSentUs + rate.intervalUs));
    }

    /** The part of `udpWrite` for a waiting control packet. */
    method WriteControl(planned: int, taken: bool, now: int)
      requires udpConnected && snd.control != []
      modifies this
      ensures Snap() == Endpoints.UdpWrite(old(Snap()), planned, taken, now)
    {
      hide Endpoints.UdpClose, SendControl, IsUdpFinished, RearmUdpWrite, SendPacket;
      if taken {
        ControlTaken(planned);
        if UdpFinished() {
          UdpClose(AllDone, now);
          return;
        }
      }
      if snd.control != [] || snd.toSend > 0 {
        WriteAgain();
      }
    }

    /** The part of `udpWrite` for the first unsent packet. */
    method WritePacket(k: nat, planned: int, taken: bool, now: int)
      requires udpConnected && snd.control == [] && FirstUnsent(snd.packets) == Some(k) && k in snd.packets
      modifies this
      ensures Snap() == Endpoints.UdpWrite(old(Snap()), planned, taken, now)
    {
      hide Endpoints.UdpClose, SendControl, IsUdpFinished, RearmUdpWrite, FirstUnsent, SendPacket;
      if taken {
        SendKeepsKey(Snap(), k, planned, now);
        PacketTaken(k, planned, now);
        if snd.packets[k].IsComplete() {
          OnUdpSentBufferChanged(0 - snd.packets[k].Size());
          snd := snd.(packets := snd.packets - {k});
          if UdpFinished() {
            UdpClose(AllDone, now);
            return;
          }
        } else {
          timers := timers.(udpResend := SetTime(timers.udpResend, now + cfg.udpResendUs));
        }
      }
      if snd.toSend > 0 {
        WriteAgain();
      }
    }

    /** `udpWrite`; `taken` says whether the socket took the datagram. */
    method UdpWrite(planned: int, taken: bool, now: int)
      modifies this
      ensures Snap() == Endpoints.UdpWrite(old(Snap()), planned, taken, now)
    {
      if !udpConnected {
        return;
      }
      if snd.control != [] {
        WriteControl(planned, taken, now);
        return;
      }
      hide Endpoints.UdpClose, SendControl, IsUdpFinished, RearmUdpWrite, FirstUnsent, SendPacket;
      var ks := Ascending(snd.packets.Keys);
      var i := 0;
      while i < |ks|
        invariant Snap() == old(Snap())
        invariant i <= |ks| && forall j :: 0 <= j < i ==> snd.packets[ks[j]].sent
      {
        if !snd.packets[ks[i]].sent {
          FirstIs(snd.packets, ks, i);
          WritePacket(ks[i], planned, taken, now);
          return;
        }
        i := i + 1;
      }
      NoneIsUnsent(snd.packets, ks);
    }

    /** The lines of `udpResend` for an unanswered packet that may be sent again. */
    method Resend(k: nat, now: int)
      requires k in snd.packets
      modifies this`snd, this`rate, this`pacer
      ensures Snap() == ExpireOne(old(Snap()), k, now)
    {
      var p := snd.packets[k];
      snd := snd.(toSend := snd.toSend + 1);
      snd := snd.(packets := snd.packets[k := p.(sent := false, remainResendCount := p.remainResendCount - 1)]);
      OnUdpDelivered(false, p.measureIndex, p.Size());
      SetWriteEvent(now);
    }

    /** One round of the loop of `udpResend`; says whether the connection gave up. */
    method ResendRound(ks: seq<nat>, i: nat, now: int) returns (gaveUp: bool)
      requires i < |ks| && ks[i] in snd.packets && udpConnected
      modifies this
      ensures gaveUp ==> Snap() == ResendFrom(old(Snap()), ks, i, now)
      ensures !gaveUp ==>
        && ResendFrom(Snap(), ks, i + 1, now) == ResendFrom(old(Snap()), ks, i, now)
        && udpConnected && snd.packets.Keys == old(snd).packets.Keys
    {
      hide Endpoints.UdpClose, ExpireOne, ResendFrom;
      var p := snd.packets[ks[i]];
      gaveUp := false;
      if p.sent {
        ResendThis(Snap(), ks, i, now);
        ExpireKeepsKeys(Snap(), ks[i], now);
        if p.sentTimeUs + cfg.udpResendUs <= now {
          if p.remainResendCount > 0 {
            Resend(ks[i], now);
          } else {
            UdpClose(NoAnswer(ks[i]), now);
            gaveUp := true;
          }
        } else {
          timers := timers.(udpResend := SetTime(timers.udpResend, p.sentTimeUs + cfg.udpResendUs));
        }
      } else {
        ResendNothing(Snap(), ks, i, now);
      }
    }

    method UdpResend(now: int)
      modifies this
      ensures Snap() == Endpoints.UdpResend(old(Snap()), now)
    {
      hide ResendFrom;
      if !udpConnected {
        return;
      }
      var ks := Ascending(snd.packets.Keys);
      var i := 0;
      while i < |ks|
        invariant i <= |ks| && udpConnected
        invariant snd.packets.Keys == old(snd).packets.Keys
        invariant ResendFrom(Snap(), ks, i, now) == Endpoints.UdpResend(old(Snap()), now)
      {
        var gaveUp := ResendRound(ks, i, now);
        if gaveUp {
          return;
        }
        i := i + 1;
      }
      ResendDone(Snap(), ks, i, now);
    }

    method BuildByeBye(now: int)
      modifies this
      ensures Snap() == Endpoints.BuildByeBye(old(Snap()), now)
    {
      if !udpConnected {
        return;
      }
      snd := snd.(control := snd.control + [Fresh(Datagram(ByeBye, snd.next, []), 0)]);
      OnUdpSentBufferChanged(0);
      SetWriteEvent(now);
      remainByeBye := remainByeBye - 1;
      if remainByeBye > 0 {
        timers := timers.(buildByeBye := SetTime(timers.buildByeBye, now + cfg.buildConfirmationsUs));
      }
    }
    // ---------- confirmations ----------

    /** The loop of `buildConfirmations` and `udpRead` that erases waiting confirmations. */
    method EraseConfirmations()
      modifies this`snd
      ensures snd == DropConfirmations(old(snd))
    {
      hide WithoutConfirmations, QueueBytes;
      var i: nat := 0;
      WithoutNothing(snd.control);
      while i < |snd.control|
        invariant i <= |snd.control|
        invariant snd == old(snd).(control := snd.control, bufferSize := snd.bufferSize)
        invariant Filtered(snd.control, i) == WithoutConfirmations(old(snd).control)
        invariant snd.bufferSize - QueueBytes(snd.control) == old(snd).bufferSize - QueueBytes(old(snd).control)
        decreases |snd.control| - i
      {
        FilterNext(snd.control, i);
        if snd.control[i].dg.kind.Confirmation? {
          OnUdpSentBufferChanged(0 - snd.control[i].Size());
          snd := snd.(control := snd.control[..i] + snd.control[i + 1..]);
        } else {
          i := i + 1;
        }
      }
      WithoutNothing(snd.control);
    }

    /** The lines of `buildConfirmations` that queue what the buffer holds. */
    method QueueConfirmation(payload: seq<byte>)
      modifies this`snd
      ensures snd == PushControl(old(snd), Confirmation, rcv.master, payload)
    {
      snd := snd.(control := snd.control + [Fresh(Datagram(Confirmation, rcv.master, payload), 0)]);
      OnUdpSentBufferChanged(|payload|);
    }

    /** Both attempts of the packing loop at one run: behind the runs already in the
        buffer, or else, after queueing those, at the start of the buffer again. */
    method PackRun(near: Run, far: Run, buffer: array<byte>, pos: nat, size: nat, ghost packed: seq<Run>)
      returns (ok: bool, pos': nat, size': nat, ghost packed': seq<Run>)
      requires 0 <= near.gap < INT_LIMIT && 0 <= far.gap < INT_LIMIT && 0 <= near.length == far.length < INT_LIMIT
      requires pos + size == buffer.Length && buffer[..pos] == EncodeRuns(packed)
      modifies this`snd, buffer
      ensures pos' + size' == buffer.Length && buffer[..pos'] == EncodeRuns(packed')
      ensures Packable(near, size) ==> ok && snd == old(snd) && packed' == packed + [near]
      ensures !Packable(near, size) ==>
        && snd == PushControl(old(snd), Confirmation, rcv.master, EncodeRuns(packed))
        && ok == Packable(far, buffer.Length) && packed' == if ok then [far] else []
    {
      hide EncodeRuns, Encode, PushControl;
      packed' := packed;
      ok, pos', size' := PackIntPair(near.gap, near.length, buffer, pos, size);
      if ok {
        EncodeRunsAppend(packed, near);
        packed' := packed + [near];
        assert buffer[..pos'] == buffer[..pos] + buffer[pos..pos'];
        return;
      }
      assert buffer[..pos] == buffer[..][..pos];
      QueueConfirmation(buffer[..pos]);
      pos', size' := 0, buffer.Length;
      packed' := [];
      EncodeNothing();
      ok, pos', size' := PackIntPair(far.gap, far.length, buffer, pos', size');
      if ok {
        OneRun(0, far);
        packed' := [far];
        assert buffer[..pos'] == buffer[0..pos'];
      }
    }

    /** The packing loop of `buildConfirmations`, through a cursor into one buffer. */
    method PackConfirmations(ks: seq<nat>)
      requires forall k :: k in ks ==> k < INT_MAX
      requires Increasing(ks) && (|ks| > 0 ==> rcv.master <= ks[0])
      modifies this`snd
      ensures snd == PushAll(old(snd), rcv.master, PackAll(ks, rcv.master, cfg.udpSendPacketSize))
    {
      hide PackingRest, EncodeRuns, Packable, PushControl;
      var confirmationData := new byte[cfg.udpSendPacketSize](_ => 0);
      var master := rcv.master;
      ghost var packed: seq<Run> := [];
      var prevIndex := master;
      var pos: nat, size: nat := 0, confirmationData.Length;
      var i := 0;
      var ok := true;
      EncodeNothing();
      PackingStart(snd, ks, master, confirmationData.Length);
      while i < |ks|
        invariant i <= |ks| && pos + size == confirmationData.Length
        invariant confirmationData[..pos] == EncodeRuns(packed)
        invariant i < |ks| ==> master <= prevIndex <= ks[i]
        invariant PackingRest(snd, ks, i, prevIndex, packed, master, confirmationData.Length)
               == PackingRest(old(snd), ks, 0, master, [], master, confirmationData.Length)
        decreases |ks| - i
      {
        var begin := ks[i];
        ghost var first := i;
        i := i + 1;
        var end := begin + 1;
        while i < |ks| && ks[i] == end
          invariant first < i <= |ks| && end == begin + (i - first)
          invariant forall j :: first <= j < i ==> ks[j] == begin + (j - first)
        {
          i := i + 1;
          end := end + 1;
        }
        assert ks[first] in ks && ks[i - 1] in ks;
        RunEndIs(ks, first, i);
        PackingRound(snd, ks, first, prevIndex, packed, master, confirmationData.Length);
        ok, pos, size, packed := PackRun(Run(begin - prevIndex, end - begin), Run(begin - master, end - begin), confirmationData, pos, size, packed);
        if !ok {
          break;
        }
        prevIndex := end;
      }
      if ok {
        PackingEnd(snd, ks, i, prevIndex, packed, master, confirmationData.Length);
      }
      QueueConfirmation(confirmationData[..pos]);
    }

    /** One round of the last loop of `buildConfirmations`. */
    method EraseIfDone(k: nat)
      requires k in rcv.packets
      modifies this`rcv
      ensures rcv == PruneOne(old(rcv), k)
    {
      var p := rcv.packets[k];
      p := p.(confirmed := k < rcv.master);
      rcv := rcv.(packets := rcv.packets[k := p]);
      if p.IsComplete() {
        rcv := rcv.(bufferSize := rcv.bufferSize - p.Size());
        rcv := rcv.(packets := rcv.packets - {k});
      }
    }

    /** The last loop of `buildConfirmations`: what is below the packet in turn was
        confirmed if it is below the master index, and is erased if it was delivered too. */
    method EraseReceived()
      modifies this`rcv
      ensures rcv == Prune(old(rcv)).(confirmedMaster := old(rcv).confirmedMaster)
    {
      hide PruneOne, PruneState, Prune;
      var ks: seq<nat> := Ascending(rcv.packets.Keys);
      ghost var r := rcv;
      ghost var done: set<nat> := {};
      var i := 0;
      NothingPruned(r);
      while i < |ks| && ks[i] < rcv.tcpNext
        invariant i <= |ks| && rcv.tcpNext == r.tcpNext
        invariant forall k: nat :: k in done <==> k in ks[..i]
        invariant rcv == PruneState(r, done)
        invariant forall k: nat :: k in done ==> k < r.tcpNext
      {
        NotBefore(ks, i);
        PruneNext(r, done, ks[i]);
        EraseIfDone(ks[i]);
        assert ks[..i + 1] == ks[..i] + [ks[i]];
        done := done + {ks[i]};
        i := i + 1;
      }
      forall k: nat | k in r.packets && k < r.tcpNext
        ensures k in done
      {
        FoundBefore(ks, i, k, r.tcpNext);
      }
      AllPruned(r, done);
    }

    /** The first half of `buildConfirmations`: fresh confirmations replace the waiting ones. */
    method RenewConfirmations()
      requires forall k: nat :: k in rcv.packets ==> k < INT_MAX
      modifies this`snd
      ensures snd == PushAll(DropConfirmations(old(snd)), rcv.master, ConfirmationPayloads(old(Snap())))
    {
      hide PushAll, PackAll, DropConfirmations, KeysAtOrAbove;
      EraseConfirmations();
      KeysFromOrder(rcv.packets, rcv.master);
      PackConfirmations(KeysAtOrAbove(Ascending(rcv.packets.Keys), rcv.master));
    }

    method BuildConfirmations(now: int)
      requires forall k: nat :: k in rcv.packets ==> k < INT_MAX
      modifies this
      ensures Snap() == Endpoints.BuildConfirmations(old(Snap()), now)
    {
      hide PushAll, ConfirmationPayloads, DropConfirmations, Prune;
      if !udpConnected {
        return;
      }
      RenewConfirmations();
      PruneIgnores(rcv);
      rcv := rcv.(confirmedMaster := rcv.master);
      SetWriteEvent(now);
      EraseReceived();
      remainConfirmation := remainConfirmation - 1;
      if remainConfirmation > 0 {
        timers := timers.(buildConfirmations := SetTime(timers.buildConfirmations, now + cfg.buildConfirmationsUs));
      }
    }

    // ---------- from UDP ----------

    /** The lines of `udpRead` for a confirmed packet that is still stored. */
    method Confirmed(k: nat)
      requires k in snd.packets
      modifies this`snd, this`rate, this`pacer
      ensures Snap() == ConfirmOne(old(Snap()), k)
    {
      hide OnDelivered, Noted, Total, QueueBytes;
      var p := snd.packets[k];
      if !p.confirmed {
        OnUdpDelivered(true, p.measureIndex, p.Size());
      }
      if !p.sent {
        snd := snd.(toSend := snd.toSend - 1);
      }
      snd := snd.(late := Noted(snd.late, p));
      p := p.(sent := true);
      p := p.(confirmed := true);
      assert snd.packets[k := p] - {k} == snd.packets - {k};
      snd := snd.(packets := snd.packets[k := p]);
      if p.IsComplete() {
        OnUdpSentBufferChanged(0 - p.Size());
        snd := snd.(packets := snd.packets - {k});
      }
    }

    /** The first loop of `udpRead`. */
    method ConfirmBelowMaster(masterIndex: int)
      modifies this`snd, this`rate, this`pacer
      ensures Snap() == ConfirmBelow(old(Snap()), Ascending(old(snd).packets.Keys), 0, masterIndex)
    {
      hide ConfirmBelow, ConfirmOne;
      var ks: seq<nat> := Ascending(snd.packets.Keys);
      var i := 0;
      while i < |ks| && ks[i] < masterIndex
        invariant i <= |ks|
        invariant forall j :: i <= j < |ks| ==> ks[j] in snd.packets
        invariant ConfirmBelow(Snap(), ks, i, masterIndex) == ConfirmBelow(old(Snap()), ks, 0, masterIndex)
      {
        BelowNext(Snap(), ks, i, masterIndex);
        Confirmed(ks[i]);
        i := i + 1;
      }
      BelowEnd(Snap(), ks, i, masterIndex);
    }

    /** The second loop of `udpRead`: every run the payload lists, every index of a run. */
    method ConfirmRuns(masterIndex: int, payload: seq<byte>)
      modifies this`snd, this`rate, this`pacer
      ensures Snap() == ConfirmListed(old(Snap()), Listed(masterIndex, payload), 0)
    {
      hide ConfirmListed, ConfirmOne, Expand, ReadAll, Indices;
      var currentIndex := masterIndex;
      var ok, a, b, pos := UnpackIntPair(payload, 0);
      var before: nat := 0;
      while ok
        invariant before <= |payload|
        invariant ok == ReadPair(payload, before).Pair?
        invariant ok ==> ReadPair(payload, before) == Pair(a, b, pos)
        invariant ConfirmListed(Snap(), Expand(currentIndex, ReadAll(payload, before)), 0)
               == ConfirmListed(old(Snap()), Listed(masterIndex, payload), 0)
        decreases |payload| - before
      {
        ReadPairProgress(payload, before);
        ReadNext(payload, before, currentIndex);
        currentIndex := currentIndex + a + b;
        var i := currentIndex - b;
        while i < currentIndex
          invariant ConfirmListed(Snap(), Indices(i, currentIndex) + Expand(currentIndex, ReadAll(payload, pos)), 0)
                 == ConfirmListed(old(Snap()), Listed(masterIndex, payload), 0)
        {
          IndicesNext(i, currentIndex, Expand(currentIndex, ReadAll(payload, pos)));
          ListedNext(Snap(), i, Indices(i + 1, currentIndex) + Expand(currentIndex, ReadAll(payload, pos)));
          if i >= 0 && i in snd.packets {
            Confirmed(i);
          }
          i := i + 1;
        }
        IndicesEnd(i, currentIndex, Expand(currentIndex, ReadAll(payload, pos)));
        before := pos;
        ok, a, b, pos := UnpackIntPair(payload, before);
      }
      ReadLast(payload, before, currentIndex);
      ListedEnd(Snap());
    }

    /** The part of `udpRead` for a confirmation. */
    method ReadConfirmation(d: Datagram, now: int)
      modifies this
      ensures Snap() == Endpoints.ReadConfirmation(old(Snap()), d, now)
    {
      hide ConfirmBelow, ConfirmListed, Listed, IsNoMoreDataWillBeSent, Ascending;
      var prevNoMoreDataWillBeSent := NoMoreDataWillBeSent();
      ConfirmBelowMaster(d.index);
      ConfirmRuns(d.index, d.payload);
      if snd.toSend >= |snd.packets| {
        timers := timers.(udpResend := -1);
      }
      if NoMoreDataWillBeSent() && !prevNoMoreDataWillBeSent {
        remainByeBye := cfg.confirmationResendCount;
        timers := timers.(buildByeBye := SetTime(timers.buildByeBye, now));
      }
    }

    /** The lines of `udpRead` that store a packet and advance the master index. */
    method StoreNew(d: Datagram)
      requires d.index >= 0
      modifies this`rcv
      ensures rcv == Store(old(rcv), d)
    {
      hide Advance;
      rcv := rcv.(packets := rcv.packets[d.index := Fresh(d, 0)], got := rcv.got[d.index := d]);
      rcv := rcv.(bufferSize := rcv.bufferSize + |d.payload|);
      while rcv.master in rcv.packets && rcv.master < rcv.final
        invariant Advance(rcv) == Store(old(rcv), d)
        decreases |KeysFrom(rcv.packets, rcv.master)|
      {
        AdvanceNext(rcv);
        var p := rcv.packets[rcv.master];
        rcv := rcv.(master := rcv.master + 1);
        if p.dg.IsBye() {
          rcv := rcv.(final := rcv.master);
        }
      }
      AdvanceEnd(rcv);
    }

    /** The part of `udpRead` for a numbered packet. */
    method ReadNumbered(d: Datagram, now: int)
      requires d.index >= 0
      modifies this
      ensures Snap() == Endpoints.ReadNumbered(old(Snap()), d, now)
    {
      hide Store, TcpWriteFake;
      if d.index !in rcv.packets {
        StoreNew(d);
        FakeKeeps(Snap());
        TcpWrite(true, 0, now);
        if rcv.tcpNext < rcv.master {
          timers := timers.(tcpWrite := SetTime(timers.tcpWrite, now));
        }
        if rcv.master >= rcv.final {
          timers := timers.(udpCloseWait := SetTime(timers.udpCloseWait, now + (cfg.udpResendUs * cfg.udpResendCount + cfg.udpResendUs)));
        }
      }
      remainConfirmation := cfg.confirmationResendCount;
      timers := timers.(buildConfirmations := SetTime(timers.buildConfirmations, now + cfg.buildConfirmationsUs));
    }

    /** The part of `udpRead` for a goodbye. */
    method ReadByeBye(now: int)
      modifies this
      ensures Snap() == Endpoints.ReadByeBye(old(Snap()), now)
    {
      hide DropConfirmations;
      remainConfirmation := 0;
      timers := timers.(buildConfirmations := -1);
      EraseConfirmations();
      if timers.udpCloseWait >= 0 {
        timers := timers.(udpCloseWait :=
          SetTime(timers.udpCloseWait, now + (cfg.udpResendUs * cfg.confirmationResendCount / 3 + cfg.udpResendUs)));
      }
    }

    method CloseWhenFinished(now: int)
      modifies this
      ensures Snap() == CloseIfFinished(old(Snap()), now)
    {
      if UdpFinished() {
        UdpClose(AllDone, now);
      }
    }

    method UdpRead(d: Datagram, now: int)
      modifies this
      ensures Snap() == Endpoints.UdpRead(old(Snap()), d, now)
    {
      hide Endpoints.ReadConfirmation, Endpoints.ReadNumbered, Endpoints.ReadByeBye, CloseIfFinished;
      if !udpConnected {
        return;
      }
      if d.kind.Confirmation? {
        ReadConfirmation(d, now);
      } else if d.index >= rcv.master && d.index < rcv.final
        && d.index - rcv.tcpNext <= 2 * cfg.udpMaxReceiveBufferSize / cfg.udpSendPacketSize
        && ((d.kind.Hello? && d.index == 0) || d.kind.Bye? || d.kind.Disconnect? || d.kind.Data?) {
        ReadNumbered(d, now);
      } else if d.kind.ByeBye? && d.index == rcv.master && d.index == rcv.final {
        ReadByeBye(now);
      }
      CloseWhenFinished(now);
    }

    // ---------- events ----------

    /** An event is raised: it is disabled, then its handler runs. Whatever happens, the
        connection does what the model says, and its invariant holds again. */
    method Handle(a: Action, now: int)
      requires Valid() && Ready(Snap(), a, now)
      requires a.Receive? ==> Honest(Snap(), a.d)
      modifies this
      ensures Snap() == Step(old(Snap()), a, now)
      ensures Valid() && Grows(old(Snap()), Snap())
    {
      hide EndOk, Grows, Covers, PreservationUdp.CoveredBy;
      hide Endpoints.TcpRead, Endpoints.TcpWrite, Endpoints.TcpClose, Endpoints.UdpWrite, Endpoints.UdpClose;
      hide Endpoints.BuildUdpPackets, Endpoints.BuildConfirmations, Endpoints.BuildByeBye, Endpoints.UdpResend;
      hide CloseIfFinished, Endpoints.UdpRead;
      StepKeeps(Snap(), a, now);
      CountableKeys(Snap());
      Dispatch(a, now);
    }

    method Dispatch(a: Action, now: int)
      requires forall k: nat :: k in rcv.packets ==> k < INT_MAX
      modifies this
      ensures Snap() == Step(old(Snap()), a, now)
    {
      hide Endpoints.TcpRead, Endpoints.TcpWrite, Endpoints.TcpClose, Endpoints.UdpWrite, Endpoints.UdpClose;
      hide Endpoints.BuildUdpPackets, Endpoints.BuildConfirmations, Endpoints.BuildByeBye, Endpoints.UdpResend;
      hide CloseIfFinished, Endpoints.UdpRead;
      clock := now;
      match a {
        case ReadTcp(bytes) => TcpRead(bytes, now);
        case WriteTcp(accepted) =>
          timers := timers.(tcpWrite := -1);
          TcpWrite(false, accepted, now);
        case CloseTcp(error) => TcpClose(error, now);
        case WriteUdp(taken) =>
          var planned := pacer.udpWrite;
          pacer := pacer.(udpWrite := -1);
          UdpWrite(planned, taken, now);
        case CloseUdp => UdpClose(ByCaller, now);
        case Build =>
          timers := timers.(buildUdpPackets := -1);
          BuildUdpPackets(true, now);
        case Confirm =>
          timers := timers.(buildConfirmations := -1);
          BuildConfirmations(now);
        case SayByeBye =>
          timers := timers.(buildByeBye := -1);
          BuildByeBye(now);
        case Resend =>
          timers := timers.(udpResend := -1);
          UdpResend(now);
        case CloseWait =>
          timers := timers.(udpCloseWait := -1);
          CloseWhenFinished(now);
        case Receive(d) => UdpRead(d, now);
      }
    }
  }

  // ---------- loops over a map in key order ----------

  /** The windows but for those above lo and up to hi. */
  function Outside(m: map<nat, Measure>, lo: nat, hi: nat): map<nat, Measure> {
    map k | k in m && !(lo < k <= hi) :: m[k]
  }

  lemma EraseNext(m: map<nat, Measure>, ks: seq<nat>, i: nat, hi: nat)
    requires ks == Ascending(m.Keys) && 0 < i < |ks| && ks[i] <= hi
    ensures Outside(m, ks[i], hi) - {ks[i]} == Outside(m, ks[i - 1], hi)
    ensures ks[i - 1] < ks[i]
  {
    hide Ascending;
    forall k | k in m.Keys
      ensures k <= ks[i - 1] || k >= ks[i]
    {
      var j :| 0 <= j < |ks| && ks[j] == k;
    }
  }

  lemma EraseLast(m: map<nat, Measure>, ks: seq<nat>, hi: nat)
    requires ks == Ascending(m.Keys) && 0 < |ks| && ks[0] <= hi
    ensures Outside(m, ks[0], hi) - {ks[0]} == map k | k in m && k > hi :: m[k]
  {
    hide Ascending;
    forall k | k in m.Keys
      ensures k >= ks[0]
    {
      var j :| 0 <= j < |ks| && ks[j] == k;
    }
  }

  lemma FirstIs(packets: map<nat, Packet>, ks: seq<nat>, i: nat)
    requires ks == Ascending(packets.Keys) && i < |ks|
    requires (forall j :: 0 <= j < i ==> packets[ks[j]].sent) && !packets[ks[i]].sent
    ensures FirstUnsent(packets) == Some(ks[i])
  {
    hide Ascending, FirstUnsent;
    forall k: nat | k in packets && !packets[k].sent
      ensures k >= ks[i]
    {
      var j :| 0 <= j < |ks| && ks[j] == k;
    }
  }

  lemma NoneIsUnsent(packets: map<nat, Packet>, ks: seq<nat>)
    requires ks == Ascending(packets.Keys)
    requires forall j :: 0 <= j < |ks| ==> packets[ks[j]].sent
    ensures FirstUnsent(packets) == None
  {
    hide Ascending, FirstUnsent;
    forall k: nat | k in packets
      ensures packets[k].sent
    {
      var j :| 0 <= j < |ks| && ks[j] == k;
    }
  }

  lemma SkipMoves(r: Receiver)
    requires r.tcpNext in r.packets
    ensures Skip(r).tcpNext == r.tcpNext + 1 && Skip(r).master == r.master
  {
  }

  lemma SendKeepsKey(e: Endpoint, k: nat, planned: int, now: int)
    requires k in e.snd.packets
    ensures k in SendPacket(e, k, planned, now).snd.packets
    ensures SendPacket(e, k, planned, now).cfg == e.cfg
  {
  }

  /** One round of the loop of `buildUdpPackets`. */
  lemma CutOne(e: Endpoint, flush: bool, now: int, size: nat)
    requires Cut(e.cfg, e.snd.data, flush) && size == Min(|e.snd.data|, e.cfg.udpSendPacketSize)
    ensures CutAll(e, flush, now)
         == CutAll(Queue(e.(snd := e.snd.(data := e.snd.data[size..])), Data, e.snd.data[..size], now), flush, now)
  {
  }

  lemma CutNone(e: Endpoint, flush: bool, now: int)
    requires !Cut(e.cfg, e.snd.data, flush)
    ensures CutAll(e, flush, now) == e
  {
  }

  lemma ResendNothing(e: Endpoint, ks: seq<nat>, i: nat, now: int)
    requires i < |ks| && (ks[i] !in e.snd.packets || !e.snd.packets[ks[i]].sent)
    ensures ResendFrom(e, ks, i, now) == ResendFrom(e, ks, i + 1, now)
  {
  }

  lemma ResendThis(e: Endpoint, ks: seq<nat>, i: nat, now: int)
    requires i < |ks| && ks[i] in e.snd.packets && e.snd.packets[ks[i]].sent
    ensures var p := e.snd.packets[ks[i]];
      ResendFrom(e, ks, i, now) ==
      if p.sentTimeUs + e.cfg.udpResendUs > now then ResendFrom(ArmResend(e, p.sentTimeUs + e.cfg.udpResendUs), ks, i + 1, now)
      else if p.remainResendCount > 0 then ResendFrom(ExpireOne(e, ks[i], now), ks, i + 1, now)
      else Endpoints.UdpClose(e, NoAnswer(ks[i]), now)
  {
  }

  lemma ExpireKeepsKeys(e: Endpoint, k: nat, now: int)
    requires k in e.snd.packets
    ensures ExpireOne(e, k, now).snd.packets.Keys == e.snd.packets.Keys
    ensures ExpireOne(e, k, now).udpConnected == e.udpConnected
  {
    hide OnDelivered, ArmUdpWrite;
  }

  lemma ResendDone(e: Endpoint, ks: seq<nat>, i: nat, now: int)
    requires i >= |ks|
    ensures ResendFrom(e, ks, i, now) == e
  {
  }

  /** The connection without the first n bytes of its buffer. */
  function Trimmed(e: Endpoint, n: nat): Endpoint
    requires n <= |e.snd.data|
  {
    e.(snd := e.snd.(data := e.snd.data[n..]))
  }

  /** Numbering does not look at the buffer. */
  lemma QueueTrimmed(e: Endpoint, payload: seq<byte>, n: nat, now: int)
    requires n <= |e.snd.data|
    ensures Queue(e, Data, payload, now).snd.data == e.snd.data
    ensures Queue(e, Data, payload, now) == e.(snd := Queue(e, Data, payload, now).snd, pacer := Queue(e, Data, payload, now).pacer)
    ensures Queue(Trimmed(e, n), Data, payload, now) == Trimmed(Queue(e, Data, payload, now), n)
  {
  }

  // ---------- the loops of `buildConfirmations` ----------

  /** The queue when the erasing loop is at position i: what follows is still to be filtered. */
  function Filtered(q: seq<Packet>, i: nat): seq<Packet>
    requires i <= |q|
  {
    q[..i] + WithoutConfirmations(q[i..])
  }

  lemma WithoutNothing(q: seq<Packet>)
    ensures Filtered(q, 0) == WithoutConfirmations(q) && Filtered(q, |q|) == q
  {
    assert q[0..] == q && q[..|q|] == q;
  }

  lemma WithoutCons(p: Packet, rest: seq<Packet>)
    ensures WithoutConfirmations([p] + rest) == (if p.dg.kind.Confirmation? then [] else [p]) + WithoutConfirmations(rest)
    ensures QueueBytes([p] + rest) == p.Size() + QueueBytes(rest)
  {
    assert ([p] + rest)[1..] == rest;
  }

  lemma SplitAt<T>(q: seq<T>, i: nat)
    requires i < |q|
    ensures q[i..] == [q[i]] + q[i + 1..] && q == q[..i] + ([q[i]] + q[i + 1..])
    ensures q[..i + 1] == q[..i] + [q[i]]
    ensures (q[..i] + q[i + 1..])[..i] == q[..i] && (q[..i] + q[i + 1..])[i..] == q[i + 1..]
  {
  }

  lemma FilterNext(q: seq<Packet>, i: nat)
    requires i < |q|
    ensures q[i].dg.kind.Confirmation? ==>
      && Filtered(q[..i] + q[i + 1..], i) == Filtered(q, i)
      && QueueBytes(q) == QueueBytes(q[..i] + q[i + 1..]) + q[i].Size()
    ensures !q[i].dg.kind.Confirmation? ==> Filtered(q, i + 1) == Filtered(q, i)
  {
    hide QueueBytes, WithoutConfirmations;
    var front, rest := q[..i], q[i + 1..];
    SplitAt(q, i);
    WithoutCons(q[i], rest);
    QueueBytesAppend(front, [q[i]] + rest);
    QueueBytesAppend(front, rest);
    if q[i].dg.kind.Confirmation? {
      assert [] + WithoutConfirmations(rest) == WithoutConfirmations(rest);
    } else {
      ConcatAssociative(front, [q[i]], WithoutConfirmations(rest));
    }
  }

  lemma EncodeNothing()
    ensures EncodeRuns([]) == []
  {
  }

  lemma RunEndIs(ks: seq<nat>, i: nat, j: nat)
    requires i < j <= |ks|
    requires forall k :: i <= k < j ==> ks[k] == ks[i] + (k - i)
    requires j < |ks| ==> ks[j] != ks[i] + (j - i)
    ensures RunEnd(ks, i) == j
  {
    var e := RunEnd(ks, i);
  }

  /** What the rest of the packing loop makes of the sender. */
  ghost function PackingRest(s: Sender, ks: seq<nat>, i: nat, prev: int, packed: seq<Run>, master: nat, capacity: nat): Sender {
    PushAll(s, master, Payloads(Plan(ks, i, prev, packed, master, capacity)))
  }

  lemma PackingStart(s: Sender, ks: seq<nat>, master: nat, capacity: nat)
    ensures PushAll(s, master, PackAll(ks, master, capacity)) == PackingRest(s, ks, 0, master, [], master, capacity)
  {
  }

  lemma PackingEnd(s: Sender, ks: seq<nat>, i: nat, prev: int, packed: seq<Run>, master: nat, capacity: nat)
    requires i >= |ks|
    ensures PackingRest(s, ks, i, prev, packed, master, capacity) == PushControl(s, Confirmation, master, EncodeRuns(packed))
  {
    hide PushControl, EncodeRuns;
    PushTwo(s, master, packed, []);
  }

  lemma PushTwo(s: Sender, master: nat, packed: seq<Run>, plan: seq<seq<Run>>)
    ensures PushAll(s, master, Payloads([packed] + plan))
         == PushAll(PushControl(s, Confirmation, master, EncodeRuns(packed)), master, Payloads(plan))
  {
    hide PushControl, EncodeRuns;
    assert ([packed] + plan)[1..] == plan;
    assert Payloads([packed] + plan)[1..] == Payloads(plan);
  }

  lemma PlanOnce(ks: seq<nat>, i: nat, prev: int, packed: seq<Run>, master: nat, capacity: nat)
    requires i < |ks|
    ensures var j := RunEnd(ks, i);
      var end := ks[i] + (j - i);
      var near, far := Run(ks[i] - prev, j - i), Run(ks[i] - master, j - i);
      Plan(ks, i, prev, packed, master, capacity) ==
      if Packable(near, capacity - |EncodeRuns(packed)|) then Plan(ks, j, end, packed + [near], master, capacity)
      else if Packable(far, capacity) then [packed] + Plan(ks, j, end, [far], master, capacity)
      else [packed, []]
  {
    hide EncodeRuns, Packable;
  }

  lemma PackingRound(s: Sender, ks: seq<nat>, i: nat, prev: int, packed: seq<Run>, master: nat, capacity: nat)
    requires i < |ks|
    ensures var j := RunEnd(ks, i);
      var end := ks[i] + (j - i);
      var near, far := Run(ks[i] - prev, j - i), Run(ks[i] - master, j - i);
      var pushed := PushControl(s, Confirmation, master, EncodeRuns(packed));
      PackingRest(s, ks, i, prev, packed, master, capacity) ==
      if Packable(near, capacity - |EncodeRuns(packed)|) then PackingRest(s, ks, j, end, packed + [near], master, capacity)
      else if Packable(far, capacity) then PackingRest(pushed, ks, j, end, [far], master, capacity)
      else PushControl(pushed, Confirmation, master, EncodeRuns([]))
  {
    hide PushControl, EncodeRuns, Packable, PushAll, Plan, Payloads;
    PlanOnce(ks, i, prev, packed, master, capacity);
    var j := RunEnd(ks, i);
    var end := ks[i] + (j - i);
    var far := Run(ks[i] - master, j - i);
    PushTwo(s, master, packed, Plan(ks, j, end, [far], master, capacity));
    PushTwo(s, master, packed, [[]]);
    assert [packed] + [[]] == [packed, []];
    var pushed := PushControl(s, Confirmation, master, EncodeRuns(packed));
    PushTwo(pushed, master, [], []);
    var nothing: seq<seq<Run>> := [[]];
    assert nothing + [] == nothing;
    PushNothing(PushControl(pushed, Confirmation, master, EncodeRuns([])), master);
  }

  lemma PushNothing(s: Sender, master: nat)
    ensures PushAll(s, master, Payloads([])) == s
  {
  }

  /** `lower_bound`: the keys from the first one that is not below lo. */
  function KeysAtOrAbove(ks: seq<nat>, lo: nat): (r: seq<nat>)
    decreases |ks|
  {
    if ks == [] || ks[0] >= lo then ks else KeysAtOrAbove(ks[1..], lo)
  }

  lemma {:induction false} TailOf(ks: seq<nat>, lo: nat)
    requires Increasing(ks)
    ensures Increasing(KeysAtOrAbove(ks, lo))
    ensures forall k: nat :: k in KeysAtOrAbove(ks, lo) <==> k in ks && k >= lo
    decreases |ks|
  {
    if ks != [] && ks[0] < lo {
      TailOf(ks[1..], lo);
    } else {
      forall k: nat | k in ks
        ensures k >= lo
      {
        var j :| 0 <= j < |ks| && ks[j] == k;
      }
    }
  }

  lemma {:induction false} IncreasingUnique(a: seq<nat>, b: seq<nat>)
    requires Increasing(a) && Increasing(b)
    requires forall k: nat :: k in a <==> k in b
    ensures a == b
    decreases |a|
  {
    if a == [] {
      HasFirst(b);
    } else {
      SameFirst(a, b);
      forall k: nat
        ensures k in a[1..] <==> k in b[1..]
      {
        InTail(a, k);
        InTail(b, k);
      }
      IncreasingUnique(a[1..], b[1..]);
      assert a == [a[0]] + a[1..] && b == [b[0]] + b[1..];
    }
  }

  lemma HasFirst(s: seq<nat>)
    ensures s == [] || s[0] in s
  {
  }

  lemma SameFirst(a: seq<nat>, b: seq<nat>)
    requires Increasing(a) && Increasing(b) && a != []
    requires forall k: nat :: k in a <==> k in b
    ensures b != [] && a[0] == b[0]
  {
    assert a[0] in a;
    assert a[0] in b;
    assert b[0] in b;
    assert b[0] in a;
    var i :| 0 <= i < |a| && a[i] == b[0];
    var j :| 0 <= j < |b| && b[j] == a[0];
  }

  lemma InTail(a: seq<nat>, k: nat)
    requires Increasing(a) && a != []
    ensures k in a[1..] <==> k in a && k != a[0]
  {
    if k in a && k != a[0] {
      var i :| 0 <= i < |a| && a[i] == k;
      assert a[1..][i - 1] == k;
    }
    if k in a[1..] {
      var i :| 0 <= i < |a[1..]| && a[1..][i] == k;
      assert a[i + 1] == k;
    }
  }

  lemma KeysFromOrder(packets: map<nat, Packet>, lo: nat)
    ensures KeysAtOrAbove(Ascending(packets.Keys), lo) == Ascending(KeysFrom(packets, lo))
    ensures forall k: nat :: k in KeysAtOrAbove(Ascending(packets.Keys), lo) <==> k in packets && k >= lo
    ensures Increasing(KeysAtOrAbove(Ascending(packets.Keys), lo))
  {
    TailOf(Ascending(packets.Keys), lo);
    IncreasingUnique(KeysAtOrAbove(Ascending(packets.Keys), lo), Ascending(KeysFrom(packets, lo)));
  }

  /** The loop that erases received packets, after the given keys. */
  ghost function PrunedUpTo(r: Receiver, done: set<nat>): map<nat, Packet> {
    map k | k in r.packets && !(k in done && Erased(r, k)) ::
      if k in done then r.packets[k].(confirmed := k < r.master) else r.packets[k]
  }

  ghost function DroppedUpTo(r: Receiver, done: set<nat>): map<nat, Packet> {
    map k | k in r.packets && k in done && Erased(r, k) :: r.packets[k]
  }

  ghost function PruneState(r: Receiver, done: set<nat>): Receiver {
    r.(packets := PrunedUpTo(r, done), bufferSize := r.bufferSize - Total(DroppedUpTo(r, done), Bytes))
  }

  function PruneOne(r: Receiver, k: nat): Receiver
    requires k in r.packets
  {
    var p := r.packets[k].(confirmed := k < r.master);
    if p.IsComplete() then r.(packets := r.packets - {k}, bufferSize := r.bufferSize - p.Size())
    else r.(packets := r.packets[k := p])
  }

  lemma NothingPruned(r: Receiver)
    ensures PruneState(r, {}) == r
  {
    assert DroppedUpTo(r, {}) == map[];
    assert PrunedUpTo(r, {}) == r.packets;
  }

  lemma PruneNext(r: Receiver, done: set<nat>, k: nat)
    requires k in r.packets && k !in done && k < r.tcpNext
    ensures k in PruneState(r, done).packets && PruneOne(PruneState(r, done), k) == PruneState(r, done + {k})
    ensures PruneState(r, done + {k}).tcpNext == r.tcpNext
  {
    hide Total;
    var p := r.packets[k].(confirmed := k < r.master);
    PrunedNext(r, done, k);
    if p.IsComplete() {
      TotalInsert(DroppedUpTo(r, done), k, r.packets[k], Bytes);
    }
  }

  lemma PrunedNext(r: Receiver, done: set<nat>, k: nat)
    requires k in r.packets && k !in done && k < r.tcpNext
    ensures var p := r.packets[k].(confirmed := k < r.master);
      && (Erased(r, k) <==> p.IsComplete())
      && PrunedUpTo(r, done + {k}) == (if Erased(r, k) then PrunedUpTo(r, done) - {k} else PrunedUpTo(r, done)[k := p])
      && DroppedUpTo(r, done + {k}) == (if Erased(r, k) then DroppedUpTo(r, done)[k := r.packets[k]] else DroppedUpTo(r, done))
  {
    assert Erased(r, k) <==> r.packets[k].(confirmed := k < r.master).IsComplete();
    hide Erased;
  }

  lemma FoundBefore(ks: seq<nat>, i: nat, k: nat, limit: nat)
    requires Increasing(ks) && i <= |ks| && k in ks && k < limit && (i < |ks| ==> ks[i] >= limit)
    ensures k in ks[..i]
  {
    var j :| 0 <= j < |ks| && ks[j] == k;
    assert ks[..i][j] == k;
  }

  lemma NotBefore(ks: seq<nat>, i: nat)
    requires Increasing(ks) && i < |ks|
    ensures ks[i] !in ks[..i]
  {
  }

  lemma AllPruned(r: Receiver, done: set<nat>)
    requires forall k: nat :: k in r.packets ==> (k in done <==> k < r.tcpNext)
    ensures PruneState(r, done) == Prune(r).(confirmedMaster := r.confirmedMaster)
  {
    hide Total;
    assert PrunedUpTo(r, done) == Pruned(r);
    assert DroppedUpTo(r, done) == Dropped(r);
  }

  lemma PruneIgnores(r: Receiver)
    ensures Prune(r.(confirmedMaster := r.master)) == Prune(r)
    ensures Prune(r).confirmedMaster == r.master
  {
    hide Total;
    assert Pruned(r.(confirmedMaster := r.master)) == Pruned(r);
    assert Dropped(r.(confirmedMaster := r.master)) == Dropped(r);
  }

  // ---------- the loops of `udpRead` ----------

  lemma BelowNext(e: Endpoint, ks: seq<nat>, i: nat, master: int)
    requires i < |ks| && ks[i] < master && ks[i] in e.snd.packets
    requires Increasing(ks)
    ensures ConfirmBelow(e, ks, i, master) == ConfirmBelow(ConfirmOne(e, ks[i]), ks, i + 1, master)
    ensures forall j :: i < j < |ks| && ks[j] in e.snd.packets ==> ks[j] in ConfirmOne(e, ks[i]).snd.packets
  {
    hide OnDelivered;
  }

  lemma BelowEnd(e: Endpoint, ks: seq<nat>, i: nat, master: int)
    requires i >= |ks| || ks[i] >= master
    ensures ConfirmBelow(e, ks, i, master) == e
  {
  }

  lemma {:induction false} ListedShift(e: Endpoint, x: int, rest: seq<int>, i: nat)
    ensures ConfirmListed(e, [x] + rest, i + 1) == ConfirmListed(e, rest, i)
    decreases |rest| - i
  {
    hide ConfirmOne;
    if i < |rest| {
      assert ([x] + rest)[i + 1] == rest[i];
      ListedShift(e, x, rest, i + 1);
      if rest[i] >= 0 && rest[i] in e.snd.packets {
        ListedShift(ConfirmOne(e, rest[i]), x, rest, i + 1);
      }
    }
  }

  /** The first listed index is handled, the others remain. */
  lemma ListedNext(e: Endpoint, x: int, rest: seq<int>)
    ensures ConfirmListed(e, [x] + rest, 0)
         == ConfirmListed(if x < 0 || x !in e.snd.packets then e else ConfirmOne(e, x), rest, 0)
  {
    hide ConfirmOne;
    assert ([x] + rest)[0] == x;
    ListedShift(if x < 0 || x !in e.snd.packets then e else ConfirmOne(e, x), x, rest, 0);
  }

  lemma ListedEnd(e: Endpoint)
    ensures ConfirmListed(e, [], 0) == e
  {
  }

  lemma IndicesNext(lo: int, hi: int, rest: seq<int>)
    requires lo < hi
    ensures Indices(lo, hi) + rest == [lo] + (Indices(lo + 1, hi) + rest)
  {
    assert Indices(lo, hi) == [lo] + Indices(lo + 1, hi);
  }

  lemma IndicesEnd(lo: int, hi: int, rest: seq<int>)
    requires lo >= hi
    ensures Indices(lo, hi) + rest == rest
  {
  }

  /** One pair read from the payload lists one run of indices. */
  lemma ReadNext(payload: seq<byte>, pos: nat, current: int)
    requires ReadPair(payload, pos).Pair?
    ensures var p := ReadPair(payload, pos);
      Expand(current, ReadAll(payload, pos))
      == Indices(current + p.a, current + p.a + p.b) + Expand(current + p.a + p.b, ReadAll(payload, p.end))
  {
    hide Indices;
    var p := ReadPair(payload, pos);
    var rest := ReadAll(payload, p.end);
    assert ([Run(p.a, p.b)] + rest)[1..] == rest;
  }

  lemma ReadLast(payload: seq<byte>, pos: nat, current: int)
    requires ReadPair(payload, pos).NoPair?
    ensures Expand(current, ReadAll(payload, pos)) == []
  {
  }

  lemma AdvanceNext(r: Receiver)
    requires r.master in r.packets && r.master < r.final
    ensures Advance(r) == Advance(r.(master := r.master + 1, final := if r.packets[r.master].dg.IsBye() then r.master + 1 else r.final))
    ensures |KeysFrom(r.packets, r.master + 1)| < |KeysFrom(r.packets, r.master)|
  {
    assert KeysFrom(r.packets, r.master) == KeysFrom(r.packets, r.master + 1) + {r.master};
  }

  lemma AdvanceEnd(r: Receiver)
    requires r.master !in r.packets || r.master >= r.final
    ensures Advance(r) == r
  {
  }

  lemma FakeKeeps(e: Endpoint)
    ensures TcpWriteFake(e) == e.(rcv := TcpWriteFake(e).rcv)
    ensures TcpWriteFake(e).rcv.got == e.rcv.got
  {
    hide Discard;
    DiscardGot(e.rcv);
  }

  lemma CountableKeys(e: Endpoint)
    requires EndOk(e)
    ensures forall k: nat :: k in e.rcv.packets ==> k < INT_MAX
  {
    Tunnels.EndParts(e);
    hide EndOk, Total, Contents, StreamOpen, FinalOk, AllStoredOk;
  }

  // ---------- two connections ----------

  ghost function TunnelOf(left: Connection, right: Connection): Tunnels.Tunnel
    reads left, right
  {
    Tunnels.Tunnel(left.Snap(), right.Snap())
  }

  /** Two connections do in every move what the model of a tunnel does, so what holds in
      all its runs holds of them. */
  method Play(left: Connection, right: Connection, m: Tunnels.Move)
    requires left != right && Tunnels.TunnelOk(TunnelOf(left, right)) && Tunnels.Countable(TunnelOf(left, right))
    requires Tunnels.Possible(TunnelOf(left, right), m)
    modifies left, right
    ensures TunnelOf(left, right) == Tunnels.Apply(old(TunnelOf(left, right)), m)
    ensures Tunnels.TunnelOk(TunnelOf(left, right))
  {
    hide EndOk, Step, Ready, Honest, Grows, Tunnels.Link, CheckCrc32, Parse, Frame;
    ghost var t := TunnelOf(left, right);
    Tunnels.MoveKeeps(t, m);
    var mover, other := left, right;
    if m.side.Right? {
      mover, other := right, left;
    }
    match m {
      case Local(side, action, now) => mover.Handle(action, now);
      case Arrive(side, raw, now) =>
        var packet := new RawPacket();
        packet.data := raw;
        var ok := packet.Check();
        if ok {
          ghost var d: Datagram :| d in other.snd.outbox && raw == Frame(d);
          Tunnels.SentIsReadable(other.Snap(), d);
          Tunnels.PeerIsHonest(mover.Snap(), other.Snap(), d);
          ReadyToReceive(mover.Snap(), d, now);
          mover.Handle(Receive(Parse(raw)), now);
        }
    }
  }

  lemma ReadyToReceive(e: Endpoint, d: Datagram, now: int)
    requires 0 <= e.clock <= now
    ensures Ready(e, Receive(d), now)
  {
  }
}
