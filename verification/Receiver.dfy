/** The receiving half of a connection: reordering, delivery to TCP with partial
    writes, the final index, and the window. `got` and `tcpOut` are history: every
    numbered datagram ever accepted, and every byte ever written to TCP. */
module Receivers {
  import opened Base

  datatype Receiver = Receiver(
    tcpNext: nat,                 // tcpNextSendIndex
    master: nat,                  // udpReceivedMasterIndex
    confirmedMaster: nat,         // udpConfirmedMasterIndex
    final: int,                   // udpReceivedFinalIndex
    packets: map<nat, Packet>,    // udpReceivedPackets
    bufferSize: int,              // udpReceiveBufferSize
    got: map<nat, Datagram>,
    tcpOut: seq<byte>
  )

  const EMPTY := Receiver(0, 0, 0, INT_MAX, map[], 0, map[], [])

  predicate Finished(r: Receiver) { r.final == r.master }

  // ---------- the steps of the handlers ----------

  /** One round of the loop in `tcpWrite` that passes a packet over unwritten. */
  function Skip(r: Receiver): Receiver
    requires r.tcpNext in r.packets
  {
    var p := r.packets[r.tcpNext].(sent := true);
    r.(packets := if p.IsComplete() then r.packets - {r.tcpNext} else r.packets[r.tcpNext := p],
       bufferSize := if p.IsComplete() then r.bufferSize - p.Size() else r.bufferSize,
       tcpNext := r.tcpNext + 1)
  }

  /** `tcpWrite(true)`: everything contiguous is passed over. */
  function Discard(r: Receiver): Receiver
    decreases r.master - r.tcpNext
  {
    if r.tcpNext < r.master && r.tcpNext in r.packets then Discard(Skip(r)) else r
  }

  /** The socket took the first n bytes of the packet in turn. */
  function Write(r: Receiver, n: nat): Receiver
    requires r.tcpNext in r.packets && n <= r.packets[r.tcpNext].Size()
  {
    var p := r.packets[r.tcpNext];
    var rest := p.(dg := p.dg.(payload := p.dg.payload[n..]));
    var w := r.(tcpOut := r.tcpOut + p.dg.payload[..n], bufferSize := r.bufferSize - n);
    if rest.Size() > 0 then w.(packets := r.packets[r.tcpNext := rest])
    else if rest.(sent := true).IsComplete() then w.(packets := r.packets - {r.tcpNext}, tcpNext := r.tcpNext + 1)
    else w.(packets := r.packets[r.tcpNext := rest.(sent := true)], tcpNext := r.tcpNext + 1)
  }

  /** How one run of `tcpWrite(false)` ends: with nothing more to do, with its event
      armed again, or because a closing packet was reached. */
  datatype Delivery = Idle(r: Receiver) | Rearmed(r: Receiver) | Closing(r: Receiver)

  /** `tcpWrite(false)`; the socket accepts as many as `accepted` bytes, none if not positive. */
  function Deliver(r: Receiver, accepted: int): Delivery
    decreases r.master - r.tcpNext
  {
    if r.tcpNext >= r.master || r.tcpNext !in r.packets then Idle(r)
    else
      var p := r.packets[r.tcpNext];
      if !p.dg.kind.Data? || p.Size() <= 0 then
        if p.dg.IsBye() then Closing(Skip(r)) else Deliver(Skip(r), accepted)
      else
        var n := Min(accepted, p.Size());
        var w := if n > 0 then Write(r, n) else r;
        if w.tcpNext < w.master then Rearmed(w) else Idle(w)
  }

  /** The test that guards the acceptance of a numbered packet. */
  predicate Acceptable(r: Receiver, d: Datagram, window: int) {
    && r.master <= d.index < r.final
    && d.index - r.tcpNext <= window
    && ((d.kind.Hello? && d.index == 0) || d.IsBye() || d.kind.Data?)
  }

  ghost function KeysFrom(m: map<nat, Packet>, lo: nat): set<nat> {
    set k | k in m && k >= lo
  }

  /** The loop that advances the master index over stored packets. */
  function Advance(r: Receiver): Receiver
    decreases |KeysFrom(r.packets, r.master)|
  {
    if r.master in r.packets && r.master < r.final then
      assert KeysFrom(r.packets, r.master) == KeysFrom(r.packets, r.master + 1) + {r.master};
      Advance(r.(master := r.master + 1,
                 final := if r.packets[r.master].dg.IsBye() then r.master + 1 else r.final))
    else r
  }

  function Insert(r: Receiver, d: Datagram): Receiver
    requires d.index >= 0
  {
    r.(packets := r.packets[d.index := Fresh(d, 0)],
       bufferSize := r.bufferSize + |d.payload|,
       got := r.got[d.index := d])
  }

  /** A packet that was not stored yet is stored. */
  function Store(r: Receiver, d: Datagram): Receiver
    requires d.index >= 0
  {
    Advance(Insert(r, d))
  }

  /** True of the packets the last loop of `buildConfirmations` erases. */
  predicate Erased(r: Receiver, k: nat)
    requires k in r.packets
  {
    k < r.tcpNext && k < r.master && r.packets[k].sent
  }

  function Pruned(r: Receiver): map<nat, Packet> {
    map k | k in r.packets && !Erased(r, k) ::
      if k < r.tcpNext then r.packets[k].(confirmed := k < r.master) else r.packets[k]
  }

  ghost function Dropped(r: Receiver): map<nat, Packet> {
    map k | k in r.packets && Erased(r, k) :: r.packets[k]
  }

  /** `buildConfirmations` records the confirmed master index and erases what was
      both delivered and confirmed. */
  ghost function Prune(r: Receiver): Receiver {
    r.(confirmedMaster := r.master,
       packets := Pruned(r),
       bufferSize := r.bufferSize - Total(Dropped(r), Bytes))
  }

  // ---------- the stream a set of packets stands for ----------

  /** The stream bytes of packets 0, ..., n-1. */
  ghost function Contents(got: map<nat, Datagram>, n: nat): seq<byte> {
    if n == 0 then []
    else Contents(got, n - 1) + (if n - 1 in got then got[n - 1].Content() else [])
  }

  lemma {:induction false} ContentsPrefix(got: map<nat, Datagram>, m: nat, n: nat)
    requires m <= n
    ensures Contents(got, m) <= Contents(got, n)
  {
    if m < n {
      ContentsPrefix(got, m, n - 1);
    }
  }

  lemma {:induction false} ContentsAgree(a: map<nat, Datagram>, b: map<nat, Datagram>, n: nat)
    requires forall k :: 0 <= k < n ==> k in a && k in b && a[k] == b[k]
    ensures Contents(a, n) == Contents(b, n)
  {
    if n > 0 {
      ContentsAgree(a, b, n - 1);
    }
  }

  // ---------- invariant ----------

  ghost predicate Contiguous(got: map<nat, Datagram>, master: nat) {
    forall k: nat :: k < master ==> k in got
  }

  ghost predicate GotOk(got: map<nat, Datagram>, packetSize: int) {
    forall k: nat :: k in got ==> k < INT_MAX - 1 && got[k].index == k && got[k].WellFormed(packetSize)
  }

  /** Everything received and not yet passed over is stored, inside the window. */
  ghost predicate Kept(packets: map<nat, Packet>, got: map<nat, Datagram>, tcpNext: nat, window: int) {
    && (forall k: nat :: k in got && k >= tcpNext ==> k in packets)
    && (forall k: nat :: k in packets ==> k in got && k <= tcpNext + window)
  }

  ghost predicate Suffix(s: seq<byte>, t: seq<byte>) {
    |s| <= |t| && s == t[|t| - |s|..]
  }

  ghost predicate StoredOk(p: Packet, g: Datagram, k: nat, tcpNext: nat, master: nat) {
    && p.dg.kind == g.kind && p.dg.index == k
    && !p.confirmed
    && (p.sent <==> k < tcpNext)
    && Suffix(p.dg.payload, g.payload)
    && (k > tcpNext || (k == tcpNext && k >= master) ==> p.dg == g)
  }

  ghost predicate AllStoredOk(packets: map<nat, Packet>, got: map<nat, Datagram>, tcpNext: nat, master: nat) {
    forall k: nat :: k in packets && k in got ==> StoredOk(packets[k], got[k], k, tcpNext, master)
  }

  /** The final index is set exactly when a closing packet is below the master index,
      and then it is the master index, right behind that packet. */
  ghost predicate FinalOk(got: map<nat, Datagram>, master: nat, final: int) {
    && (forall k: nat :: k < master && k in got && got[k].IsBye() ==> final == k + 1)
    && (final < INT_MAX ==> final == master && master > 0 && master - 1 in got && got[master - 1].IsBye())
  }

  /** The part of the packet in turn that is still to be written. */
  ghost function Pending(packets: map<nat, Packet>, tcpNext: nat, master: nat): seq<byte> {
    if tcpNext < master && tcpNext in packets then packets[tcpNext].dg.Content() else []
  }

  /** While TCP is open, what was written is all that arrived contiguously up to the
      unwritten rest of the packet in turn, and what was passed over is empty. */
  ghost predicate StreamOpen(packets: map<nat, Packet>, got: map<nat, Datagram>, tcpOut: seq<byte>, tcpNext: nat, master: nat) {
    && tcpOut + Pending(packets, tcpNext, master) == Contents(got, Min(tcpNext + 1, master))
    && (forall k: nat :: k in packets && k < tcpNext ==> packets[k].dg.payload == [])
  }

  ghost predicate RecvOk(r: Receiver, window: int, packetSize: int, open: bool) {
    && 0 <= window && 1 <= packetSize
    && r.tcpNext <= r.master <= r.final <= INT_MAX
    && r.confirmedMaster <= r.master
    && (r.master < r.final ==> r.master !in r.packets)
    && Contiguous(r.got, r.master)
    && GotOk(r.got, packetSize)
    && Kept(r.packets, r.got, r.tcpNext, window)
    && AllStoredOk(r.packets, r.got, r.tcpNext, r.master)
    && FinalOk(r.got, r.master, r.final)
    && r.tcpOut <= Contents(r.got, r.master)
    && (open ==> StreamOpen(r.packets, r.got, r.tcpOut, r.tcpNext, r.master))
    && r.bufferSize == Total(r.packets, Bytes)
  }

  /** What no step of a receiver undoes. */
  ghost predicate RecvGrows(r: Receiver, s: Receiver) {
    && r.tcpNext <= s.tcpNext && r.master <= s.master
    && r.tcpOut <= s.tcpOut
    && (forall k: nat :: k in r.got ==> k in s.got && s.got[k] == r.got[k])
    && (Finished(r) ==> s.final == r.final && s.master == r.master && s.got == r.got)
  }

  lemma InitialRecvOk(window: int, packetSize: int)
    requires window >= 0 && packetSize >= 1
    ensures RecvOk(EMPTY, window, packetSize, true)
  {
  }

  // ---------- every step keeps the invariant ----------

  function MarkPassed(r: Receiver): map<nat, Packet>
    requires r.tcpNext in r.packets
  {
    r.packets[r.tcpNext := r.packets[r.tcpNext].(sent := true)]
  }

  lemma SkipStored(r: Receiver, window: int, packetSize: int, open: bool)
    requires RecvOk(r, window, packetSize, open) && r.tcpNext < r.master
    ensures r.tcpNext in r.packets && !r.packets[r.tcpNext].confirmed
    ensures AllStoredOk(MarkPassed(r), r.got, r.tcpNext + 1, r.master)
    ensures Kept(MarkPassed(r), r.got, r.tcpNext + 1, window)
    ensures Total(MarkPassed(r), Bytes) == r.bufferSize
  {
    hide Total, Suffix, Contents, GotOk, FinalOk, StreamOpen;
    var k := r.tcpNext;
    assert k in r.got && k in r.packets;
    assert StoredOk(r.packets[k], r.got[k], k, r.tcpNext, r.master);
    TotalUpdate(r.packets, k, r.packets[k].(sent := true), Bytes);
    var after := MarkPassed(r);
    forall j: nat | j in after && j in r.got
      ensures StoredOk(after[j], r.got[j], j, k + 1, r.master)
    {
      assert StoredOk(r.packets[j], r.got[j], j, k, r.master);
    }
  }

  /** The packet after the one in turn, if contiguous, is stored as it arrived. */
  ghost predicate NextIsWhole(packets: map<nat, Packet>, got: map<nat, Datagram>, tcpNext: nat, master: nat) {
    var k := tcpNext + 1;
    k < master ==> k in got && k in packets && packets[k].dg == got[k]
  }

  lemma NextWhole(r: Receiver, window: int, packetSize: int, open: bool)
    requires RecvOk(r, window, packetSize, open)
    ensures NextIsWhole(r.packets, r.got, r.tcpNext, r.master)
  {
    hide Total, Suffix, GotOk, FinalOk, Contents, StreamOpen;
    var k := r.tcpNext + 1;
    if k < r.master {
      assert k in r.got && k in r.packets;
      assert StoredOk(r.packets[k], r.got[k], k, r.tcpNext, r.master);
    }
  }

  /** When the packet in turn is done with, the next one is untouched. */
  lemma NextInTurn(packets: map<nat, Packet>, got: map<nat, Datagram>, tcpNext: nat, master: nat, after: map<nat, Packet>, written: seq<byte>)
    requires NextIsWhole(packets, got, tcpNext, master) && tcpNext < master
    requires forall j: nat :: j in packets && j < tcpNext ==> packets[j].dg.payload == []
    requires tcpNext in packets && after.Keys == packets.Keys
    requires forall j: nat :: j in after && j != tcpNext ==> after[j] == packets[j]
    requires after[tcpNext].dg.payload == [] && written == Contents(got, tcpNext + 1)
    ensures StreamOpen(after, got, written, tcpNext + 1, master)
  {
    var k := tcpNext + 1;
    if k < master {
      assert Contents(got, k + 1) == Contents(got, k) + got[k].Content();
    }
  }

  lemma SkippedIsEmpty(r: Receiver, window: int, packetSize: int)
    requires RecvOk(r, window, packetSize, true) && r.tcpNext < r.master && r.tcpNext in r.packets
    requires !r.packets[r.tcpNext].dg.kind.Data? || r.packets[r.tcpNext].Size() <= 0
    ensures r.packets[r.tcpNext].dg.payload == []
    ensures r.tcpOut == Contents(r.got, r.tcpNext + 1)
  {
    var k := r.tcpNext;
    assert k in r.got && StoredOk(r.packets[k], r.got[k], k, k, r.master);
    assert r.got[k].WellFormed(packetSize);
  }

  lemma SkipKeeps(r: Receiver, window: int, packetSize: int, open: bool)
    requires RecvOk(r, window, packetSize, open)
    requires r.tcpNext < r.master
    requires open ==> r.tcpNext in r.packets && (!r.packets[r.tcpNext].dg.kind.Data? || r.packets[r.tcpNext].Size() <= 0)
    ensures r.tcpNext in r.packets
    ensures RecvOk(Skip(r), window, packetSize, open) && RecvGrows(r, Skip(r))
    ensures Skip(r) == r.(packets := MarkPassed(r), tcpNext := r.tcpNext + 1)
  {
    hide Total, FinalOk, Contents, Kept, AllStoredOk;
    SkipStored(r, window, packetSize, open);
    if open {
      SkippedIsEmpty(r, window, packetSize);
      NextWhole(r, window, packetSize, open);
      NextInTurn(r.packets, r.got, r.tcpNext, r.master, MarkPassed(r), r.tcpOut);
    }
  }

  lemma {:induction false} DiscardKeeps(r: Receiver, window: int, packetSize: int)
    requires RecvOk(r, window, packetSize, false)
    ensures RecvOk(Discard(r), window, packetSize, false) && RecvGrows(r, Discard(r))
    ensures Discard(r) == r.(packets := Discard(r).packets, tcpNext := r.master)
    decreases r.master - r.tcpNext
  {
    if r.tcpNext < r.master {
      SkipKeeps(r, window, packetSize, false);
      DiscardKeeps(Skip(r), window, packetSize);
    }
  }

  // ---------- writing to TCP ----------

  /** The packet in turn after n of its bytes were written. */
  function Rest(p: Packet, n: nat): Packet
    requires n <= p.Size()
  {
    p.(dg := p.dg.(payload := p.dg.payload[n..]))
  }

  lemma WriteStored(r: Receiver, n: nat, window: int, packetSize: int)
    requires RecvOk(r, window, packetSize, true) && r.tcpNext < r.master && r.tcpNext in r.packets
    requires n <= r.packets[r.tcpNext].Size()
    ensures var k := r.tcpNext;
      var rest := Rest(r.packets[k], n);
      && !rest.confirmed
      && Total(r.packets[k := rest], Bytes) == r.bufferSize - n
      && Total(r.packets[k := rest.(sent := true)], Bytes) == r.bufferSize - n
      && AllStoredOk(r.packets[k := rest], r.got, k, r.master)
      && AllStoredOk(r.packets[k := rest.(sent := true)], r.got, k + 1, r.master)
      && Kept(r.packets[k := rest], r.got, k, window)
      && Kept(r.packets[k := rest.(sent := true)], r.got, k + 1, window)
  {
    hide Total, Contents, GotOk, FinalOk, StreamOpen;
    var k := r.tcpNext;
    assert k in r.got;
    assert StoredOk(r.packets[k], r.got[k], k, k, r.master);
    var rest := Rest(r.packets[k], n);
    var p := r.packets[k].dg.payload;
    var g := r.got[k].payload;
    assert p[n..] == g[|g| - |p[n..]|..];
    TotalUpdate(r.packets, k, rest, Bytes);
    TotalUpdate(r.packets, k, rest.(sent := true), Bytes);
    OthersStored(r, k, rest, window, packetSize);
  }

  lemma OthersStored(r: Receiver, k: nat, rest: Packet, window: int, packetSize: int)
    requires RecvOk(r, window, packetSize, true) && k == r.tcpNext && k in r.packets && k in r.got && k < r.master
    requires StoredOk(rest, r.got[k], k, k, r.master)
    ensures AllStoredOk(r.packets[k := rest], r.got, k, r.master)
    ensures AllStoredOk(r.packets[k := rest.(sent := true)], r.got, k + 1, r.master)
  {
    hide Total, Contents, GotOk, FinalOk, StreamOpen, Suffix;
    var after := r.packets[k := rest.(sent := true)];
    forall j: nat | j in after && j in r.got
      ensures StoredOk(after[j], r.got[j], j, k + 1, r.master)
    {
      assert j != k ==> StoredOk(r.packets[j], r.got[j], j, k, r.master);
    }
  }

  lemma WriteStream(packets: map<nat, Packet>, got: map<nat, Datagram>, tcpOut: seq<byte>, tcpNext: nat, master: nat, n: nat)
    requires StreamOpen(packets, got, tcpOut, tcpNext, master) && NextIsWhole(packets, got, tcpNext, master)
    requires tcpNext < master && tcpNext in packets && packets[tcpNext].dg.kind.Data? && n <= packets[tcpNext].Size()
    ensures var rest := Rest(packets[tcpNext], n);
      var out := tcpOut + packets[tcpNext].dg.payload[..n];
      && out <= Contents(got, master)
      && StreamOpen(packets[tcpNext := rest], got, out, tcpNext, master)
      && (rest.Size() == 0 ==> StreamOpen(packets[tcpNext := rest.(sent := true)], got, out, tcpNext + 1, master))
  {
    hide Contents;
    var p := packets[tcpNext].dg.payload;
    var rest := Rest(packets[tcpNext], n);
    var out := tcpOut + p[..n];
    ContentsPrefix(got, tcpNext + 1, master);
    assert tcpOut + p == Contents(got, tcpNext + 1);
    assert out + p[n..] == Contents(got, tcpNext + 1) by {
      assert p == p[..n] + p[n..];
    }
    assert Pending(packets[tcpNext := rest], tcpNext, master) == p[n..];
    if rest.Size() == 0 {
      assert out == Contents(got, tcpNext + 1);
      NextInTurn(packets, got, tcpNext, master, packets[tcpNext := rest.(sent := true)], out);
    }
  }

  lemma WriteKeeps(r: Receiver, n: nat, window: int, packetSize: int)
    requires RecvOk(r, window, packetSize, true) && r.tcpNext < r.master && r.tcpNext in r.packets
    requires r.packets[r.tcpNext].dg.kind.Data? && 1 <= n <= r.packets[r.tcpNext].Size()
    ensures RecvOk(Write(r, n), window, packetSize, true) && RecvGrows(r, Write(r, n))
    ensures Write(r, n).master == r.master && Write(r, n).final == r.final && Write(r, n).got == r.got
    ensures Write(r, n).confirmedMaster == r.confirmedMaster
  {
    hide Total, Contents, GotOk, FinalOk, StreamOpen, AllStoredOk, Kept;
    WriteStored(r, n, window, packetSize);
    NextWhole(r, window, packetSize, true);
    WriteStream(r.packets, r.got, r.tcpOut, r.tcpNext, r.master, n);
    assert r.packets[r.tcpNext := Rest(r.packets[r.tcpNext], n)].Keys == r.packets.Keys;
    assert r.packets[r.tcpNext := Rest(r.packets[r.tcpNext], n).(sent := true)].Keys == r.packets.Keys;
  }

  /** While TCP is open the packet in turn is always stored, so the loop of
      `tcpWrite` never stops early. */
  lemma InTurnIsStored(r: Receiver, window: int, packetSize: int, open: bool)
    requires RecvOk(r, window, packetSize, open) && r.tcpNext < r.master
    ensures r.tcpNext in r.packets && r.tcpNext in r.got
    ensures r.packets[r.tcpNext].dg.kind == r.got[r.tcpNext].kind
  {
    hide Total, Contents, GotOk, FinalOk, StreamOpen, Suffix;
    assert r.tcpNext in r.got;
    assert StoredOk(r.packets[r.tcpNext], r.got[r.tcpNext], r.tcpNext, r.tcpNext, r.master);
  }

  /** A run of `tcpWrite(false)`: it stops at a closing packet, with its event armed
      if something contiguous is left, or with nothing left. */
  lemma {:induction false} DeliverKeeps(r: Receiver, accepted: int, window: int, packetSize: int)
    requires RecvOk(r, window, packetSize, true)
    ensures var d := Deliver(r, accepted);
      && RecvOk(d.r, window, packetSize, true) && RecvGrows(r, d.r)
      && d.r.master == r.master && d.r.final == r.final && d.r.got == r.got
      && d.r.confirmedMaster == r.confirmedMaster
      && (d.Idle? ==> d.r.tcpNext == d.r.master)
      && (d.Rearmed? ==> d.r.tcpNext < d.r.master)
      && (d.Closing? ==> d.r.tcpNext == d.r.master == d.r.final)
    decreases r.master - r.tcpNext
  {
    hide Total, Contents, GotOk, StreamOpen, AllStoredOk, Kept;
    if r.tcpNext < r.master {
      InTurnIsStored(r, window, packetSize, true);
      var p := r.packets[r.tcpNext];
      if !p.dg.kind.Data? || p.Size() <= 0 {
        SkipKeeps(r, window, packetSize, true);
        if !p.dg.IsBye() {
          DeliverKeeps(Skip(r), accepted, window, packetSize);
        }
      } else if Min(accepted, p.Size()) > 0 {
        WriteKeeps(r, Min(accepted, p.Size()), window, packetSize);
      }
    }
  }

  // ---------- storing what arrives ----------

  lemma InsertKeeps(r: Receiver, d: Datagram, window: int, packetSize: int, open: bool)
    requires RecvOk(r, window, packetSize, open)
    requires Acceptable(r, d, window) && d.index !in r.packets
    requires d.WellFormed(packetSize) && d.index < INT_MAX - 1
    ensures d.index !in r.got
    ensures var s := Insert(r, d);
      && Contiguous(s.got, s.master) && GotOk(s.got, packetSize)
      && Kept(s.packets, s.got, s.tcpNext, window)
      && AllStoredOk(s.packets, s.got, s.tcpNext, s.master)
      && s.bufferSize == Total(s.packets, Bytes)
  {
    hide Total, Contents, FinalOk, StreamOpen, Suffix;
    var k := d.index;
    assert k in r.got ==> k in r.packets;
    TotalInsert(r.packets, k, Fresh(d, 0), Bytes);
    var s := Insert(r, d);
    assert Suffix(d.payload, d.payload) by {
      SuffixSelf(d.payload);
    }
    forall j: nat | j in s.packets && j in s.got
      ensures StoredOk(s.packets[j], s.got[j], j, s.tcpNext, s.master)
    {
      if j != k {
        assert j in r.packets && j in r.got;
        assert StoredOk(r.packets[j], r.got[j], j, r.tcpNext, r.master);
      }
    }
  }

  lemma SuffixSelf(s: seq<byte>)
    ensures Suffix(s, s)
  {
  }

  lemma InsertStream(r: Receiver, d: Datagram, window: int, packetSize: int, open: bool)
    requires RecvOk(r, window, packetSize, open)
    requires Acceptable(r, d, window) && d.index !in r.got
    ensures var s := Insert(r, d);
      && s.tcpOut <= Contents(s.got, s.master)
      && (open ==> StreamOpen(s.packets, s.got, s.tcpOut, s.tcpNext, s.master))
      && FinalOk(s.got, s.master, s.final)
  {
    hide Total, GotOk, Suffix, AllStoredOk, Contents;
    var s := Insert(r, d);
    ContentsAgree(r.got, s.got, r.master);
    ContentsAgree(r.got, s.got, Min(r.tcpNext + 1, r.master));
  }

  /** What holds between two rounds of the loop that advances the master index:
      everything but "the packet at the master index is missing". */
  ghost predicate AdvanceOk(r: Receiver, window: int, packetSize: int, open: bool) {
    && 0 <= window && 1 <= packetSize
    && r.tcpNext <= r.master <= r.final <= INT_MAX
    && r.confirmedMaster <= r.master
    && Contiguous(r.got, r.master)
    && GotOk(r.got, packetSize)
    && Kept(r.packets, r.got, r.tcpNext, window)
    && AllStoredOk(r.packets, r.got, r.tcpNext, r.master)
    && FinalOk(r.got, r.master, r.final)
    && r.tcpOut <= Contents(r.got, r.master)
    && (open ==> StreamOpen(r.packets, r.got, r.tcpOut, r.tcpNext, r.master))
    && r.bufferSize == Total(r.packets, Bytes)
  }

  function Advanced(r: Receiver): Receiver
    requires r.master in r.packets
  {
    r.(master := r.master + 1,
       final := if r.packets[r.master].dg.IsBye() then r.master + 1 else r.final)
  }

  lemma AdvanceStored(r: Receiver, window: int, packetSize: int, open: bool)
    requires AdvanceOk(r, window, packetSize, open) && r.master in r.packets && r.master < r.final
    ensures r.master in r.got && r.packets[r.master].dg == r.got[r.master]
    ensures AllStoredOk(r.packets, r.got, r.tcpNext, r.master + 1)
    ensures r.final == INT_MAX && r.master < INT_MAX - 1
  {
    hide Total, Contents, StreamOpen, Suffix;
    var m := r.master;
    assert m in r.got;
    assert StoredOk(r.packets[m], r.got[m], m, r.tcpNext, m);
    forall j: nat | j in r.packets && j in r.got
      ensures StoredOk(r.packets[j], r.got[j], j, r.tcpNext, m + 1)
    {
      assert StoredOk(r.packets[j], r.got[j], j, r.tcpNext, m);
    }
  }

  lemma AdvanceStream(r: Receiver, window: int, packetSize: int)
    requires AdvanceOk(r, window, packetSize, true) && r.master in r.packets && r.master in r.got
    requires r.packets[r.master].dg == r.got[r.master]
    ensures StreamOpen(r.packets, r.got, r.tcpOut, r.tcpNext, r.master + 1)
  {
    hide Total, Suffix, GotOk, FinalOk, AllStoredOk;
    if r.tcpNext == r.master {
      assert Contents(r.got, r.master + 1) == Contents(r.got, r.master) + r.got[r.master].Content();
    }
  }

  lemma AdvanceOnce(r: Receiver, window: int, packetSize: int, open: bool)
    requires AdvanceOk(r, window, packetSize, open) && r.master in r.packets && r.master < r.final
    ensures AdvanceOk(Advanced(r), window, packetSize, open)
  {
    hide Total, Contents, StreamOpen, AllStoredOk, Kept;
    AdvanceStored(r, window, packetSize, open);
    ContentsPrefix(r.got, r.master, r.master + 1);
    if open {
      AdvanceStream(r, window, packetSize);
    }
  }

  lemma {:induction false} AdvanceKeeps(r: Receiver, window: int, packetSize: int, open: bool)
    requires AdvanceOk(r, window, packetSize, open)
    ensures RecvOk(Advance(r), window, packetSize, open)
    ensures Advance(r) == r.(master := Advance(r).master, final := Advance(r).final)
    ensures Advance(r).master >= r.master
    decreases |KeysFrom(r.packets, r.master)|
  {
    hide Total, Contents, StreamOpen, AllStoredOk, Kept, FinalOk, GotOk;
    if r.master in r.packets && r.master < r.final {
      AdvanceOnce(r, window, packetSize, open);
      assert KeysFrom(r.packets, r.master) == KeysFrom(r.packets, r.master + 1) + {r.master};
      AdvanceKeeps(Advanced(r), window, packetSize, open);
    }
  }

  lemma StoreKeeps(r: Receiver, d: Datagram, window: int, packetSize: int, open: bool)
    requires RecvOk(r, window, packetSize, open)
    requires Acceptable(r, d, window) && d.index !in r.packets
    requires d.WellFormed(packetSize) && d.index < INT_MAX - 1
    ensures RecvOk(Store(r, d), window, packetSize, open) && RecvGrows(r, Store(r, d))
    ensures Store(r, d).got == r.got[d.index := d]
    ensures Store(r, d).tcpOut == r.tcpOut && Store(r, d).tcpNext == r.tcpNext
  {
    hide Total, Contents, StreamOpen, AllStoredOk, Kept, FinalOk, GotOk;
    InsertKeeps(r, d, window, packetSize, open);
    InsertStream(r, d, window, packetSize, open);
    AdvanceKeeps(Insert(r, d), window, packetSize, open);
  }

  // ---------- pruning after a round of confirmations ----------

  /** Nothing below the packet in turn survives, everything else does unchanged. */
  lemma PrunedIsTail(r: Receiver, window: int, packetSize: int, open: bool)
    requires RecvOk(r, window, packetSize, open)
    ensures Pruned(r) == map k | k in r.packets && k >= r.tcpNext :: r.packets[k]
    ensures Dropped(r) == map k | k in r.packets && k < r.tcpNext :: r.packets[k]
  {
    hide Total, Contents, StreamOpen, FinalOk, GotOk, Suffix;
    forall k: nat | k in r.packets
      ensures Erased(r, k) <==> k < r.tcpNext
    {
      assert StoredOk(r.packets[k], r.got[k], k, r.tcpNext, r.master);
    }
  }

  lemma PruneKeeps(r: Receiver, window: int, packetSize: int, open: bool)
    requires RecvOk(r, window, packetSize, open)
    ensures RecvOk(Prune(r), window, packetSize, open) && RecvGrows(r, Prune(r))
    ensures forall k: nat :: k in Prune(r).packets ==> k >= r.tcpNext
    ensures Prune(r) == r.(confirmedMaster := r.master, packets := Prune(r).packets, bufferSize := Prune(r).bufferSize)
  {
    hide Total, Contents, FinalOk, GotOk, Suffix;
    PrunedIsTail(r, window, packetSize, open);
    TotalSplit(r.packets, Dropped(r), Pruned(r), Bytes);
    var s := Prune(r);
    forall k: nat | k in s.packets && k in s.got
      ensures StoredOk(s.packets[k], s.got[k], k, s.tcpNext, s.master)
    {
      assert StoredOk(r.packets[k], r.got[k], k, r.tcpNext, r.master);
    }
  }

  // ---------- the memory bound ----------

  /** At most window + 1 stored packets are still to be delivered, and while TCP is
      open their bytes are all the bytes stored. */
  lemma MemoryBound(r: Receiver, window: int, packetSize: int, open: bool)
    requires RecvOk(r, window, packetSize, open)
    ensures |KeysFrom(r.packets, r.tcpNext)| <= window + 1
    ensures open ==> r.bufferSize <= (window + 1) * packetSize
  {
    hide Total, Contents, FinalOk, StreamOpen, StoredOk, AllStoredOk, GotOk;
    var s := KeysFrom(r.packets, r.tcpNext);
    var range := Range(r.tcpNext, window + 1);
    assert s <= range;
    SubsetSize(s, range);
    if open {
      forall k: nat | k in r.packets
        ensures WeightOf(Bytes, r.packets[k]) <= if k in s then packetSize else 0
      {
        StoredSize(r, k, window, packetSize);
      }
      TotalBound(r.packets, s, packetSize, Bytes);
      Scale(|s|, window + 1, packetSize);
    }
  }

  lemma Scale(x: nat, y: nat, size: nat)
    requires x <= y
    ensures x * size <= y * size
  {
  }

  lemma StoredSize(r: Receiver, k: nat, window: int, packetSize: int)
    requires RecvOk(r, window, packetSize, true) && k in r.packets
    ensures r.packets[k].Size() <= if k >= r.tcpNext then packetSize else 0
  {
    hide Total, Contents, FinalOk;
    assert k in r.got;
    assert StoredOk(r.packets[k], r.got[k], k, r.tcpNext, r.master);
    assert r.got[k].WellFormed(packetSize);
  }

  /** The bound in terms of the configured sizes. */
  lemma MemoryBoundConfigured(r: Receiver, maxReceive: nat, packetSize: nat)
    requires packetSize >= 1
    requires RecvOk(r, 2 * maxReceive / packetSize, packetSize, true)
    ensures r.bufferSize <= 2 * maxReceive + packetSize
  {
    hide RecvOk;
    var window := 2 * maxReceive / packetSize;
    MemoryBound(r, window, packetSize, true);
    assert window * packetSize <= 2 * maxReceive;
    assert (window + 1) * packetSize == window * packetSize + packetSize;
  }
}
