/** The sending half of a connection: numbering, keeping until confirmed, resending,
    and the queue of control packets. `log`, `tcpIn`, `outbox`, `attempts` and `late`
    are history: every numbered datagram, every byte read from TCP, every datagram ever
    handed to the socket, how often and since when each index was sent, and the bytes of
    each measure that were confirmed while they waited to be sent again. */
module Senders {
  import opened Base

  datatype Attempts = Attempts(count: nat, firstUs: int)

  datatype Sender = Sender(
    next: nat,                    // udpNextSendIndex
    packets: map<nat, Packet>,    // udpSentPackets
    control: seq<Packet>,         // udpConfirmationPackets
    bufferSize: int,              // udpSentBufferSize
    toSend: int,                  // udpPacketsToSendCount
    data: seq<byte>,              // tcpReceivedData
    log: seq<Datagram>,
    tcpIn: seq<byte>,
    outbox: set<Datagram>,
    attempts: map<nat, Attempts>,
    late: map<nat, nat>
  )

  const EMPTY := Sender(0, map[], [], 0, 0, [], [], [], {}, map[], map[])

  // ---------- the steps of the handlers ----------

  /** A new numbered packet is stored for sending. */
  function Enqueue(cfg: Config, s: Sender, kind: Kind, payload: seq<byte>): Sender {
    var d := Datagram(kind, s.next, payload);
    s.(packets := s.packets[s.next := Fresh(d, cfg.udpResendCount)],
       next := s.next + 1,
       toSend := s.toSend + 1,
       bufferSize := s.bufferSize + |payload|,
       log := s.log + [d])
  }

  /** The number of packets `buildUdpPackets` cuts: full ones, and when flushing one
      more for the rest. */
  function Cut(cfg: Config, data: seq<byte>, flush: bool): bool {
    |data| > 0 && (flush || |data| >= cfg.udpSendPacketSize)
  }

  /** The first unsent packet in index order. */
  function FirstUnsent(packets: map<nat, Packet>): (r: Option<nat>)
    ensures r.Some? ==> r.value in packets && !packets[r.value].sent
    ensures r.Some? ==> forall j: nat :: j in packets && j < r.value ==> packets[j].sent
    ensures r.None? ==> forall j: nat :: j in packets ==> packets[j].sent
  {
    var unsent := set k | k in packets && !packets[k].sent;
    assert forall j: nat :: j in packets && !packets[j].sent ==> j in unsent;
    if unsent == {} then None else Some(Least(unsent))
  }

  function Tried(a: map<nat, Attempts>, k: nat, now: int): map<nat, Attempts> {
    if k in a then a[k := a[k].(count := a[k].count + 1)] else a[k := Attempts(1, now)]
  }

  /** The socket took packet k. */
  function MarkSent(s: Sender, k: nat, measureIndex: int, now: int): Sender
    requires k in s.packets
  {
    var p := s.packets[k];
    s.(packets := s.packets[k := p.(sent := true, sentTimeUs := now, measureIndex := measureIndex)],
       toSend := s.toSend - 1,
       outbox := s.outbox + {p.dg},
       attempts := Tried(s.attempts, k, now))
  }

  /** A packet is dropped from the store. */
  function Erase(s: Sender, k: nat): Sender
    requires k in s.packets
  {
    s.(packets := s.packets - {k}, bufferSize := s.bufferSize - s.packets[k].Size())
  }

  function LateIn(late: map<nat, nat>, m: nat): nat {
    if m in late then late[m] else 0
  }

  /** A confirmed packet is late if it was already given up in its measure and waited to
      be sent again. */
  function Noted(late: map<nat, nat>, p: Packet): map<nat, nat> {
    if p.sent || p.measureIndex < 0 then late
    else late[p.measureIndex := LateIn(late, p.measureIndex) + p.Size()]
  }

  /** What a confirmation of index k does to the store. */
  function Acknowledge(s: Sender, k: nat): Sender
    requires k in s.packets
  {
    Erase(s, k).(toSend := if s.packets[k].sent then s.toSend else s.toSend - 1,
                 late := Noted(s.late, s.packets[k]))
  }

  /** Packet k waited long enough and is to be sent again. */
  function Expire(s: Sender, k: nat): Sender
    requires k in s.packets
  {
    var p := s.packets[k];
    s.(packets := s.packets[k := p.(sent := false, remainResendCount := p.remainResendCount - 1)],
       toSend := s.toSend + 1)
  }

  function PushControl(s: Sender, kind: Kind, index: int, payload: seq<byte>): Sender {
    s.(control := s.control + [Fresh(Datagram(kind, index, payload), 0)],
       bufferSize := s.bufferSize + |payload|)
  }

  /** The socket took the first control packet. */
  function PopControl(s: Sender): Sender
    requires s.control != []
  {
    s.(control := s.control[1..],
       bufferSize := s.bufferSize - s.control[0].Size(),
       outbox := s.outbox + {s.control[0].dg})
  }

  function WithoutConfirmations(q: seq<Packet>): seq<Packet> {
    if q == [] then []
    else (if q[0].dg.kind.Confirmation? then [] else [q[0]]) + WithoutConfirmations(q[1..])
  }

  /** Every waiting confirmation packet is dropped. */
  ghost function DropConfirmations(s: Sender): Sender {
    s.(control := WithoutConfirmations(s.control),
       bufferSize := s.bufferSize - (QueueBytes(s.control) - QueueBytes(WithoutConfirmations(s.control))))
  }

  /** `udpClose` forgets everything that was to be sent, but not the count. */
  function Clear(s: Sender): Sender {
    s.(packets := map[], control := [], data := [], bufferSize := 0)
  }

  // ---------- invariant ----------

  /** Numbered from zero, hello first, a closing packet only last. */
  ghost predicate LogOk(log: seq<Datagram>, packetSize: int) {
    && |log| >= 1 && log[0].kind.Hello?
    && (forall i :: 0 <= i < |log| ==> log[i].index == i && log[i].WellFormed(packetSize))
    && (forall i :: 0 <= i < |log| - 1 ==> !log[i].IsBye())
  }

  predicate EndsWithBye(log: seq<Datagram>) {
    |log| > 0 && log[|log| - 1].IsBye()
  }

  ghost predicate PacketsOk(packets: map<nat, Packet>, log: seq<Datagram>, resendCount: int) {
    forall k: nat :: k in packets ==>
      && k < |log| && packets[k].dg == log[k] && !packets[k].confirmed
      && 0 <= packets[k].remainResendCount <= resendCount
  }

  ghost predicate OutboxOk(outbox: set<Datagram>, log: seq<Datagram>, attempts: map<nat, Attempts>) {
    && (forall d :: d in outbox && d.IsNumbered() ==> 0 <= d.index < |log| && d == log[d.index] && d.index in attempts)
    && (forall d :: d in outbox ==> d.IsNumbered() || d.IsControl(|log|))
    && (forall k: nat :: k in attempts ==> k < |log|)
  }

  ghost predicate ControlOk(control: seq<Packet>, numbered: nat) {
    forall i :: 0 <= i < |control| ==> control[i].dg.IsControl(numbered)
  }

  function Count(attempts: map<nat, Attempts>, k: nat): nat {
    if k in attempts then attempts[k].count else 0
  }

  /** Times sent, resends left and a pending send add up to the budget, and each
      resend came at least udpResendUs after the send before it. */
  ghost predicate BudgetOk(cfg: Config, p: Packet, attempts: map<nat, Attempts>, k: nat, clock: int) {
    var n := Count(attempts, k);
    && n + p.remainResendCount + (if p.sent then 0 else 1) == cfg.udpResendCount + 1
    && (p.sent ==> k in attempts && p.sentTimeUs <= clock
                   && p.sentTimeUs >= attempts[k].firstUs + (n - 1) * cfg.udpResendUs)
    && (!p.sent && k in attempts ==> clock >= attempts[k].firstUs + n * cfg.udpResendUs)
  }

  ghost predicate AllBudgetsOk(cfg: Config, packets: map<nat, Packet>, attempts: map<nat, Attempts>, clock: int) {
    && (forall k: nat :: k in packets ==> BudgetOk(cfg, packets[k], attempts, k, clock))
    && (forall k: nat :: k in attempts ==> 1 <= attempts[k].count <= cfg.udpResendCount + 1)
  }

  ghost predicate SendOk(cfg: Config, s: Sender, open: bool, clock: int) {
    && s.next == |s.log|
    && LogOk(s.log, cfg.udpSendPacketSize)
    && PacketsOk(s.packets, s.log, cfg.udpResendCount)
    && OutboxOk(s.outbox, s.log, s.attempts)
    && ControlOk(s.control, |s.log|)
    && AllBudgetsOk(cfg, s.packets, s.attempts, clock)
    && s.bufferSize == Total(s.packets, Bytes) + QueueBytes(s.control)
    && (open ==> s.toSend == Total(s.packets, Unsent))
  }

  /** What no step of a sender undoes. */
  ghost predicate SendGrows(s: Sender, t: Sender) {
    && s.log <= t.log && s.tcpIn <= t.tcpIn && s.outbox <= t.outbox
    && (forall k: nat :: k in s.attempts ==> k in t.attempts)
    && (EndsWithBye(s.log) ==> t.log == s.log)
  }

  // ---------- every step keeps the invariant ----------

  lemma LogGrows(log: seq<Datagram>, d: Datagram, outbox: set<Datagram>, control: seq<Packet>, attempts: map<nat, Attempts>, packetSize: int)
    requires LogOk(log, packetSize) && !EndsWithBye(log) && OutboxOk(outbox, log, attempts) && ControlOk(control, |log|)
    requires d.index == |log| && d.WellFormed(packetSize)
    ensures LogOk(log + [d], packetSize) && OutboxOk(outbox, log + [d], attempts) && ControlOk(control, |log + [d]|)
  {
  }

  lemma EnqueueKeeps(cfg: Config, s: Sender, kind: Kind, payload: seq<byte>, clock: int)
    requires SendOk(cfg, s, true, clock) && !EndsWithBye(s.log)
    requires Datagram(kind, s.next, payload).WellFormed(cfg.udpSendPacketSize) && !kind.Hello?
    ensures SendOk(cfg, Enqueue(cfg, s, kind, payload), true, clock)
    ensures SendGrows(s, Enqueue(cfg, s, kind, payload))
  {
    hide Total, QueueBytes, LogOk, ControlOk;
    var d := Datagram(kind, s.next, payload);
    var p := Fresh(d, cfg.udpResendCount);
    assert s.next !in s.packets && s.next !in s.attempts;
    LogGrows(s.log, d, s.outbox, s.control, s.attempts, cfg.udpSendPacketSize);
    TotalInsert(s.packets, s.next, p, Bytes);
    TotalInsert(s.packets, s.next, p, Unsent);
  }

  lemma MarkSentKeeps(cfg: Config, s: Sender, k: nat, measureIndex: int, clock: int, now: int)
    requires SendOk(cfg, s, true, clock) && k in s.packets && !s.packets[k].sent && clock <= now
    ensures SendOk(cfg, MarkSent(s, k, measureIndex, now), true, now)
    ensures SendGrows(s, MarkSent(s, k, measureIndex, now))
  {
    hide Total, QueueBytes, LogOk, OutboxOk, AllBudgetsOk;
    var p := s.packets[k].(sent := true, sentTimeUs := now, measureIndex := measureIndex);
    TotalUpdate(s.packets, k, p, Bytes);
    TotalUpdate(s.packets, k, p, Unsent);
    MarkSentBudget(cfg, s, k, p, clock, now);
    MarkSentOutbox(cfg, s.outbox, s.log, s.attempts, k, now);
  }

  lemma MarkSentOutbox(cfg: Config, outbox: set<Datagram>, log: seq<Datagram>, attempts: map<nat, Attempts>, k: nat, now: int)
    requires LogOk(log, cfg.udpSendPacketSize) && OutboxOk(outbox, log, attempts) && k < |log|
    ensures OutboxOk(outbox + {log[k]}, log, Tried(attempts, k, now))
    ensures forall j: nat :: j in attempts ==> j in Tried(attempts, k, now)
  {
  }

  lemma MarkSentBudget(cfg: Config, s: Sender, k: nat, p: Packet, clock: int, now: int)
    requires AllBudgetsOk(cfg, s.packets, s.attempts, clock) && k in s.packets && !s.packets[k].sent && clock <= now
    requires p == s.packets[k].(sent := true, sentTimeUs := now, measureIndex := p.measureIndex)
    requires 0 <= p.remainResendCount
    ensures AllBudgetsOk(cfg, s.packets[k := p], Tried(s.attempts, k, now), now)
  {
    var after := s.packets[k := p];
    var a := Tried(s.attempts, k, now);
    assert BudgetOk(cfg, s.packets[k], s.attempts, k, clock);
    forall j: nat | j in after
      ensures BudgetOk(cfg, after[j], a, j, now)
    {
      if j != k {
        assert BudgetOk(cfg, s.packets[j], s.attempts, j, clock);
      }
    }
  }

  lemma AcknowledgeKeeps(cfg: Config, s: Sender, k: nat, clock: int)
    requires SendOk(cfg, s, true, clock) && k in s.packets
    ensures SendOk(cfg, Acknowledge(s, k), true, clock) && SendGrows(s, Acknowledge(s, k))
  {
    hide Total, QueueBytes, LogOk, OutboxOk;
    TotalRemove(s.packets, k, Bytes);
    TotalRemove(s.packets, k, Unsent);
  }

  lemma ExpireKeeps(cfg: Config, s: Sender, k: nat, clock: int)
    requires SendOk(cfg, s, true, clock) && k in s.packets && s.packets[k].sent
    requires s.packets[k].sentTimeUs + cfg.udpResendUs <= clock && s.packets[k].remainResendCount > 0
    ensures SendOk(cfg, Expire(s, k), true, clock) && SendGrows(s, Expire(s, k))
  {
    hide Total, QueueBytes, LogOk, OutboxOk;
    var p := s.packets[k].(sent := false, remainResendCount := s.packets[k].remainResendCount - 1);
    TotalUpdate(s.packets, k, p, Bytes);
    TotalUpdate(s.packets, k, p, Unsent);
    ExpireBudget(cfg, s, k, p, clock);
  }

  lemma ExpireBudget(cfg: Config, s: Sender, k: nat, p: Packet, clock: int)
    requires AllBudgetsOk(cfg, s.packets, s.attempts, clock) && k in s.packets && s.packets[k].sent
    requires s.packets[k].sentTimeUs + cfg.udpResendUs <= clock
    requires p == s.packets[k].(sent := false, remainResendCount := s.packets[k].remainResendCount - 1)
    ensures AllBudgetsOk(cfg, s.packets[k := p], s.attempts, clock)
  {
    var after := s.packets[k := p];
    assert BudgetOk(cfg, s.packets[k], s.attempts, k, clock);
    var n := Count(s.attempts, k);
    assert (n - 1) * cfg.udpResendUs + cfg.udpResendUs == n * cfg.udpResendUs;
    forall j: nat | j in after
      ensures BudgetOk(cfg, after[j], s.attempts, j, clock)
    {
      if j != k {
        assert BudgetOk(cfg, s.packets[j], s.attempts, j, clock);
      }
    }
  }

  lemma PushControlKeeps(cfg: Config, s: Sender, kind: Kind, index: int, payload: seq<byte>, open: bool, clock: int)
    requires SendOk(cfg, s, open, clock) && Datagram(kind, index, payload).IsControl(|s.log|)
    ensures SendOk(cfg, PushControl(s, kind, index, payload), open, clock)
    ensures SendGrows(s, PushControl(s, kind, index, payload))
  {
    hide Total, LogOk, OutboxOk, AllBudgetsOk, PacketsOk;
    var p := Fresh(Datagram(kind, index, payload), 0);
    QueueBytesAppend(s.control, [p]);
    assert QueueBytes([p]) == p.Size() + QueueBytes([p][1..]);
  }

  lemma PopControlKeeps(cfg: Config, s: Sender, open: bool, clock: int)
    requires SendOk(cfg, s, open, clock) && s.control != []
    ensures SendOk(cfg, PopControl(s), open, clock) && SendGrows(s, PopControl(s))
  {
    hide Total, LogOk, AllBudgetsOk, PacketsOk;
  }

  lemma {:induction false} WithoutConfirmationsOk(q: seq<Packet>)
    ensures forall i :: 0 <= i < |WithoutConfirmations(q)| ==>
      WithoutConfirmations(q)[i] in q && !WithoutConfirmations(q)[i].dg.kind.Confirmation?
  {
    if q != [] {
      WithoutConfirmationsOk(q[1..]);
    }
  }

  lemma DropConfirmationsKeeps(cfg: Config, s: Sender, open: bool, clock: int)
    requires SendOk(cfg, s, open, clock)
    ensures SendOk(cfg, DropConfirmations(s), open, clock) && SendGrows(s, DropConfirmations(s))
  {
    hide Total, LogOk, OutboxOk, AllBudgetsOk, PacketsOk, QueueBytes;
    WithoutConfirmationsOk(s.control);
  }

  lemma ClearKeeps(cfg: Config, s: Sender, open: bool, clock: int)
    requires SendOk(cfg, s, open, clock)
    ensures SendOk(cfg, Clear(s), false, clock) && SendGrows(s, Clear(s))
  {
    hide LogOk, OutboxOk;
  }

  /** Time passing alone keeps every budget. */
  lemma ClockKeeps(cfg: Config, s: Sender, open: bool, clock: int, now: int)
    requires SendOk(cfg, s, open, clock) && clock <= now
    ensures SendOk(cfg, s, open, now)
  {
    hide Total, QueueBytes, LogOk, OutboxOk, PacketsOk;
    forall k: nat | k in s.packets
      ensures BudgetOk(cfg, s.packets[k], s.attempts, k, now)
    {
      assert BudgetOk(cfg, s.packets[k], s.attempts, k, clock);
    }
  }

  /** When a packet's last resend went unanswered for udpResendUs, it was sent exactly
      udpResendCount + 1 times, over at least that many resend periods. */
  lemma BudgetSpent(cfg: Config, s: Sender, k: nat, clock: int)
    requires SendOk(cfg, s, true, clock) && k in s.packets && s.packets[k].sent
    requires s.packets[k].sentTimeUs + cfg.udpResendUs <= clock && s.packets[k].remainResendCount <= 0
    ensures k in s.attempts && s.attempts[k].count == cfg.udpResendCount + 1
    ensures clock >= s.attempts[k].firstUs + (cfg.udpResendCount + 1) * cfg.udpResendUs
  {
    hide Total, QueueBytes, LogOk, OutboxOk;
    assert BudgetOk(cfg, s.packets[k], s.attempts, k, clock);
    var n := s.attempts[k].count;
    assert (n - 1) * cfg.udpResendUs + cfg.udpResendUs == n * cfg.udpResendUs;
  }

  // ---------- the stream the log stands for ----------

  ghost function LogContents(log: seq<Datagram>, n: nat): seq<byte>
    requires n <= |log|
  {
    if n == 0 then [] else LogContents(log, n - 1) + log[n - 1].Content()
  }

  lemma {:induction false} LogContentsAppend(log: seq<Datagram>, d: Datagram, n: nat)
    requires n <= |log|
    ensures LogContents(log + [d], n) == LogContents(log, n)
  {
    if n > 0 {
      LogContentsAppend(log, d, n - 1);
    }
  }

  lemma {:induction false} LogContentsPrefix(log: seq<Datagram>, m: nat, n: nat)
    requires m <= n <= |log|
    ensures LogContents(log, m) <= LogContents(log, n)
  {
    if m < n {
      LogContentsPrefix(log, m, n - 1);
    }
  }
}
