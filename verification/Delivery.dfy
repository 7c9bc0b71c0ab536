/** What a run of `tcpWrite` writes: exactly the bytes the socket took of the first packet
    with bytes left, and nothing behind a closing packet. */
module Delivery {
  import opened Base
  import opened Receivers
  import opened Senders
  import opened Endpoints
  import opened Invariants
  import opened Preservation

  /** Packet k is contiguous, the first with unwritten bytes, and no closing packet is before it. */
  ghost predicate InTurn(r: Receiver, k: nat) {
    && r.tcpNext <= k < r.master && k in r.packets && r.packets[k].dg.payload != []
    && forall j: nat :: r.tcpNext <= j < k ==> j in r.packets && r.packets[j].dg.payload == [] && !r.packets[j].dg.IsBye()
  }

  /** Packet k is a closing one, and everything before it is written. */
  ghost predicate ByeInTurn(r: Receiver, k: nat) {
    && r.tcpNext <= k < r.master && k in r.packets && r.packets[k].dg.IsBye()
    && forall j: nat :: r.tcpNext <= j < k ==> j in r.packets && r.packets[j].dg.payload == []
  }

  lemma StoredHere(r: Receiver, window: int, packetSize: int)
    requires RecvOk(r, window, packetSize, true) && r.tcpNext < r.master
    ensures r.tcpNext in r.packets
    ensures var p := r.packets[r.tcpNext];
      !p.confirmed && (p.dg.payload != [] ==> p.dg.kind.Data?)
  {
    hide Total, Contents, StreamOpen, FinalOk;
    var k := r.tcpNext;
    assert k in r.got && k in r.packets;
    assert StoredOk(r.packets[k], r.got[k], k, k, r.master);
    assert r.got[k].WellFormed(packetSize);
  }

  lemma SkipHere(r: Receiver, window: int, packetSize: int)
    requires RecvOk(r, window, packetSize, true) && r.tcpNext < r.master
    requires r.tcpNext in r.packets && r.packets[r.tcpNext].dg.payload == []
    ensures RecvOk(Skip(r), window, packetSize, true)
    ensures Skip(r) == r.(packets := MarkPassed(r), tcpNext := r.tcpNext + 1)
  {
    hide RecvOk, Skip, MarkPassed;
    SkipKeeps(r, window, packetSize, true);
  }

  /** The socket takes n bytes of the packet in turn: they are written and what is left of
      it stays stored; no other packet changes. */
  ghost predicate Took(r: Receiver, f: Receiver, k: nat, n: nat)
    requires k in r.packets && n <= |r.packets[k].dg.payload|
  {
    var p := r.packets[k].dg.payload;
    && f.tcpOut == r.tcpOut + p[..n]
    && f.tcpNext == (if n == |p| then k + 1 else k)
    && f.packets.Keys == r.packets.Keys && f.packets[k].dg.payload == p[n..]
    && (forall j: nat :: j in r.packets && j != k ==> f.packets[j].dg == r.packets[j].dg)
  }

  lemma TakesHere(r: Receiver, accepted: int)
    requires r.tcpNext < r.master && r.tcpNext in r.packets && !r.packets[r.tcpNext].confirmed
    requires r.packets[r.tcpNext].dg.payload != [] && r.packets[r.tcpNext].dg.kind.Data?
    ensures var d := Deliver(r, accepted);
      Took(r, d.r, r.tcpNext, Min(Max(accepted, 0), |r.packets[r.tcpNext].dg.payload|)) && !d.Closing?
  {
    var p := r.packets[r.tcpNext].dg.payload;
    assert r.tcpOut + p[..0] == r.tcpOut && p[0..] == p;
  }

  lemma AfterSkip(r: Receiver, k: nat)
    requires r.tcpNext < r.master && r.tcpNext in r.packets && !r.packets[r.tcpNext].confirmed
    requires r.packets[r.tcpNext].dg.payload == [] && !r.packets[r.tcpNext].dg.IsBye()
    ensures InTurn(Skip(r), k) <==> InTurn(r, k)
    ensures ByeInTurn(Skip(r), k) <==> ByeInTurn(r, k)
  {
    var t, s := r.tcpNext, Skip(r);
    assert forall j: nat :: j in s.packets <==> j in r.packets;
    assert forall j: nat :: j in s.packets ==> s.packets[j].dg == r.packets[j].dg;
    if InTurn(s, k) || ByeInTurn(s, k) {
      forall j: nat | t <= j < k
        ensures j in r.packets && r.packets[j].dg.payload == [] && (InTurn(s, k) ==> !r.packets[j].dg.IsBye())
      {
        assert j == t || s.tcpNext <= j;
      }
    }
  }

  lemma TookAfterSkip(r: Receiver, f: Receiver, k: nat, n: nat)
    requires r.tcpNext in r.packets && !r.packets[r.tcpNext].confirmed && k in r.packets && k != r.tcpNext
    requires n <= |r.packets[k].dg.payload| && Took(Skip(r), f, k, n)
    ensures Took(r, f, k, n)
  {
    assert Skip(r).packets[r.tcpNext].dg == r.packets[r.tcpNext].dg;
  }

  lemma SkipStep(r: Receiver, accepted: int)
    requires r.tcpNext < r.master && r.tcpNext in r.packets
    requires r.packets[r.tcpNext].dg.payload == []
    ensures Deliver(r, accepted) == if r.packets[r.tcpNext].dg.IsBye() then Closing(Skip(r)) else Deliver(Skip(r), accepted)
    ensures Skip(r).tcpOut == r.tcpOut && Skip(r).tcpNext == r.tcpNext + 1 && Skip(r).master == r.master
    ensures !r.packets[r.tcpNext].confirmed ==>
      forall k: nat :: k in r.packets && k != r.tcpNext ==> k in Skip(r).packets && Skip(r).packets[k] == r.packets[k]
  {
  }

  lemma {:induction false} DeliverTakes(r: Receiver, accepted: int, k: nat, window: int, packetSize: int)
    requires RecvOk(r, window, packetSize, true) && InTurn(r, k)
    ensures Took(r, Deliver(r, accepted).r, k, Min(Max(accepted, 0), |r.packets[k].dg.payload|))
    ensures !Deliver(r, accepted).Closing?
    decreases r.master - r.tcpNext
  {
    hide RecvOk, Deliver, Skip, Took;
    StoredHere(r, window, packetSize);
    if r.tcpNext < k {
      SkipHere(r, window, packetSize);
      SkipStep(r, accepted);
      AfterSkip(r, k);
      DeliverTakes(Skip(r), accepted, k, window, packetSize);
      TookAfterSkip(r, Deliver(r, accepted).r, k, Min(Max(accepted, 0), |r.packets[k].dg.payload|));
    } else {
      TakesHere(r, accepted);
    }
  }

  lemma {:induction false} DeliverNothing(r: Receiver, accepted: int, window: int, packetSize: int)
    requires RecvOk(r, window, packetSize, true) && forall k: nat :: !InTurn(r, k)
    ensures Deliver(r, accepted).r.tcpOut == r.tcpOut
    ensures Deliver(r, accepted).Closing? <==> exists k: nat :: ByeInTurn(r, k)
    decreases r.master - r.tcpNext
  {
    hide RecvOk, Skip;
    if r.tcpNext < r.master {
      StoredHere(r, window, packetSize);
      var p := r.packets[r.tcpNext];
      assert p.dg.payload == [] by {
        assert !InTurn(r, r.tcpNext);
      }
      SkipHere(r, window, packetSize);
      SkipStep(r, accepted);
      if p.dg.IsBye() {
        assert ByeInTurn(r, r.tcpNext);
      } else {
        forall k: nat
          ensures (InTurn(Skip(r), k) <==> InTurn(r, k)) && (ByeInTurn(Skip(r), k) <==> ByeInTurn(r, k))
        {
          AfterSkip(r, k);
        }
        DeliverNothing(Skip(r), accepted, window, packetSize);
      }
    }
  }
}
