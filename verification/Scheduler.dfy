/** The rakaia scheduler (rakaia/plain-tcp/rakaiasock.c) with push and pull each taken as one step:
    queues, non-empty bitmap, waiter list with its bitmap, power-of-two choices and stealing.
    Random draws and the receive-memory check are arguments. */
module Scheduler {
  import opened Options
  import opened WaiterList

  type Msg = nat

  const BITS_PER_LONG := 64

  // ---- picking a set bit ----

  function Weight(mask: seq<bool>): nat {
    if mask == [] then 0 else Weight(mask[..|mask| - 1]) + if mask[|mask| - 1] then 1 else 0
  }

  /** b is the k-th set bit, counting from 0. */
  ghost predicate IsKth(mask: seq<bool>, b: int, k: nat) {
    0 <= b < |mask| && mask[b] && Weight(mask[..b]) == k
  }

  lemma {:induction false} WeightMonotone(mask: seq<bool>, i: nat, j: nat)
    requires i <= j <= |mask|
    ensures Weight(mask[..i]) <= Weight(mask[..j])
    decreases j
  {
    if i < j {
      assert mask[..j][..j - 1] == mask[..j - 1];
      WeightMonotone(mask, i, j - 1);
    }
  }

  lemma WeightStep(mask: seq<bool>, i: nat)
    requires i < |mask|
    ensures Weight(mask[..i + 1]) == Weight(mask[..i]) + if mask[i] then 1 else 0
  {
    assert mask[..i + 1][..i] == mask[..i];
  }

  /** `pick_random_set_bit`: the (r mod number of set bits)-th set bit. The final return is reached
      with an empty mask only. */
  method PickRandomSetBit(mask: seq<bool>, r: nat) returns (bit: int)
    ensures Weight(mask) == 0 ==> bit == -1
    ensures Weight(mask) > 0 ==> IsKth(mask, bit, r % Weight(mask))
  {
    var total := 0;
    for i := 0 to |mask|
      invariant total == Weight(mask[..i])
    {
      WeightStep(mask, i);
      if mask[i] { total := total + 1; }
    }
    assert mask[..|mask|] == mask;
    if total == 0 { return -1; }
    var k := r % total;
    bit := 0;
    while bit < |mask|
      invariant 0 <= bit <= |mask| && 0 <= k && k + Weight(mask[..bit]) == r % total
    {
      WeightStep(mask, bit);
      if mask[bit] {
        if k == 0 { return; }
        k := k - 1;
      }
      bit := bit + 1;
    }
    assert false;
  }

  /** Every set bit is picked by some draw, and by no draw of another rank. */
  lemma EveryBitCanBePicked(mask: seq<bool>, b: nat)
    requires b < |mask| && mask[b]
    ensures IsKth(mask, b, Weight(mask[..b])) && Weight(mask[..b]) < Weight(mask)
    ensures forall b' :: IsKth(mask, b', Weight(mask[..b])) ==> b' == b
  {
    WeightStep(mask, b);
    WeightMonotone(mask, b + 1, |mask|);
    assert mask[..|mask|] == mask;
    forall b' | IsKth(mask, b', Weight(mask[..b])) ensures b' == b {
      WeightStep(mask, b');
      if b < b' { WeightMonotone(mask, b + 1, b'); }
      if b' < b { WeightMonotone(mask, b' + 1, b); }
    }
  }

  lemma {:induction false} WeightZero(mask: seq<bool>)
    ensures Weight(mask) == 0 <==> forall i :: 0 <= i < |mask| ==> !mask[i]
  {
    if mask != [] { WeightZero(mask[..|mask| - 1]); }
  }

  // ---- the scheduler ----

  class Sched {
    const n: nat                  // number of rakaia sockets
    var rxq: seq<seq<Msg>>
    var rcv: seq<seq<Msg>>        // receive queues of the sockets
    var nonempty: seq<bool>       // rx_nonempty_bm
    var waiters: seq<nat>
    var waiting: seq<bool>        // waiters_bm
    var refused: seq<Msg>

    /** The bitmap says which queues hold messages. */
    ghost predicate QueuesOk()
      reads this
    {
      && 0 < n <= BITS_PER_LONG && |rxq| == n && |rcv| == n && |nonempty| == n
      && forall c :: 0 <= c < n ==> nonempty[c] == (rxq[c] != [])
    }

    /** The waiter list holds each idle socket once, as its bitmap says. */
    ghost predicate WaitersOk()
      reads this
    {
      && |waiting| == n && NoDup(waiters)
      && (forall i :: 0 <= i < |waiters| ==> waiters[i] < n)
      && (forall k :: 0 <= k < n ==> (waiting[k] <==> k in waiters))
    }

    /** No socket idles while a message is queued. */
    ghost predicate WorkConserving()
      requires QueuesOk()
      reads this
    {
      waiters == [] || forall c :: 0 <= c < n ==> rxq[c] == []
    }

    ghost predicate Valid()
      reads this
    {
      QueuesOk() && WaitersOk() && WorkConserving()
    }

    /** All sockets wait, all queues are empty. */
    constructor (n: nat)
      requires 0 < n <= BITS_PER_LONG
      ensures Valid() && this.n == n && waiters == seq(n, i => i)
      ensures rxq == seq(n, _ => []) && rcv == seq(n, _ => []) && refused == []
    {
      this.n := n;
      rxq, rcv := seq(n, _ => []), seq(n, _ => []);
      nonempty, waiting, waiters, refused := seq(n, _ => false), seq(n, _ => true), seq(n, i => i), [];
      new;
      forall k | 0 <= k < n ensures k in waiters { assert waiters[k] == k; }
    }

    /** `rakaia_queue_rcv_skb`: accept says whether the receive-memory check passes. */
    method QueueRcv(w: nat, m: Msg, accept: bool)
      requires w < |rcv|
      modifies this`rcv, this`refused
      ensures rcv == if accept then old(rcv)[w := old(rcv)[w] + [m]] else old(rcv)
      ensures refused == if accept then old(refused) else old(refused) + [m]
    {
      if accept {
        rcv := rcv[w := rcv[w] + [m]];
      } else {
        refused := refused + [m];
      }
    }

    /** `rakaia_get_avail_sk`. */
    method GetAvail(local: nat) returns (w: Option<nat>)
      requires WaitersOk() && local < n
      modifies this`waiters, this`waiting
      ensures WaitersOk()
      ensures w.None? <==> old(waiters) == []
      ensures w.None? ==> waiters == old(waiters) && waiting == old(waiting)
      ensures w.Some? ==> w.value == (if local in old(waiters) then local else old(waiters)[0])
      ensures w.Some? ==>
          w.value < n && waiters == Without(old(waiters), w.value) && waiting == old(waiting)[w.value := false]
    {
      if waiters == [] { return None; }
      var ksk := if waiting[local] then local else waiters[0];
      WithoutElems(waiters, ksk);
      assert forall i :: 0 <= i < |Without(waiters, ksk)| ==> Without(waiters, ksk)[i] in waiters;
      waiters := Without(waiters, ksk);
      waiting := waiting[ksk := false];
      return Some(ksk);
    }

    /** `rakaia_push_skb_single_queue`: two random queues, the shorter is chosen. An idle socket, the
        chosen one first, gets the message at once; otherwise it is queued. */
    method Push(m: Msg, r1: nat, r2: nat, accept: bool) returns (chosen: nat)
      requires Valid()
      modifies this
      ensures Valid()
      ensures chosen == r1 % n || chosen == r2 % n
      ensures |old(rxq)[chosen]| <= |old(rxq)[r1 % n]| && |old(rxq)[chosen]| <= |old(rxq)[r2 % n]|
      ensures old(waiters) == [] ==>
          waiters == [] && rxq == old(rxq)[chosen := old(rxq)[chosen] + [m]] && rcv == old(rcv)
      ensures old(waiters) != [] ==>
        var w := if chosen in old(waiters) then chosen else old(waiters)[0];
        && rxq == old(rxq) && waiters == Without(old(waiters), w)
        && w < n && rcv == if accept then old(rcv)[w := old(rcv)[w] + [m]] else old(rcv)
    {
      var num1, num2 := r1 % n, r2 % n;
      chosen := if |rxq[num1]| <= |rxq[num2]| then num1 else num2;
      if |rxq[chosen]| >= 1 {
        rxq := rxq[chosen := rxq[chosen] + [m]];
        return;
      }
      rxq := rxq[chosen := rxq[chosen] + [m]];
      var w := GetAvail(chosen);
      if w.None? {
        nonempty := nonempty[chosen := true];
        return;
      }
      var x := rxq[chosen][0];
      rxq := rxq[chosen := rxq[chosen][1..]];
      nonempty := nonempty[chosen := |rxq[chosen]| >= 1];
      assert rxq == old(rxq);
      QueueRcv(w.value, x, accept);
    }

    /** Take the head of queue c. */
    method Dequeue(c: nat) returns (x: Msg)
      requires QueuesOk() && c < n && rxq[c] != []
      modifies this`rxq, this`nonempty
      ensures QueuesOk() && x == old(rxq)[c][0] && rxq == old(rxq)[c := old(rxq)[c][1..]]
    {
      x := rxq[c][0];
      rxq := rxq[c := rxq[c][1..]];
      if |rxq[c]| == 0 {
        nonempty := nonempty[c := false];
      }
    }

    /** `rakaia_steal_skb`: two different non-empty victims, the longer one loses its head. r2 is the
        draw that ended the search for a second victim. */
    method Steal(r1: nat, r2: nat) returns (x: Option<Msg>, ghost victim: nat)
      requires QueuesOk()
      requires Weight(nonempty) > 1 ==> r1 % Weight(nonempty) != r2 % Weight(nonempty)
      modifies this`rxq, this`nonempty
      ensures QueuesOk()
      ensures x.None? ==> rxq == old(rxq) && forall c :: 0 <= c < n ==> rxq[c] == []
      ensures x.Some? ==>
        && victim < n && old(rxq)[victim] != [] && x.value == old(rxq)[victim][0]
        && rxq == old(rxq)[victim := old(rxq)[victim][1..]]
        && Weight(old(nonempty)) > 0
        && exists v1, v2 :: IsKth(old(nonempty), v1, r1 % Weight(old(nonempty))) && (victim == v1 || victim == v2)
             && 0 <= v2 < n && old(nonempty)[v2] && (Weight(old(nonempty)) > 1 ==> v1 != v2)
             && |old(rxq)[v1]| <= |old(rxq)[victim]| && |old(rxq)[v2]| <= |old(rxq)[victim]|
    {
      victim := 0;
      WeightZero(nonempty);
      var v1 := PickRandomSetBit(nonempty, r1);
      if v1 < 0 { return None, 0; }
      var v2 := v1;
      if Weight(nonempty) > 1 {
        v2 := PickRandomSetBit(nonempty, r2);
      }
      var v := if |rxq[v2]| > |rxq[v1]| then v2 else v1;
      victim := v;
      var y := Dequeue(v);
      x := Some(y);
    }

    /** `rakaia_pull`: own queue first, then stealing; with nothing anywhere the socket goes idle. */
    method Pull(k: nat, r1: nat, r2: nat, accept: bool)
      requires Valid() && k < n
      requires Weight(nonempty) > 1 ==> r1 % Weight(nonempty) != r2 % Weight(nonempty)
      modifies this
      ensures Valid()
      ensures (forall c :: 0 <= c < n ==> old(rxq)[c] == []) ==>
        rxq == old(rxq) && rcv == old(rcv) && waiters == if k in old(waiters) then old(waiters) else old(waiters) + [k]
      ensures (exists c :: 0 <= c < n && old(rxq)[c] != []) ==>
        && waiters == old(waiters) == []
        && exists v :: 0 <= v < n && old(rxq)[v] != [] && (old(rxq)[k] != [] ==> v == k)
             && rxq == old(rxq)[v := old(rxq)[v][1..]]
             && rcv == if accept then old(rcv)[k := old(rcv)[k] + [old(rxq)[v][0]]] else old(rcv)
    {
      if rxq[k] != [] {
        var x := Dequeue(k);
        QueueRcv(k, x, accept);
        return;
      }
      var x, victim := Steal(r1, r2);
      if x.Some? {
        QueueRcv(k, x.value, accept);
        return;
      }
      if !waiting[k] {
        waiting := waiting[k := true];
        waiters := waiters + [k];
      }
    }
  }
}
