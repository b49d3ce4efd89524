/**
 * The order-executor replicas (`OrderExecutorService`): a token ring that
 * decides which replica may dequeue, and the coordinator side of the
 * two-phase commit.
 *
 * Replica r is `ring[r - 1]`. A remote call to replica j is a call on
 * `ring[j - 1]`, and it succeeds iff j is in the set `live`. The ring is
 * modelled as sequential hand-offs: one replica takes a step at a time.
 */
module OrderExecutor {
  import opened Wrappers
  import PaymentExecutor

  /** The part of a dequeued order the executor reads. */
  datatype Order = Order(orderId: string, priority: int)

  // ---------------------------------------------------------------------------
  // Probe order of pass_token

  /** The replica probed at step i of pass_token. */
  function ProbeId(replicaId: nat, i: nat, total: nat): (next: nat)
    requires 1 <= total
    ensures 1 <= next <= total
  {
    (replicaId + i) % total + 1
  }

  /** Within one round, the probe is the replica id + i + 1, wrapped once past the last replica. */
  lemma ProbeClosedForm(replicaId: nat, i: nat, total: nat)
    requires 1 <= replicaId <= total && i < total
    ensures ProbeId(replicaId, i, total) == if replicaId + i < total then replicaId + i + 1 else replicaId + i + 1 - total
  {
  }

  /** The probe step at which pass_token of `replicaId` reaches replica `target`. */
  function ProbeStepOf(replicaId: nat, target: nat, total: nat): (i: nat)
    requires 1 <= replicaId <= total && 1 <= target <= total
    ensures i < total
  {
    if replicaId < target then target - 1 - replicaId else target - 1 - replicaId + total
  }

  /**
   * The probes for i in 0..total-1 start at the ring successor, end at the
   * replica itself, and visit every replica id exactly once.
   */
  lemma ProbeOrder(replicaId: nat, total: nat)
    requires 1 <= replicaId <= total
    ensures ProbeId(replicaId, 0, total) == (if replicaId == total then 1 else replicaId + 1)
    ensures ProbeId(replicaId, total - 1, total) == replicaId
    ensures forall i, j :: 0 <= i < j < total ==> ProbeId(replicaId, i, total) != ProbeId(replicaId, j, total)
    ensures forall t :: 1 <= t <= total ==> ProbeId(replicaId, ProbeStepOf(replicaId, t, total), total) == t
  {
    ProbeClosedForm(replicaId, 0, total);
    ProbeClosedForm(replicaId, total - 1, total);
    forall i, j | 0 <= i < j < total
      ensures ProbeId(replicaId, i, total) != ProbeId(replicaId, j, total)
    {
      ProbeClosedForm(replicaId, i, total);
      ProbeClosedForm(replicaId, j, total);
    }
    forall t | 1 <= t <= total
      ensures ProbeId(replicaId, ProbeStepOf(replicaId, t, total), total) == t
    {
      ProbeClosedForm(replicaId, ProbeStepOf(replicaId, t, total), total);
    }
  }

  /** The first probe step at or after i whose replica is live; `total` when there is none. */
  function FirstLiveIndex(replicaId: nat, total: nat, live: set<nat>, i: nat): (k: nat)
    requires 1 <= total && i <= total
    ensures i <= k <= total
    ensures forall k' :: i <= k' < k ==> ProbeId(replicaId, k', total) !in live
    ensures k < total ==> ProbeId(replicaId, k, total) in live
    decreases total - i
  {
    if i == total then total
    else if ProbeId(replicaId, i, total) in live then i
    else FirstLiveIndex(replicaId, total, live, i + 1)
  }

  /** The replica that receives the token from pass_token, if any. */
  function Receiver(replicaId: nat, total: nat, live: set<nat>): Option<nat>
    requires 1 <= total
  {
    var k := FirstLiveIndex(replicaId, total, live, 0);
    if k < total then Some(ProbeId(replicaId, k, total)) else None
  }

  /**
   * The token reaches a live replica whenever there is one (possibly the
   * sender itself, probed last), and is lost only when no replica is live.
   */
  lemma ReceiverIsLiveIfAny(replicaId: nat, total: nat, live: set<nat>)
    requires 1 <= replicaId <= total
    ensures Receiver(replicaId, total, live).None? <==> forall t :: 1 <= t <= total ==> t !in live
    ensures Receiver(replicaId, total, live).Some? ==>
      var t := Receiver(replicaId, total, live).value; 1 <= t <= total && t in live
  {
    ProbeOrder(replicaId, total);
    if Receiver(replicaId, total, live).None? {
      forall t | 1 <= t <= total
        ensures t !in live
      {
        assert ProbeId(replicaId, ProbeStepOf(replicaId, t, total), total) == t;
      }
    }
  }

  // ---------------------------------------------------------------------------
  // Token holders

  /** At most one replica holds the token. */
  ghost predicate AtMostOneHolder(flags: seq<bool>)
  {
    forall a, b :: 0 <= a < |flags| && 0 <= b < |flags| && flags[a] && flags[b] ==> a == b
  }

  /** The holder flags after replica `sender` ran pass_token: the receiver gets the token, then the sender drops it. */
  function Handoff(flags: seq<bool>, sender: nat, receiver: Option<nat>): seq<bool>
    requires 1 <= sender <= |flags|
    requires receiver.Some? ==> 1 <= receiver.value <= |flags|
  {
    var given := if receiver.Some? then flags[receiver.value - 1 := true] else flags;
    given[sender - 1 := false]
  }

  /**
   * A hand-off by the only holder leaves exactly the receiver holding the
   * token, or nobody when there was no receiver or the receiver was the
   * sender itself; it never creates a second holder.
   */
  lemma HandoffKeepsOneHolder(flags: seq<bool>, sender: nat, receiver: Option<nat>)
    requires 1 <= sender <= |flags| && flags[sender - 1]
    requires receiver.Some? ==> 1 <= receiver.value <= |flags|
    requires AtMostOneHolder(flags)
    ensures forall k :: 0 <= k < |flags| ==>
      (Handoff(flags, sender, receiver)[k] <==> receiver == Some(k + 1) && k + 1 != sender)
    ensures AtMostOneHolder(Handoff(flags, sender, receiver))
  {
  }

  /**
   * A freshly started ring, each replica as its constructor leaves it
   * (idle, holding the token iff it is replica 1), has replica 1 as its
   * one holder.
   */
  lemma InitialRingHasOneHolder(ring: seq<OrderExecutor>, total: nat)
    requires 1 <= total && IsRing(ring, total)
    requires forall k :: 0 <= k < |ring| ==> !ring[k].isBusy && (ring[k].hasToken <==> ring[k].replicaId == 1)
    ensures AtMostOneHolder(Flags(ring)) && Flags(ring)[0]
    ensures forall k :: 1 <= k < |ring| ==> !Flags(ring)[k]
  {
  }

  // ---------------------------------------------------------------------------
  // Two-phase commit decision

  /** `SendVoteRequestToParticipants`: the global decision is commit iff both participants vote commit. */
  function GlobalDecision(paymentVote: bool, bookVote: bool): (globalCommit: bool)
    ensures globalCommit <==> paymentVote && bookVote
  {
    paymentVote && bookVote
  }

  /**
   * The payment participant always votes commit, so the global decision is
   * the book database's vote; and the payment is never reported as executed,
   * whatever the decision.
   */
  lemma DecisionFollowsBookVote(paymentDraw: bool, bookVote: bool)
    ensures GlobalDecision(PaymentExecutor.SendVoteToCoordinator(paymentDraw), bookVote) == bookVote
    ensures !PaymentExecutor.ExecutePayment(GlobalDecision(PaymentExecutor.SendVoteToCoordinator(paymentDraw), bookVote))
  {
  }

  // ---------------------------------------------------------------------------
  // The replicas

  /** What one pass of the polling loop did, in order. */
  datatype Event =
    | Dequeued(order: Order)
    | QueueEmpty
    | ReportedBusy
    | TokenPassed(receiver: Option<nat>)
    | Executed(order: Order, globalCommit: bool, paymentSuccess: bool)

  /** `ring` lists replicas 1..total in order, all configured with the same ring size. */
  ghost predicate IsRing(ring: seq<OrderExecutor>, total: nat)
  {
    |ring| == total && forall k :: 0 <= k < total ==> ring[k].replicaId == k + 1 && ring[k].totalReplicas == total
  }

  /** The token holder flags of the ring, replica 1 first. */
  ghost function Flags(ring: seq<OrderExecutor>): seq<bool>
    reads ring
  {
    seq(|ring|, k requires 0 <= k < |ring| reads ring => ring[k].hasToken)
  }

  class OrderExecutor {
    const replicaId: nat
    const totalReplicas: nat
    var hasToken: bool
    var isBusy: bool

    /** `__init__`: idle, and holding the token iff this is replica 1. */
    constructor (id: nat, total: nat)
      ensures replicaId == id && totalReplicas == total
      ensures !isBusy && (hasToken <==> id == 1)
    {
      replicaId, totalReplicas := id, total;
      isBusy := false;
      hasToken := id == 1;
    }

    /** `PassToken`: become the holder whatever the token payload says, and answer success. */
    method PassToken(token: nat) returns (success: bool)
      modifies this
      ensures hasToken && success
      ensures isBusy == old(isBusy)
    {
      hasToken := true;
      success := true;
    }

    /** `CheckHealth`: a replica that can be reached always answers alive. */
    method CheckHealth() returns (alive: bool)
      ensures alive
    {
      alive := true;
    }

    /** The ring this replica belongs to, with itself at its own position. */
    ghost predicate InRing(ring: seq<OrderExecutor>)
    {
      IsRing(ring, totalReplicas) && 1 <= replicaId <= totalReplicas && ring[replicaId - 1] == this
    }

    /**
     * `pass_token`: probe the replicas in ring order starting at the
     * successor, give the token to the first live one, and drop the token
     * in every case.
     */
    method HandOffToken(ring: seq<OrderExecutor>, live: set<nat>) returns (receiver: Option<nat>)
      requires InRing(ring)
      modifies ring
      ensures receiver == Receiver(replicaId, totalReplicas, live)
      ensures Flags(ring) == Handoff(old(Flags(ring)), replicaId, receiver)
      ensures !hasToken
      ensures forall k :: 0 <= k < |ring| ==> ring[k].isBusy == old(ring[k].isBusy)
    {
      receiver := None;
      var i := 0;
      while i < totalReplicas
        invariant 0 <= i <= totalReplicas
        invariant FirstLiveIndex(replicaId, totalReplicas, live, 0) == FirstLiveIndex(replicaId, totalReplicas, live, i)
        invariant receiver == None
        invariant Flags(ring) == old(Flags(ring))
        invariant forall k :: 0 <= k < |ring| ==> ring[k].isBusy == old(ring[k].isBusy)
      {
        var next := ProbeId(replicaId, i, totalReplicas);
        var peer := ring[next - 1];
        var alive := false;
        if next in live {
          alive := peer.CheckHealth();
        }
        if alive {
          var _ := peer.PassToken(next);
          receiver := Some(next);
          break;
        }
        i := i + 1;
      }
      hasToken := false;
    }

    /**
     * `execute_order`: busy while it runs the two-phase commit for the order
     * and asks the payment participant to execute; idle when it returns.
     */
    method ExecuteOrder(order: Order, paymentDraw: bool, bookVote: bool) returns (globalCommit: bool, paymentSuccess: bool)
      modifies this
      ensures globalCommit == (PaymentExecutor.SendVoteToCoordinator(paymentDraw) && bookVote)
      ensures !paymentSuccess
      ensures !isBusy && hasToken == old(hasToken)
    {
      isBusy := true;
      var paymentVote := PaymentExecutor.SendVoteToCoordinator(paymentDraw);
      globalCommit := GlobalDecision(paymentVote, bookVote);
      paymentSuccess := PaymentExecutor.ExecutePayment(globalCommit);
      isBusy := false;
    }

    /**
     * One pass of the polling loop of `dequeue_order`. The order queue is
     * `queue`, next order first; `rest` is what remains in it.
     */
    method DequeueOrderStep(ring: seq<OrderExecutor>, queue: seq<Order>, live: set<nat>, paymentDraw: bool, bookVote: bool)
      returns (rest: seq<Order>, events: seq<Event>)
      requires InRing(ring)
      modifies ring
      ensures var receiver := Receiver(replicaId, totalReplicas, live);
        && (!old(hasToken) ==>
              rest == queue && events == [] && Flags(ring) == old(Flags(ring)))
        && (old(hasToken) && old(isBusy) ==>
              rest == queue && events == [ReportedBusy, TokenPassed(receiver)])
        && (old(hasToken) && !old(isBusy) && queue == [] ==>
              rest == queue && events == [QueueEmpty, TokenPassed(receiver)])
        && (old(hasToken) && !old(isBusy) && queue != [] ==>
              rest == queue[1..]
              && events == [Dequeued(queue[0]), TokenPassed(receiver),
                            Executed(queue[0], PaymentExecutor.SendVoteToCoordinator(paymentDraw) && bookVote, false)])
        && (old(hasToken) ==> Flags(ring) == Handoff(old(Flags(ring)), replicaId, receiver))
      ensures AtMostOneHolder(old(Flags(ring))) ==> AtMostOneHolder(Flags(ring))
      ensures isBusy == old(isBusy)
      ensures forall k :: 0 <= k < |ring| && k != replicaId - 1 ==> ring[k].isBusy == old(ring[k].isBusy)
    {
      rest, events := queue, [];
      ghost var before := Flags(ring);
      if hasToken {
        assert before[replicaId - 1];
        ReceiverIsLiveIfAny(replicaId, totalReplicas, live);
        var receiver: Option<nat>;
        if !isBusy {
          if queue != [] {
            var order := queue[0];
            rest := queue[1..];
            events := [Dequeued(order)];
            receiver := HandOffToken(ring, live);
            events := events + [TokenPassed(receiver)];
            var globalCommit, paymentSuccess := ExecuteOrder(order, paymentDraw, bookVote);
            events := events + [Executed(order, globalCommit, paymentSuccess)];
          } else {
            events := [QueueEmpty];
            receiver := HandOffToken(ring, live);
            events := events + [TokenPassed(receiver)];
          }
        } else {
          events := [ReportedBusy];
          receiver := HandOffToken(ring, live);
          events := events + [TokenPassed(receiver)];
        }
        if AtMostOneHolder(before) {
          HandoffKeepsOneHolder(before, replicaId, receiver);
        }
      }
    }
  }
}
