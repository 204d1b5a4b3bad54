/** The poll-to-terminal loop shared by buys and sells: query the order again and again until
    its status is "filled" or "canceled"; every other status means "poll again". */
module Polling {
  import opened Wrappers
  import opened Oracle

  /** The three buckets the loop distinguishes. */
  datatype PollState = Filled | Canceled | Pending

  /** The bucket of a raw status string: only the two exact strings end the loop. */
  function Classify(status: string): (p: PollState)
    ensures p == Filled <==> status == "filled"
    ensures p == Canceled <==> status == "canceled"
    ensures p == Pending <==> status != "filled" && status != "canceled"
  {
    if status == "filled" then Filled
    else if status == "canceled" then Canceled
    else Pending
  }

  predicate Terminal(v: OrderView)
  {
    Classify(v.status) != Pending
  }

  /** The index of the first terminal answer among the polled ones, if any. */
  function FirstTerminal(polls: seq<OrderView>): (r: Option<nat>)
    ensures r.Some? ==> r.value < |polls| && Terminal(polls[r.value])
    ensures r.Some? ==> forall k :: 0 <= k < r.value ==> !Terminal(polls[k])
    ensures r.None? <==> forall k :: 0 <= k < |polls| ==> !Terminal(polls[k])
  {
    if |polls| == 0 then None
    else if Terminal(polls[0]) then Some(0)
    else
      match FirstTerminal(polls[1..])
      case None => None
      case Some(i) => Some(i + 1)
  }

  /** Being the first terminal answer determines an index: it is the one FirstTerminal finds. */
  lemma {:induction false} FirstTerminalUnique(polls: seq<OrderView>, i: nat)
    requires i < |polls| && Terminal(polls[i])
    requires forall k :: 0 <= k < i ==> !Terminal(polls[k])
    ensures FirstTerminal(polls) == Some(i)
  {
    if i > 0 {
      assert !Terminal(polls[0]);
      assert forall k :: 0 <= k < i - 1 ==> polls[1..][k] == polls[k + 1];
      FirstTerminalUnique(polls[1..], i - 1);
    }
  }

  /** The loop itself (BrokerConn.py lines 58-82 and 116-140): it stops at the first answer
      whose status is terminal. Without such an answer the source loops forever, hence the
      requires. Returns the index of the answer that ended the loop. */
  method PollUntilTerminal(polls: seq<OrderView>) returns (i: nat)
    requires exists k :: 0 <= k < |polls| && Terminal(polls[k])
    ensures i < |polls| && Terminal(polls[i])
    ensures forall k :: 0 <= k < i ==> !Terminal(polls[k])
  {
    i := 0;
    while !Terminal(polls[i])
      invariant i < |polls|
      invariant exists k :: i <= k < |polls| && Terminal(polls[k])
      invariant forall k :: 0 <= k < i ==> !Terminal(polls[k])
      decreases |polls| - i
    {
      i := i + 1;
    }
  }
}
