/** How the answer to a fire confirmation is read (apps/npc-tank-provider-adapter/src/runtime.ts:1741-1754). */
module FireConfirmation {
  import opened FireFence

  datatype Action = Accept | Decline | CancelAction | Reject | OtherAction

  /** One response: whether it is a record with the key `fire_confirmation`, and what its result says. */
  datatype Response = Response(isConfirmation: bool, action: Action, contentConfirmed: bool, resultConfirmed: bool)

  /** `k` is the first response to the confirmation. */
  predicate FirstAt(responses: seq<Response>, k: nat) {
    k < |responses| && responses[k].isConfirmation && forall j :: 0 <= j < k ==> !responses[j].isConfirmation
  }

  /**
   `fireConfirmationDecision`: the first response to the confirmation decides, and it confirms only by accepting with a
   flag that says so. Without such a response the answer is invalid.
   */
  method Decide(responses: seq<Response>) returns (answer: Confirmation)
    ensures forall k: nat :: FirstAt(responses, k) ==>
              var item := responses[k];
              && (answer.Confirmed? <==> item.action.Accept? && (item.contentConfirmed || item.resultConfirmed))
              && (answer.Declined? <==> item.action.Decline? || item.action.CancelAction? || item.action.Reject?)
    ensures (forall k :: 0 <= k < |responses| ==> !responses[k].isConfirmation) ==> answer.Invalid?
  {
    for i := 0 to |responses|
      invariant forall j :: 0 <= j < i ==> !responses[j].isConfirmation
    {
      var item := responses[i];
      if item.isConfirmation {
        assert forall k: nat :: FirstAt(responses, k) ==> k == i;
        if item.action.Accept? && (item.contentConfirmed || item.resultConfirmed) {
          return Confirmed;
        }
        if item.action.Decline? || item.action.CancelAction? || item.action.Reject? {
          return Declined;
        }
        return Invalid;
      }
    }
    return Invalid;
  }
}
