/** The responses that a protocol's end is waiting for: both query protocols keep a list of them. */
module PendingResponses {

  /** A `PendingResponse` and the suspended query it will resume. */
  datatype Pending<Q> = Pending(id: nat, query: Q)

  /** Position of the first pending response with this id, or the length if there is none. */
  function FindPending<Q>(pending: seq<Pending<Q>>, id: nat): (i: nat)
    ensures i <= |pending| && (i < |pending| ==> pending[i].id == id)
    ensures forall j :: 0 <= j < i ==> pending[j].id != id
  {
    if pending == [] || pending[0].id == id then 0 else 1 + FindPending(pending[1..], id)
  }
}
