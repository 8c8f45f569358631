/** The discovery retry of `Dexter.topLevel`: query the lookup service
    until it returns a non-empty list of service items. Each element of a
    `lookups` sequence is the answer of one successive query. */
module Discovery {
  import opened Common

  /** The index of the first non-empty answer, if any. */
  function FirstHit<T>(lookups: seq<seq<T>>): (r: Option<nat>)
    ensures r.None? <==> forall k :: 0 <= k < |lookups| ==> lookups[k] == []
    ensures r.Some? ==> r.value < |lookups| && lookups[r.value] != []
                        && forall k :: 0 <= k < r.value ==> lookups[k] == []
  {
    if lookups == [] then None
    else if lookups[0] != [] then Some(0)
    else match FirstHit(lookups[1..])
      case None => None
      case Some(k) => Some(k + 1)
  }
}
