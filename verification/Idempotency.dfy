/** Scoped idempotency keys. */
module Idempotency {
  import opened Basics
  import opened Records

  datatype Claim = Refused(error: Error) | Replay(response: Response) | Proceed

  predicate ValidKey(key: IdemKey) { 1 <= |key.text| <= 200 }

  /** Claiming a key: a stored response is replayed, another payload under the same key is refused. */
  function ClaimKey(idem: map<IdemKey, IdemRecord>, key: IdemKey, request: Request): (c: Claim)
    ensures c == Refused(InvalidKey) <==> !ValidKey(key)
    ensures c == Refused(KeyConflict) <==> ValidKey(key) && key in idem && idem[key].request != request
    ensures c.Proceed? <==> ValidKey(key) && (key in idem ==> idem[key] == IdemRecord(request, None))
    ensures c.Replay? <==> ValidKey(key) && key in idem && idem[key].request == request && idem[key].response.Some?
    ensures c.Replay? ==> idem[key] == IdemRecord(request, Some(c.response))
    ensures c.Refused? ==> c.error in {InvalidKey, KeyConflict}
  {
    if |key.text| == 0 || |key.text| > 200 then Refused(InvalidKey)
    else if key !in idem then Proceed
    else if idem[key].request != request then Refused(KeyConflict)
    else if idem[key].response.Some? then Replay(idem[key].response.value)
    else Proceed
  }
}
