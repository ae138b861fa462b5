/** The registry's stored data as one value, and each public call as a function from
    the state before the call to the response and the state after it. The class in
    DidRegistry is proved to behave exactly like these functions. */
module RegistryState {
  import opened DidTypes

  /** The three data maps of the contract: DID records, claim records keyed by
      (DID, claim id), and the per-DID counter of claim ids handed out so far. */
  datatype State = State(dids: map<string, DidRecord>, claims: map<ClaimKey, ClaimRecord>, counters: map<string, nat>)

  /** The outcome of one call: what the caller receives and the state afterwards. */
  datatype Step<T> = Step(response: Result<T>, post: State)

  /** The state of a freshly deployed contract. */
  const EMPTY: State := State(map[], map[], map[])

  /** The id the next `add-claim` on `did` hands out; a DID without a counter entry
      has had no claim yet and starts at 0. */
  function NextClaimId(s: State, did: string): nat {
    if did in s.counters then s.counters[did] else 0
  }

  /** The invariant every reachable state keeps: counters exist only for registered
      DIDs, every registered DID is active, and the claims of each DID are exactly
      the ids 0 .. NextClaimId - 1. */
  ghost predicate WellFormed(s: State) {
    && s.counters.Keys <= s.dids.Keys
    && (forall did | did in s.dids :: s.dids[did].active)
    && (forall k | k in s.claims :: k.did in s.dids && k.claimId < NextClaimId(s, k.did))
    && (forall did: string, i: nat | i < NextClaimId(s, did) :: ClaimKey(did, i) in s.claims)
  }

  /** `register-did`: the caller becomes owner of an unregistered DID. */
  function RegisterStep(s: State, caller: Principal, height: nat, did: string): (out: Step<bool>)
    ensures out.response.Ok? <==> did !in s.dids
    ensures out.response.Ok? ==> out.response.value
    ensures out.response.Err? ==> out.response.code == ERR_DID_EXISTS && out.post == s
    ensures out.response.Ok? ==>
      && out.post.dids == s.dids[did := DidRecord(caller, height, height, true)]
      && out.post.claims == s.claims && out.post.counters == s.counters
    ensures WellFormed(s) && out.response.Ok? ==> NextClaimId(out.post, did) == 0
    ensures WellFormed(s) ==> WellFormed(out.post)
  {
    if did in s.dids then Step(Err(ERR_DID_EXISTS), s)
    else Step(Ok(true), s.(dids := s.dids[did := DidRecord(caller, height, height, true)]))
  }

  /** `transfer-did`: only the current owner may hand the DID to `newOwner`. */
  function TransferStep(s: State, caller: Principal, height: nat, did: string, newOwner: Principal): (out: Step<bool>)
    ensures did !in s.dids ==> out.response == Err(ERR_DID_NOT_FOUND)
    ensures did in s.dids && caller != s.dids[did].owner ==> out.response == Err(ERR_NOT_AUTHORIZED)
    ensures out.response.Ok? <==> did in s.dids && caller == s.dids[did].owner
    ensures out.response.Ok? ==> out.response.value
    ensures out.response.Err? ==> out.post == s
    ensures out.response.Ok? ==>
      && out.post.dids == s.dids[did := s.dids[did].(owner := newOwner, updatedAt := height)]
      && out.post.claims == s.claims && out.post.counters == s.counters
    ensures WellFormed(s) ==> WellFormed(out.post)
  {
    if did !in s.dids then Step(Err(ERR_DID_NOT_FOUND), s)
    else if caller != s.dids[did].owner then Step(Err(ERR_NOT_AUTHORIZED), s)
    else Step(Ok(true), s.(dids := s.dids[did := s.dids[did].(owner := newOwner, updatedAt := height)]))
  }

  /** `add-claim`: the owner attaches a claim under the next free id of the DID. */
  function AddClaimStep(s: State, caller: Principal, did: string, claimType: string, data: string, expiresAt: nat): (out: Step<nat>)
    ensures did !in s.dids ==> out.response == Err(ERR_DID_NOT_FOUND)
    ensures did in s.dids && caller != s.dids[did].owner ==> out.response == Err(ERR_NOT_AUTHORIZED)
    ensures out.response.Ok? <==> did in s.dids && caller == s.dids[did].owner
    ensures out.response.Err? ==> out.post == s
    ensures out.response.Ok? ==>
      && out.response.value == NextClaimId(s, did)
      && NextClaimId(out.post, did) == out.response.value + 1
      && out.post.claims == s.claims[ClaimKey(did, out.response.value) := ClaimRecord(claimType, caller, data, expiresAt, false)]
      && out.post.dids == s.dids
      && (forall d | d != did :: NextClaimId(out.post, d) == NextClaimId(s, d))
    // the id handed out was never used before under this DID
    ensures WellFormed(s) && out.response.Ok? ==> ClaimKey(did, out.response.value) !in s.claims
    ensures WellFormed(s) ==> WellFormed(out.post)
  {
    if did !in s.dids then Step(Err(ERR_DID_NOT_FOUND), s)
    else if caller != s.dids[did].owner then Step(Err(ERR_NOT_AUTHORIZED), s)
    else
      var id := NextClaimId(s, did);
      var post := s.(claims := s.claims[ClaimKey(did, id) := ClaimRecord(claimType, caller, data, expiresAt, false)],
                     counters := s.counters[did := id + 1]);
      Step(Ok(id), post)
  }

  /** `revoke-claim`: the current owner of the DID (not necessarily the issuer)
      marks one of its claims revoked. Ownership is checked before the claim is
      looked up, so a non-owner gets ERR_NOT_AUTHORIZED whatever the claim's state;
      revoking an already revoked claim again succeeds and changes nothing. */
  function RevokeStep(s: State, caller: Principal, did: string, claimId: nat): (out: Step<bool>)
    ensures did !in s.dids ==> out.response == Err(ERR_DID_NOT_FOUND)
    ensures did in s.dids && caller != s.dids[did].owner ==> out.response == Err(ERR_NOT_AUTHORIZED)
    ensures did in s.dids && caller == s.dids[did].owner && ClaimKey(did, claimId) !in s.claims ==>
      out.response == Err(ERR_CLAIM_NOT_FOUND)
    ensures out.response.Ok? <==> did in s.dids && caller == s.dids[did].owner && ClaimKey(did, claimId) in s.claims
    ensures out.response.Ok? ==> out.response.value
    ensures out.response.Err? ==> out.post == s
    ensures out.response.Ok? ==>
      && out.post.claims == s.claims[ClaimKey(did, claimId) := s.claims[ClaimKey(did, claimId)].(revoked := true)]
      && out.post.dids == s.dids && out.post.counters == s.counters
    ensures WellFormed(s) ==> WellFormed(out.post)
  {
    var key := ClaimKey(did, claimId);
    if did !in s.dids then Step(Err(ERR_DID_NOT_FOUND), s)
    else if caller != s.dids[did].owner then Step(Err(ERR_NOT_AUTHORIZED), s)
    else if key !in s.claims then Step(Err(ERR_CLAIM_NOT_FOUND), s)
    else Step(Ok(true), s.(claims := s.claims[key := s.claims[key].(revoked := true)]))
  }

  /** `is-claim-valid`: the claim exists, is not revoked and has not expired at `height`. */
  predicate ClaimValid(s: State, did: string, claimId: nat, height: nat) {
    var key := ClaimKey(did, claimId);
    key in s.claims && !s.claims[key].revoked && height < s.claims[key].expiresAt
  }

  /** `get-did-info`. */
  function DidInfo(s: State, did: string): Result<DidRecord> {
    if did in s.dids then Ok(s.dids[did]) else Err(ERR_DID_NOT_FOUND)
  }

  /** `get-claim`. */
  function ClaimInfo(s: State, did: string, claimId: nat): Result<ClaimRecord> {
    var key := ClaimKey(did, claimId);
    if key in s.claims then Ok(s.claims[key]) else Err(ERR_CLAIM_NOT_FOUND)
  }
}
