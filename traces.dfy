/** Sequences of contract calls, as the chain executes them one after another, and
    the rules the registry keeps over any such sequence: the invariant, claim ids
    0, 1, 2, ... per DID, DIDs and claims that are never lost, revocation that is
    never undone, and records that only their DID's owner can change. */
module RegistryTraces {
  import opened DidTypes
  import opened RegistryState

  /** One public function of the contract with its arguments. */
  datatype Call =
    | Register(did: string)
    | Transfer(did: string, newOwner: Principal)
    | AddClaim(did: string, claimType: string, data: string, expiresAt: nat)
    | RevokeClaim(did: string, claimId: nat)
    | IsClaimValid(did: string, claimId: nat)
    | GetDidInfo(did: string)
    | GetClaim(did: string, claimId: nat)

  /** A call together with what the chain supplies: the sender and the block height. */
  datatype Tx = Tx(caller: Principal, height: nat, call: Call)

  /** The state after one transaction; the three queries leave it as it was. */
  function Apply(s: State, tx: Tx): State {
    match tx.call
    case Register(did) => RegisterStep(s, tx.caller, tx.height, did).post
    case Transfer(did, newOwner) => TransferStep(s, tx.caller, tx.height, did, newOwner).post
    case AddClaim(did, claimType, data, expiresAt) => AddClaimStep(s, tx.caller, did, claimType, data, expiresAt).post
    case RevokeClaim(did, claimId) => RevokeStep(s, tx.caller, did, claimId).post
    case IsClaimValid(_, _) => s
    case GetDidInfo(_) => s
    case GetClaim(_, _) => s
  }

  /** The state after the transactions `txs`, in order, starting from `s`. */
  function Run(s: State, txs: seq<Tx>): State
    decreases |txs|
  {
    if txs == [] then s else Apply(Run(s, txs[..|txs| - 1]), txs[|txs| - 1])
  }

  /** The claim ids that successful `add-claim` calls on `did` returned, in order. */
  function IssuedIds(s: State, txs: seq<Tx>, did: string): seq<nat>
    decreases |txs|
  {
    if txs == [] then []
    else
      var before := Run(s, txs[..|txs| - 1]);
      var tx := txs[|txs| - 1];
      IssuedIds(s, txs[..|txs| - 1], did) +
        match tx.call
        case AddClaim(d, claimType, data, expiresAt) =>
          var response := AddClaimStep(before, tx.caller, d, claimType, data, expiresAt).response;
          if d == did && response.Ok? then [response.value] else []
        case _ => []
  }

  lemma {:induction false} RunKeepsWellFormed(s: State, txs: seq<Tx>)
    requires WellFormed(s)
    ensures WellFormed(Run(s, txs))
    decreases |txs|
  {
    if txs != [] {
      RunKeepsWellFormed(s, txs[..|txs| - 1]);
    }
  }

  /** Every state the contract can reach from deployment satisfies the invariant. */
  lemma {:induction false} ReachableIsWellFormed(txs: seq<Tx>)
    ensures WellFormed(Run(EMPTY, txs))
  {
    RunKeepsWellFormed(EMPTY, txs);
  }

  /** Claim ids of a DID are handed out one after the other from its counter, and the
      counter ends exactly past the last id handed out. */
  lemma {:induction false} IssuedIdsAreConsecutive(s: State, txs: seq<Tx>, did: string)
    ensures NextClaimId(Run(s, txs), did) == NextClaimId(s, did) + |IssuedIds(s, txs, did)|
    ensures forall k | 0 <= k < |IssuedIds(s, txs, did)| :: IssuedIds(s, txs, did)[k] == NextClaimId(s, did) + k
    decreases |txs|
  {
    if txs != [] {
      var prefix := txs[..|txs| - 1];
      IssuedIdsAreConsecutive(s, prefix, did);
      var before := Run(s, prefix);
      var tx := txs[|txs| - 1];
      match tx.call
      case AddClaim(d, claimType, data, expiresAt) =>
        var step := AddClaimStep(before, tx.caller, d, claimType, data, expiresAt);
        if d == did && step.response.Ok? {
          assert IssuedIds(s, txs, did) == IssuedIds(s, prefix, did) + [step.response.value];
        } else {
          assert IssuedIds(s, txs, did) == IssuedIds(s, prefix, did);
        }
      case _ =>
        assert IssuedIds(s, txs, did) == IssuedIds(s, prefix, did);
    }
  }

  /** From deployment, the n-th successful `add-claim` on a DID returns id n - 1:
      ids start at 0 for every DID, increase by one and are never reused. */
  lemma {:induction false} ClaimIdsCountFromZero(txs: seq<Tx>, did: string)
    ensures forall k | 0 <= k < |IssuedIds(EMPTY, txs, did)| :: IssuedIds(EMPTY, txs, did)[k] == k
    ensures NextClaimId(Run(EMPTY, txs), did) == |IssuedIds(EMPTY, txs, did)|
  {
    IssuedIdsAreConsecutive(EMPTY, txs, did);
  }

  /** One call never removes a DID, never changes its registration height, never
      removes a claim, never changes what a claim says and never un-revokes it. */
  ghost predicate Retains(s: State, t: State) {
    && (forall did | did in s.dids :: did in t.dids && t.dids[did].createdAt == s.dids[did].createdAt)
    && (forall k | k in s.claims ::
          && k in t.claims
          && t.claims[k] == s.claims[k].(revoked := t.claims[k].revoked)
          && (s.claims[k].revoked ==> t.claims[k].revoked))
  }

  lemma ApplyRetains(s: State, tx: Tx)
    requires WellFormed(s)
    ensures Retains(s, Apply(s, tx))
  {
    match tx.call
    case RevokeClaim(did, claimId) =>
      var t := Apply(s, tx);
      forall k | k in s.claims
        ensures t.claims[k] == s.claims[k].(revoked := t.claims[k].revoked)
      {
        if RevokeStep(s, tx.caller, did, claimId).response.Ok? && k == ClaimKey(did, claimId) {
          assert t.claims[k] == s.claims[k].(revoked := true);
        }
      }
    case _ =>
  }

  lemma {:induction false} RunRetains(s: State, txs: seq<Tx>)
    requires WellFormed(s)
    ensures Retains(s, Run(s, txs))
    decreases |txs|
  {
    if txs != [] {
      var prefix := txs[..|txs| - 1];
      RunRetains(s, prefix);
      RunKeepsWellFormed(s, prefix);
      var before := Run(s, prefix);
      ApplyRetains(before, txs[|txs| - 1]);
    }
  }

  /** Once registered, a DID can never be registered again, by anyone: the attempt
      returns ERR_DID_EXISTS and leaves the state as it was. */
  lemma {:induction false} RegistrationIsUnique(s: State, txs: seq<Tx>, did: string, caller: Principal, height: nat)
    requires WellFormed(s) && did in s.dids
    ensures RegisterStep(Run(s, txs), caller, height, did) == Step(Err(ERR_DID_EXISTS), Run(s, txs))
  {
    RunRetains(s, txs);
  }

  /** A revoked claim stays revoked: it is never valid again at any height. */
  lemma RevocationIsFinal(s: State, txs: seq<Tx>, did: string, claimId: nat)
    requires WellFormed(s)
    requires ClaimKey(did, claimId) in s.claims && s.claims[ClaimKey(did, claimId)].revoked
    ensures forall height: nat :: !ClaimValid(Run(s, txs), did, claimId, height)
    ensures ClaimKey(did, claimId) in Run(s, txs).claims
  {
    RunRetains(s, txs);
  }

  /** After a successful `revoke-claim` the claim is not valid at any height. */
  lemma RevokedClaimIsInvalid(s: State, caller: Principal, did: string, claimId: nat, height: nat)
    requires RevokeStep(s, caller, did, claimId).response.Ok?
    ensures !ClaimValid(RevokeStep(s, caller, did, claimId).post, did, claimId, height)
  {
  }

  /** A claim just added is valid exactly below its expiry height, and `get-claim`
      returns what was stored, with the caller as issuer and not revoked. */
  lemma AddedClaimIsValidUntilExpiry(s: State, caller: Principal, did: string, claimType: string, data: string, expiresAt: nat, height: nat)
    requires AddClaimStep(s, caller, did, claimType, data, expiresAt).response.Ok?
    ensures var step := AddClaimStep(s, caller, did, claimType, data, expiresAt);
      && (ClaimValid(step.post, did, step.response.value, height) <==> height < expiresAt)
      && ClaimInfo(step.post, did, step.response.value) == Ok(ClaimRecord(claimType, caller, data, expiresAt, false))
  {
  }

  /** Only `transfer-did` changes a DID record: calls none of which transfers `did`
      leave its record (owner, heights, active flag) exactly as it was. */
  lemma {:induction false} RecordKeptWithoutTransfer(s: State, txs: seq<Tx>, did: string)
    requires did in s.dids
    requires forall j | 0 <= j < |txs| :: !(txs[j].call.Transfer? && txs[j].call.did == did)
    ensures did in Run(s, txs).dids && Run(s, txs).dids[did] == s.dids[did]
    decreases |txs|
  {
    if txs != [] {
      RecordKeptWithoutTransfer(s, txs[..|txs| - 1], did);
    }
  }

  /** After registration, and after any later calls none of which transfers the DID,
      `get-did-info` reports the registering caller as owner, the DID as active, and
      equal creation and update heights (the registration height). */
  lemma {:induction false} RegisteredDidInfo(s: State, caller: Principal, height: nat, did: string, later: seq<Tx>)
    requires did !in s.dids
    requires forall j | 0 <= j < |later| :: !(later[j].call.Transfer? && later[j].call.did == did)
    ensures var info := DidInfo(Run(RegisterStep(s, caller, height, did).post, later), did);
      && info.Ok? && info.value.owner == caller && info.value.active
      && info.value.createdAt == info.value.updatedAt == height
  {
    RecordKeptWithoutTransfer(RegisterStep(s, caller, height, did).post, later, did);
  }

  /** Everything the registry holds about one DID: its record and its claims. */
  ghost predicate SameDidData(s: State, t: State, did: string)
    requires did in s.dids
  {
    && did in t.dids && t.dids[did] == s.dids[did]
    && NextClaimId(t, did) == NextClaimId(s, did)
    && (forall i: nat :: ClaimKey(did, i) in t.claims <==> ClaimKey(did, i) in s.claims)
    && (forall i: nat | ClaimKey(did, i) in s.claims :: t.claims[ClaimKey(did, i)] == s.claims[ClaimKey(did, i)])
  }

  /** Owner-only mutation: transactions none of which is sent by the owner of `did`
      leave its record, its counter and all of its claims exactly as they were. */
  lemma {:induction false} OnlyOwnerChangesDid(s: State, txs: seq<Tx>, did: string)
    requires did in s.dids
    requires forall j | 0 <= j < |txs| :: txs[j].caller != s.dids[did].owner
    ensures SameDidData(s, Run(s, txs), did)
    decreases |txs|
  {
    if txs != [] {
      var prefix := txs[..|txs| - 1];
      OnlyOwnerChangesDid(s, prefix, did);
      var before := Run(s, prefix);
      var tx := txs[|txs| - 1];
      assert tx.caller != before.dids[did].owner;
    }
  }
}
