/** The `did-registry` contract as an object: its three data maps are fields that
    every public call reads and updates in place. Each method is proved to return
    and store exactly what the matching function of RegistryState prescribes. */
module DidRegistry {
  import opened DidTypes
  import opened RegistryState

  class Registry {
    var dids: map<string, DidRecord>
    var claims: map<ClaimKey, ClaimRecord>
    var counters: map<string, nat>

    /** The contract's data as one value. */
    function Snapshot(): State
      reads this
    {
      State(dids, claims, counters)
    }

    ghost predicate Valid()
      reads this
    {
      WellFormed(Snapshot())
    }

    /** Deployment: all maps empty. */
    constructor ()
      ensures Valid() && Snapshot() == EMPTY
    {
      dids, claims, counters := map[], map[], map[];
    }

    method RegisterDid(caller: Principal, height: nat, did: string) returns (r: Result<bool>)
      requires Valid()
      modifies this
      ensures Valid()
      ensures Step(r, Snapshot()) == RegisterStep(old(Snapshot()), caller, height, did)
      ensures r.Err? ==> unchanged(this)
    {
      if did in dids {
        return Err(ERR_DID_EXISTS);
      }
      dids := dids[did := DidRecord(caller, height, height, true)];
      r := Ok(true);
    }

    method TransferDid(caller: Principal, height: nat, did: string, newOwner: Principal) returns (r: Result<bool>)
      requires Valid()
      modifies this
      ensures Valid()
      ensures Step(r, Snapshot()) == TransferStep(old(Snapshot()), caller, height, did, newOwner)
      ensures r.Err? ==> unchanged(this)
    {
      if did !in dids {
        return Err(ERR_DID_NOT_FOUND);
      }
      var record := dids[did];
      if caller != record.owner {
        return Err(ERR_NOT_AUTHORIZED);
      }
      dids := dids[did := record.(owner := newOwner, updatedAt := height)];
      r := Ok(true);
    }

    method AddClaim(caller: Principal, did: string, claimType: string, data: string, expiresAt: nat) returns (r: Result<nat>)
      requires Valid()
      modifies this
      ensures Valid()
      ensures Step(r, Snapshot()) == AddClaimStep(old(Snapshot()), caller, did, claimType, data, expiresAt)
      ensures r.Err? ==> unchanged(this)
    {
      if did !in dids {
        return Err(ERR_DID_NOT_FOUND);
      }
      if caller != dids[did].owner {
        return Err(ERR_NOT_AUTHORIZED);
      }
      var id := if did in counters then counters[did] else 0;
      claims := claims[ClaimKey(did, id) := ClaimRecord(claimType, caller, data, expiresAt, false)];
      counters := counters[did := id + 1];
      r := Ok(id);
    }

    method RevokeClaim(caller: Principal, did: string, claimId: nat) returns (r: Result<bool>)
      requires Valid()
      modifies this
      ensures Valid()
      ensures Step(r, Snapshot()) == RevokeStep(old(Snapshot()), caller, did, claimId)
      ensures r.Err? ==> unchanged(this)
    {
      if did !in dids {
        return Err(ERR_DID_NOT_FOUND);
      }
      if caller != dids[did].owner {
        return Err(ERR_NOT_AUTHORIZED);
      }
      var key := ClaimKey(did, claimId);
      if key !in claims {
        return Err(ERR_CLAIM_NOT_FOUND);
      }
      claims := claims[key := claims[key].(revoked := true)];
      r := Ok(true);
    }

    /** `is-claim-valid` never fails: an unknown key is simply not valid. */
    method IsClaimValid(did: string, claimId: nat, height: nat) returns (valid: bool)
      ensures valid == ClaimValid(Snapshot(), did, claimId, height)
    {
      var key := ClaimKey(did, claimId);
      if key !in claims {
        return false;
      }
      var claim := claims[key];
      valid := !claim.revoked && height < claim.expiresAt;
    }

    method GetDidInfo(did: string) returns (r: Result<DidRecord>)
      ensures r == DidInfo(Snapshot(), did)
    {
      if did !in dids {
        return Err(ERR_DID_NOT_FOUND);
      }
      r := Ok(dids[did]);
    }

    method GetClaim(did: string, claimId: nat) returns (r: Result<ClaimRecord>)
      ensures r == ClaimInfo(Snapshot(), did, claimId)
    {
      var key := ClaimKey(did, claimId);
      if key !in claims {
        return Err(ERR_CLAIM_NOT_FOUND);
      }
      r := Ok(claims[key]);
    }
  }
}
