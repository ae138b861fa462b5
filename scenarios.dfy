/** The call sequences of the contract's test suite, replayed on a fresh Registry
    object. Each block the suite mines becomes one method call with its own sender
    and height; what each method ensures is the response the registry gives. */
module RegistryScenarios {
  import opened DidTypes
  import opened RegistryState
  import opened DidRegistry

  /** Registering a DID succeeds once; a second registration of the same DID,
      even by the same sender, is refused with ERR_DID_EXISTS. */
  method RegisterTwice(wallet1: Principal, h1: nat, h2: nat) returns (first: Result<bool>, second: Result<bool>, info: Result<DidRecord>)
    ensures first == Ok(true)
    ensures second == Err(ERR_DID_EXISTS)
    ensures info == Ok(DidRecord(wallet1, h1, h1, true))
  {
    var registry := new Registry();
    first := registry.RegisterDid(wallet1, h1, "did:example:123");
    second := registry.RegisterDid(wallet1, h2, "did:example:123");
    info := registry.GetDidInfo("did:example:123");
  }

  /** The owner's transfer succeeds; afterwards the former owner is no longer
      authorised to transfer the DID, and the new owner stays the owner. */
  method TransferThenFormerOwnerRetries(wallet1: Principal, wallet2: Principal, h1: nat, h2: nat, h3: nat)
    returns (transfer: Result<bool>, retry: Result<bool>, info: Result<DidRecord>)
    requires wallet1 != wallet2
    ensures transfer == Ok(true)
    ensures retry == Err(ERR_NOT_AUTHORIZED)
    ensures info == Ok(DidRecord(wallet2, h1, h2, true))
  {
    var registry := new Registry();
    var _ := registry.RegisterDid(wallet1, h1, "did:example:456");
    transfer := registry.TransferDid(wallet1, h2, "did:example:456", wallet2);
    retry := registry.TransferDid(wallet1, h3, "did:example:456", wallet1);
    info := registry.GetDidInfo("did:example:456");
  }

  /** The same sequence with the sender the suite actually uses for the second
      transfer: that sender already owns the DID, so the registry accepts the call
      and the expected ERR_NOT_AUTHORIZED cannot be what an owner-only registry returns. */
  method TransferThenNewOwnerTransfers(wallet1: Principal, wallet2: Principal, h1: nat, h2: nat, h3: nat)
    returns (transfer: Result<bool>, second: Result<bool>)
    requires wallet1 != wallet2
    ensures transfer == Ok(true)
    ensures second == Ok(true)
  {
    var registry := new Registry();
    var _ := registry.RegisterDid(wallet1, h1, "did:example:456");
    transfer := registry.TransferDid(wallet1, h2, "did:example:456", wallet2);
    second := registry.TransferDid(wallet2, h3, "did:example:456", wallet1);
  }

  /** The first claim of a DID gets id 0; the owner revokes it; a non-owner's
      revocation of the (already revoked) claim is refused with ERR_NOT_AUTHORIZED,
      and the claim stays revoked, so it is not valid at any later height. */
  method AddAndRevokeClaim(wallet1: Principal, wallet2: Principal, h1: nat, h4: nat)
    returns (add: Result<nat>, revoke: Result<bool>, foreignRevoke: Result<bool>, valid: bool)
    requires wallet1 != wallet2
    ensures add == Ok(0)
    ensures revoke == Ok(true)
    ensures foreignRevoke == Err(ERR_NOT_AUTHORIZED)
    ensures !valid
  {
    var registry := new Registry();
    var _ := registry.RegisterDid(wallet1, h1, "did:example:789");
    add := registry.AddClaim(wallet1, "did:example:789", "email-verification", "user@example.com", 5000);
    revoke := registry.RevokeClaim(wallet1, "did:example:789", 0);
    foreignRevoke := registry.RevokeClaim(wallet2, "did:example:789", 0);
    valid := registry.IsClaimValid("did:example:789", 0, h4);
  }

  /** A claim just added with expiry 5000 is valid at any earlier height. */
  method ClaimValidBeforeExpiry(wallet1: Principal, h1: nat, h3: nat) returns (valid: bool)
    requires h3 < 5000
    ensures valid
  {
    var registry := new Registry();
    var _ := registry.RegisterDid(wallet1, h1, "did:example:101");
    var _ := registry.AddClaim(wallet1, "did:example:101", "membership", "premium-member", 5000);
    valid := registry.IsClaimValid("did:example:101", 0, h3);
  }

  /** `get-did-info` reports the registering sender as owner of an active DID whose
      creation and update heights agree; `get-claim` returns the stored type, data
      and expiry verbatim, with the adding sender as issuer and not revoked. */
  method DidAndClaimDetails(wallet1: Principal, h1: nat) returns (info: Result<DidRecord>, claim: Result<ClaimRecord>)
    ensures info.Ok? && info.value.owner == wallet1 && info.value.active
    ensures info.value.createdAt == info.value.updatedAt == h1
    ensures claim == Ok(ClaimRecord("profile", wallet1, "user-profile", 10000, false))
  {
    var registry := new Registry();
    var _ := registry.RegisterDid(wallet1, h1, "did:example:202");
    var _ := registry.AddClaim(wallet1, "did:example:202", "profile", "user-profile", 10000);
    info := registry.GetDidInfo("did:example:202");
    claim := registry.GetClaim("did:example:202", 0);
  }
}
