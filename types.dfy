/** Values the DID registry stores and returns: principals, the two record kinds,
    the key of a claim, the result of a public call and its error codes. */
module DidTypes {

  /** The caller of a contract call (a Clarity principal). The registry only
      compares principals for equality, so the type is left opaque. */
  type Principal(==)

  /** Caller is not the owner of the DID the call would change. */
  const ERR_NOT_AUTHORIZED: nat := 100
  /** `register-did` on a DID that is already registered. */
  const ERR_DID_EXISTS: nat := 101
  /** The DID named by the call is not registered (a modelling choice: no test shows it). */
  const ERR_DID_NOT_FOUND: nat := 102
  /** No claim with this id under this DID (a modelling choice: no test shows it). */
  const ERR_CLAIM_NOT_FOUND: nat := 103

  /** The response of a public call: `(ok value)` or `(err code)`. */
  datatype Result<T> = Ok(value: T) | Err(code: nat)

  /** What the registry keeps per DID. */
  datatype DidRecord = DidRecord(owner: Principal, createdAt: nat, updatedAt: nat, active: bool)

  /** Claims are stored under the pair (DID, claim id). */
  datatype ClaimKey = ClaimKey(did: string, claimId: nat)

  /** What the registry keeps per claim. */
  datatype ClaimRecord = ClaimRecord(claimType: string, issuer: Principal, data: string, expiresAt: nat, revoked: bool)
}
