# DID registry — a verified model of the `did-registry` contract

The `did-registry` Clarity contract is a registry of decentralized identifiers
(DIDs). A principal registers a DID string and becomes its owner. The owner may
transfer the DID to another principal. The owner may also attach claims to it:
each claim has a type, a payload, an expiry height and a revoked flag. A claim
can be revoked; this model lets the DID's current owner revoke it. That is a
modelling choice: in the tests the owner is always also the issuer (see
"## Left out"). Anyone may ask whether a claim is valid, and anyone may read a
DID record or a claim record.

The repository's only logic-bearing file is its Clarinet test suite,
`tests/did-registry.test.ts`; the contract's own Clarity source is not part of this
model. The model is the state machine that those tests pin down:

- `types.dfy` (`DidTypes`): principals (opaque, compared only for equality), the
  DID record (owner, created-at, updated-at, active), the claim record (claim-type,
  issuer, data, expires-at, revoked), the `(ok …)`/`(err …)` response and the
  error codes 100 (not authorised), 101 (DID exists), 102 (DID not found) and
  103 (claim not found).
- `registry_state.dfy` (`RegistryState`): the contract's three data maps as one
  value. These are the DID records, the claim records keyed by (DID, claim id),
  and the per-DID claim counter. Each public call is a function from the state
  before it to the response and the state after it. `WellFormed` is the
  invariant: every DID is active, and the claims of a DID are exactly the ids
  `0 .. n-1`, where `n` is its counter.
- `registry.dfy` (`DidRegistry.Registry`): the contract as an object whose map
  fields every call updates in place. There is one method per public function:
  `register-did`, `transfer-did`, `add-claim`, `revoke-claim`,
  `is-claim-valid`, `get-did-info` and `get-claim`. Each mutating method is
  proved to return and store exactly what the matching `RegistryState` function
  prescribes. A failed call leaves the object unchanged.
- `traces.dfy` (`RegistryTraces`): any sequence of transactions, each a call
  with its sender and block height. Lemmas over all sequences prove several
  rules. The invariant holds in every reachable state. The n-th successful
  `add-claim` on a DID returns id n-1. A registered DID can never be registered
  again. A revoked claim is never valid again. Transactions not sent by a DID's
  owner leave that DID's record and claims untouched.
- `scenarios.dfy` (`RegistryScenarios`): each test of the suite, replayed on a
  fresh `Registry`. The responses the suite expects are proved, with two
  exceptions. The second transfer of the transfer test returns ok(true), not the
  expected err(100) (see "## Findings"). The heights expected at lines 154-155
  are not proved (see "## Left out").

The sender and the block height come from the chain. Each transaction in
`RegistryTraces.Tx` carries both. Each operation takes only the ones it uses:
- `register-did` and `transfer-did` take `caller` and `height`.
- `add-claim` and `revoke-claim` take `caller` only.
- `is-claim-valid` takes `height` only.
- `get-did-info` and `get-claim` take neither.

Four choices are not fixed by the tests and are made here:
- `revoke-claim` authorises the DID's current owner. It checks the DID, then the
  caller's ownership, then the claim. A non-owner therefore gets 100 whatever
  state the claim is in.
- An owner's repeated revocation succeeds and changes nothing.
- Only `register-did` and `transfer-did` set updated-at.
- An unknown DID gives error 102 and an unknown claim gives error 103.

## Model

| member | source | states |
|---|---|---|
| `RegistryState.RegisterStep` | tests/did-registry.test.ts:12-23 | registration succeeds with ok(true) iff the DID is unregistered, storing owner = caller, created-at = updated-at = the height, active; otherwise err(101) and the state is unchanged; the invariant is preserved |
| `RegistryState.TransferStep` | tests/did-registry.test.ts:38-49 | err(102) for an unknown DID, err(100) for any caller but the owner, otherwise ok(true) with the new owner and updated-at = the height; failures change nothing; the invariant is preserved |
| `RegistryState.AddClaimStep` | tests/did-registry.test.ts:66-75 | err(102)/err(100) as for transfer; otherwise returns the DID's next claim id, stores the claim with issuer = caller and revoked = false, and advances only that DID's counter by one; the id was unused; failures change nothing |
| `RegistryState.RevokeStep` | tests/did-registry.test.ts:78-90 | err(102) for an unknown DID, err(100) for a non-owner before the claim is looked at, err(103) for an unknown claim, otherwise ok(true) and only that claim becomes revoked; failures change nothing |
| `DidRegistry.Registry.constructor` | tests/did-registry.test.ts:6 | a freshly deployed registry holds no DIDs, claims or counters |
| `DidRegistry.Registry.RegisterDid` | tests/did-registry.test.ts:12-23 | the in-place update of the maps and the response are exactly those of RegisterStep; a refused call leaves the object unchanged |
| `DidRegistry.Registry.TransferDid` | tests/did-registry.test.ts:38-49 | the in-place update and the response are exactly those of TransferStep; a refused call leaves the object unchanged |
| `DidRegistry.Registry.AddClaim` | tests/did-registry.test.ts:66-75 | the in-place update and the response are exactly those of AddClaimStep; a refused call leaves the object unchanged |
| `DidRegistry.Registry.RevokeClaim` | tests/did-registry.test.ts:78-90 | the in-place update and the response are exactly those of RevokeStep; a refused call leaves the object unchanged |
| `DidRegistry.Registry.IsClaimValid` | tests/did-registry.test.ts:116-121 | the answer is `ClaimValid` of the stored state: true iff the claim exists, is not revoked and the height is below its expires-at; an unknown claim is just not valid |
| `DidRegistry.Registry.GetDidInfo` | tests/did-registry.test.ts:148-157 | the answer is `DidInfo` of the stored state: the stored DID record when the DID is registered, err(102) otherwise |
| `DidRegistry.Registry.GetClaim` | tests/did-registry.test.ts:160-169 | the answer is `ClaimInfo` of the stored state: the stored claim record when the (DID, id) pair exists, err(103) otherwise |
| `RegistryTraces.RunKeepsWellFormed` | tests/did-registry.test.ts:12-90 | any sequence of calls preserves the invariant: all DIDs active, the claims of each DID exactly the ids below its counter |
| `RegistryTraces.ReachableIsWellFormed` | tests/did-registry.test.ts:6-14 | every state reachable from deployment satisfies the invariant |
| `RegistryTraces.IssuedIdsAreConsecutive` | tests/did-registry.test.ts:66-75 | over any call sequence, the ids successful add-claims on a DID return are its counter, counter+1, …, and the counter ends just past the last |
| `RegistryTraces.ClaimIdsCountFromZero` | tests/did-registry.test.ts:66-75 | from deployment, the n-th successful add-claim on a DID returns id n-1, so ids start at 0 per DID and are never reused |
| `RegistryTraces.ApplyRetains` | tests/did-registry.test.ts:12-90 | no single call removes a DID, changes its created-at, removes a claim, alters a claim's type, issuer, data or expiry, or clears a revoked flag |
| `RegistryTraces.RunRetains` | tests/did-registry.test.ts:12-90 | the same holds over any call sequence from a well-formed state |
| `RegistryTraces.RegistrationIsUnique` | tests/did-registry.test.ts:18-23 | once registered, a DID's registration by anyone, after any calls, returns err(101) and changes nothing |
| `RegistryTraces.RevocationIsFinal` | tests/did-registry.test.ts:77-90 | a revoked claim remains stored and is never valid again at any height, whatever calls follow |
| `RegistryTraces.RevokedClaimIsInvalid` | tests/did-registry.test.ts:77-82 | after a successful revoke-claim the claim is not valid at any height |
| `RegistryTraces.AddedClaimIsValidUntilExpiry` | tests/did-registry.test.ts:107-121 | a claim just added is valid exactly at heights below its expires-at, and get-claim returns its type and data verbatim with issuer = caller, not revoked |
| `RegistryTraces.RecordKeptWithoutTransfer` | tests/did-registry.test.ts:133-157 | calls none of which transfers a DID leave its record (owner, created-at, updated-at, active) exactly as it was |
| `RegistryTraces.RegisteredDidInfo` | tests/did-registry.test.ts:133-157 | after registration and any later calls that do not transfer the DID (such as the add-claim at lines 138-145), get-did-info reports owner = the registering caller, active, and created-at = updated-at = the registration height |
| `RegistryTraces.OnlyOwnerChangesDid` | tests/did-registry.test.ts:44-49 | calls none of which comes from a DID's owner leave its record, its counter and all its claims exactly as they were |
| `RegistryScenarios.RegisterTwice` | tests/did-registry.test.ts:5-24 | first registration ok(true), second err(101), and the record is still the first registration's |
| `RegistryScenarios.TransferThenFormerOwnerRetries` | tests/did-registry.test.ts:26-50 | the owner's transfer gives ok(true); the former owner's later transfer gives err(100) and the new owner keeps the DID |
| `RegistryScenarios.TransferThenNewOwnerTransfers` | tests/did-registry.test.ts:44-49 | with the sender the test uses at line 46 (the owner after line 39) the transfer returns ok(true), not the expected err(100) |
| `RegistryScenarios.AddAndRevokeClaim` | tests/did-registry.test.ts:52-91 | first claim id is 0, the owner's revoke gives ok(true), a non-owner's revoke of the revoked claim gives err(100), and the claim is then not valid |
| `RegistryScenarios.ClaimValidBeforeExpiry` | tests/did-registry.test.ts:93-122 | a claim added with expiry 5000 is valid at every height below 5000 |
| `RegistryScenarios.DidAndClaimDetails` | tests/did-registry.test.ts:124-170 | get-did-info gives owner = registering sender, active, created-at = updated-at; get-claim gives type "profile", data "user-profile", issuer = adding sender, not revoked |

## Findings

| source | as written | input that shows it | evidently intended | confidence | as-written member | corrected member |
|---|---|---|---|---|---|---|
| tests/did-registry.test.ts:44-49 | the "unauthorized" transfer is sent by wallet2, which became the owner at line 39, and err(100) is expected | wallet1 ≠ wallet2: wallet1 registers, wallet1 transfers to wallet2, then wallet2 transfers back | an attempt by a principal that does not own the DID at that point, which gets err(100) under the owner-only rule. The comment at line 44 also names wallet2, so it does not settle which fix was meant. One possible fix is for the former owner wallet1 to retry after the transfer (modelled here). Another is for wallet2 to make the attempt before the transfer at line 39 | high, not executed | `RegistryScenarios.TransferThenNewOwnerTransfers` | `RegistryScenarios.TransferThenFormerOwnerRetries` |

## Left out

- The Clarinet harness (`Chain`, `mineBlock`, `Tx.contractCall`, receipts, the `types.*` encoders) and accounts: they only execute the contract. Each transaction carries the sender and the block height. Each operation takes only the ones it uses.
- Blocks, mining, fees: the registry sees one sender and one height per call. Heights are arbitrary naturals; nothing assumes they grow.
- The length bounds of Clarity `string-ascii` arguments: DIDs, claim types and data are unbounded strings.
- The 128-bit width of Clarity `uint`: claim ids, counters and heights are unbounded naturals. A counter overflow would abort the call, and no test comes near one.
- The comparison of created-at and updated-at with the query block's height at lines 154-155: those lines do not parse as TypeScript, and the registration happened in an earlier block. The model states created-at = updated-at = the registration height.
- `RegistryState.RevokeStep`: authorising the DID's current owner, rather than the claim's issuer, is a modelling choice. In every test wallet1 is both owner and issuer, so the tests do not tell the two rules apart. The comment at tests/did-registry.test.ts:77 ("with the correct issuer") suggests an issuer check. The two rules differ after a transfer. An issuer check would also have to read the claim first, so a non-owner revoking an unknown claim would get 103 instead of 100. `DidRegistry.Registry.RevokeClaim` follows the same choice.
- Error codes 102 and 103, the order of checks in `revoke-claim`, idempotent re-revocation by the owner, and updated-at being set only by registration and transfer: none of these appears in the tests. They are modelling choices stated in the contracts above.
- `add-claim` stores expires-at verbatim, even when it is already past: nothing in the tests validates it.
- Deactivation: no call sets `active` to false, so the model keeps it true (part of the invariant).
