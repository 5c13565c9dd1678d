# Real-estate registry contract, modelled in Dafny

This project models `RealEstateContract`, a small ink! smart contract that
runs a property registry and marketplace. Its storage holds:

- a governance account and a flag that records whether it has been claimed;
- a property counter;
- four mappings keyed by `PropertyId` (a `u32`): owner, name, price and
  approved flag.

Its messages claim governance, list a property, approve a listing and buy a
property. It also has two read-only queries, `is_governance` and `owner_of`.

Each message is modelled as a pure function from (storage, caller, arguments)
to (new storage, return value). The caller is a parameter. The ink! runtime
supplies it through `Self::env().caller()`. Each ink! `Mapping` is a Dafny
`map`. It is read with the source's default-on-miss: a missing price reads 0,
a missing approval reads false, and a missing owner reads as the all-zero
account.

Files:

- `types.dfy` (module `Types`): `u32`, `PropertyId` and the 32-byte
  `AccountId`, whose default is all zeros. Also `Option` with `UnwrapOr`, the
  contract's `Error` and `Result`, and `Get`, which reads a mapping.
- `contract.dfy` (module `RealEstate`): the storage record `Contract`, the
  constructor `New`, the messages `GetGovtId`, `SellProperty`,
  `ApproveProperty` and `BuyProperty`, and the queries `IsGovernance` and
  `OwnerOf`. It also holds `EntryAt`, which shows everything the four
  mappings store at one key, and lemmas about pairs of messages.
- `calls.dfy` (module `Calls`): `Dispatch` routes one call to its message.
  `Run` executes a sequence of calls, the way the runtime executes them: one
  at a time, each one whole. The lemmas here hold for every sequence of calls.
- `scenario.dfy` (module `Scenario`): a ten-call walk-through with four
  accounts, proved step by step. It holds for any choice of the four
  accounts.

## The code as written

The model follows the code, including where it departs from how the
contract is usually described:

- `sell_property` writes the listing at key `property_count` and returns that
  key, but it never increments `property_count`. So `property_count` is 0 in
  every state reachable from `new` (`Calls.ReachableFromNew`), and every
  listing gets id 0. Each new listing overwrites the previous one: its owner,
  name and price, and it resets its approval to false
  (`RealEstate.RelistingOverwrites`, `RealEstate.RelistingRevokesApproval`,
  `Scenario.HouseSale`). Ids do not increase and approval is not permanent.
  Listed names and prices are not immutable.
- A missing key reads as a default, so a property that was never listed looks
  free and unapproved. Governance can approve it, and anyone can then buy it
  for 0 (`RealEstate.UnlistedIdCanBeBought`).
- Until someone calls `get_govt_id`, governance is the all-zero default
  account, and that account may approve
  (`RealEstate.DefaultAccountGovernsUntilClaimed`).
- The closure that `new` passes to `initialize_contract` builds a struct and
  discards it because of a trailing `;`. The storage is therefore default
  initialised. Those defaults equal the field values the struct lists, so
  `RealEstate.New` is the same either way.

## Model

| member | source | states |
|---|---|---|
| RealEstate.EntriesDetermineContract | lib.rs:22-30 | Two storages with the same governance, flag and counter, and the same stored entry at every key, are equal. So the per-key frame conditions below fix the whole storage. |
| RealEstate.New | lib.rs:34-45 | A new contract has governance unclaimed and a counter of 0. Only the default account is governance. Every key is empty, so it reads as owner = default account, price 0 and unapproved. |
| RealEstate.GetGovtId | lib.rs:49-55 | When governance is unclaimed, the caller becomes governance and is returned. When it is claimed, nothing changes and the stored governance is returned. Either way the flag is set afterwards, the result is governance, and no mapping or counter changes. |
| RealEstate.SellProperty | lib.rs:58-66 | The caller, name, price and `approved = false` are written at key `property_count`, and that key is returned. The counter, governance, flag and every other key are unchanged. |
| RealEstate.ApproveProperty | lib.rs:69-75 | Fails with `NotTheGovernanceError` exactly when the caller is not governance, and then the storage is unchanged. Otherwise it returns `Ok("Approved")` and sets only the approval flag at `id` to true, even if `id` was never listed. |
| RealEstate.BuyProperty | lib.rs:78-88 | `PriceTooLess` exactly when the stored price (default 0) exceeds the offer. `PropertyNotApproved` exactly when the offer covers the price but the stored flag (default false) is not set. Success exactly when both checks pass. Errors change nothing. On success the caller owns `id` and only the owner entry at `id` changes. |
| RealEstate.OwnerOf | lib.rs:99-101 | Returns the stored owner, or the default account when none is stored. |
| RealEstate.GovernanceFirstWriteWins | lib.rs:49-55 | A second `get_govt_id`, by any caller, returns the same identity and leaves the storage as the first call left it. If governance was unclaimed, that identity is the first caller's. |
| RealEstate.DefaultAccountGovernsUntilClaimed | lib.rs:69-72 | On a new contract, approval succeeds exactly for the all-zero default account. |
| RealEstate.NewContractRefusesPurchases | lib.rs:80-85 | On a new contract every purchase fails with `PropertyNotApproved`: the price check passes at price 0 and the approval check fails. |
| RealEstate.RelistingOverwrites | lib.rs:58-66 | Two listings in a row return the same id. The resulting storage is the same as if only the second listing had been made. |
| RealEstate.RelistingRevokesApproval | lib.rs:59-65 | List, approve, then list again: the second listing gets the same id, that id is no longer approved, and the second lister owns it. |
| RealEstate.ApproveIdempotent | lib.rs:69-75 | Approving the same id twice, by the same caller, gives the same result and storage as approving it once. |
| RealEstate.ApprovedPropertyIsPurchasable | lib.rs:73-88 | After governance approves `id`, any offer of at least the stored price buys it, and the buyer becomes owner. |
| RealEstate.PurchaseRepeatable | lib.rs:78-88 | After one successful purchase, another buyer whose offer covers the unchanged price also succeeds and becomes owner. |
| RealEstate.UnlistedIdCanBeBought | lib.rs:80-86 | For a key with no entries, a governance approval followed by an offer of 0 succeeds. The buyer then owns an entry that has no name and no price. |
| RealEstate.IsGovernanceAfterGetGovtId | lib.rs:90-96 | After `get_govt_id`, `is_governance` holds of exactly the identity the call returned. |
| Calls.Dispatch | lib.rs:48-101 | The queries leave the storage unchanged. Only `get_govt_id` touches governance, and a claimed governance never changes. No message changes the counter. `get_govt_id` replies with the resulting governance, and `sell_property` replies with the counter. |
| Calls.DispatchRevokesOnlyByListing | lib.rs:58-88 | If a call turns an approved id into an unapproved one, the call is `sell_property` and the id is the counter's key. |
| Calls.DispatchKeepsOtherNames | lib.rs:58-66 | No call changes the name stored at any key other than the counter's. |
| Calls.DispatchPreservesConsistency | lib.rs:58-88 | If every listed key holds a price, an owner and an approval flag before a call, that is still true after it. |
| Calls.Run | lib.rs:48-101 | A sequence of calls gives one reply per call. It leaves the counter as it was, and it keeps a claimed governance unchanged. |
| Calls.RunConcat | lib.rs:48-101 | Running two sequences of calls one after the other gives the same storage and replies as running them joined together. |
| Calls.FirstGovtIdCallerGoverns | lib.rs:49-55 | Starting unclaimed, governance is claimed after a run exactly when the run calls `get_govt_id`. It is then the first such caller; otherwise it is unchanged. |
| Calls.GovtIdRepliesAgree | lib.rs:49-55 | In any run, every `get_govt_id` reply is the governance at the end of the run, whoever called. |
| Calls.ListingsShareOneId | lib.rs:58-66 | In any run, every `sell_property` returns the same id: the counter at the start of the run. |
| Calls.ListingsStayAtOneKey | lib.rs:58-66 | A run adds names only at the starting counter's key. |
| Calls.RunPreservesConsistency | lib.rs:58-88 | If every listed key holds a price, an owner and an approval flag, that stays true after any run. |
| Calls.ApprovalOnlyRevokedByRelisting | lib.rs:58-75 | If an approved id is unapproved after a run, it is the counter's key and the run contains a `sell_property`. |
| Calls.ReachableFromNew | lib.rs:34-66 | From `new`, after any run, the counter is 0, every listing returned 0, names exist only at key 0, and every listed key has all four entries. |
| Scenario.HouseSale | lib.rs:48-101 | A ten-call run from `new`, for any four accounts: claim, list, approve, buy, query, low offer, relist, two refused purchases, and a query. It produces the replies listed in `HouseSaleReplies`. The relisting returns id 0 again, and the run ends with only the unapproved flat stored at key 0. |

## Left out

- ink! attributes and macros (`#[ink::contract]`, `#[ink(message)]`,
  `SpreadAllocate`) and the `initialize_contract` plumbing: only their
  effect is modelled, which is default-initialised storage.
- SCALE `Encode`/`Decode`/`TypeInfo` derives and the storage layout:
  serialisation is handled by the framework.
- `Self::env().caller()`: the caller is an explicit, trusted parameter. The
  runtime environment is not modelled.
- Property names are stored as opaque strings and never inspected.
- Value transfer: the price is only compared, and nothing is paid.
- Revert-on-error semantics of the runtime: no error path in the contract
  writes storage before it returns, so storage is unchanged on every error
  whether or not the runtime reverts.
- Counter overflow: `property_count` is a `u32`, but the code never writes it,
  so wrap-around cannot occur.
- `IsGovernance`: it has no contract of its own, because it is a single
  comparison. Its meaning is stated by `RealEstate.New`,
  `RealEstate.IsGovernanceAfterGetGovtId` and
  `RealEstate.DefaultAccountGovernsUntilClaimed`.
