# Receipt manager model

A Dafny model of the receipt manager of a blockchain runtime, plus the byte-layout and seat-split helpers of the same primitives crate.

While a contract executes, its host calls schedule future work as pending **receipts**. Each receipt is addressed to a receiver account, carries an ordered list of **actions**, and may wait for data produced by earlier pending receipts. The receipt manager is an append-only arena of these receipts. Each receipt is known by its position, the **receipt index**. `create_receipt` adds a node and its data edges: one `DataReceiver` route on each predecessor and one awaited data id on the new receipt. The `append_action_*` family builds one action each and pushes it onto an existing receipt. A side table records the gas-weight claims of weighted function calls.

Files:

- `wrappers.dfy`: `Option` and `Result`.
- `primitives.dfy`: machine integers as subset types (`u8`, `u64`, `u128`), `CryptoHash` (32 bytes), accounts, keys, access keys, the closed `Action` union, `DataReceiver` and the three host errors.
- `utf8.dfy`: well-formed UTF-8 as defined in section 4 of RFC 3629. Rust's `String::from_utf8` accepts exactly these byte strings.
- `receipt_manager.dfy` (module `Receipts`): the manager state and every operation. An operation is a pure function returning a `Step`: the manager as the Rust `&mut self` is left after the call, plus the call's result. So a call that fails after it has started mutating still shows its partial effect.
- `receipt_properties.dfy` (module `ReceiptProperties`): invariants and multi-call properties. It covers data-edge balance, the gas-weight table, action ordering and concrete scenarios, including the non-atomic `create_receipt`.
- `host_calls.dfy` (module `HostCalls`): a stream of host calls run one after another. The stream stops at the first error or panic. The module proves index stability and invariant preservation over any stream.
- `utils.dfy` (module `Utils`): `index_to_bytes`, `get_block_shard_id`, `create_nonce_with_nonce` and `get_num_seats_per_shard`.

Parameters standing for code outside the model:

- `decodeKey`: public-key decoding (`PublicKey::try_from_slice`), a partial decoder `seq<u8> -> Option<PublicKey>`.
- `hash`: the hash function used by `create_nonce_with_nonce`.

Behaviours of the code worth knowing, which the model states as written:

- `create_receipt` checks and mutates in one loop. If a valid predecessor comes before an invalid one, the valid one has already received its `DataReceiver` when the error is returned. An all-or-nothing version would check every index before touching any receipt, so a failure would change nothing. The model states what the code gives (`Receipts.CreateReceipt`): no receipt is pushed, but earlier predecessors are changed. `ReceiptProperties.CreateReceiptNotAtomic` exhibits this. `ReceiptProperties.CreateReceiptFailureLeavesDanglingRoutes` shows that such a failure leaves routes to a receipt that was never created.
- Data ids are all `CryptoHash::default()`. The source marks this as a placeholder: a call to `new_data_id()` is commented out next to a `TODO` (core/primitives/src/receipt_manager.rs:103-105), so fresh ids per route are the evident intent. The model uses one constant, `Receipts.PlaceholderDataId`. `ReceiptProperties.DataIdsCollide` shows two routes with the same id.
- An append to a missing receipt panics (`expect`) rather than returning an error. The model makes this a precondition: the index is in range, or the call's own validation fails. Validation fails first because the `?` runs while the action argument is built, before `append_action` is called. In `HostCalls` such a call ends the stream as `Panicked`.
- `get_num_seats_per_shard` with zero shards never runs its closure. It therefore returns an empty vector and does not divide by zero, so the model has no precondition there.
- `append_action_add_key_with_function_call` decodes the key before the method names. A bad key therefore reports `InvalidPublicKey` even when a method name is also invalid.

## Model

| member | source | states |
|---|---|---|
| Receipts.GetReceiptReceiver | core/primitives/src/receipt_manager.rs:77-79 | returns a receiver exactly when the index is below the number of receipts, and then it is that receipt's receiver |
| Receipts.AppendAction | core/primitives/src/receipt_manager.rs:81-94 | for an in-range index, the action is placed last in that receipt's list; the returned index is the old action count; no other receipt, route, input or gas claim changes |
| Receipts.FirstInvalid | core/primitives/src/receipt_manager.rs:102-108 | the position of the first predecessor index naming no receipt: all before it are valid, and the one at it is not |
| Receipts.RegisterDataReceiversSpec | core/primitives/src/receipt_manager.rs:101-113 | the predecessor loop adds one placeholder route per occurrence, for exactly the predecessors before the first invalid index; it yields one id per predecessor when all are valid, and otherwise the error for the first invalid index |
| Receipts.CreateReceipt | core/primitives/src/receipt_manager.rs:96-120 | succeeds iff every predecessor exists; on success it returns the old length and pushes one receipt with the given receiver, one input per predecessor, and no routes or actions; each predecessor gains one route to the new receiver per occurrence and is a strictly lower index; on failure it reports the first invalid index and pushes nothing, but earlier predecessors keep their new routes; gas claims never change |
| Receipts.AppendActionCreateAccount | core/primitives/src/receipt_manager.rs:122-125 | always succeeds and appends exactly `CreateAccount` to the named receipt |
| Receipts.AppendActionDeployContract | core/primitives/src/receipt_manager.rs:127-134 | always succeeds and appends exactly `DeployContract(code)` |
| Receipts.AppendActionFunctionCallWeight | core/primitives/src/receipt_manager.rs:136-165 | a non-UTF-8 method name fails with `InvalidMethodName` and changes nothing; otherwise a function call with gas equal to the prepaid gas and deposit equal to the attached deposit is appended; a positive weight adds one claim on (receipt, new action index), and a zero weight adds none |
| Receipts.AppendActionFunctionCall | core/primitives/src/receipt_manager.rs:167-186 | a non-UTF-8 method name fails with `InvalidMethodName` and changes nothing; otherwise the function call is appended with the prepaid gas and attached deposit, and the gas-weight table is untouched |
| Receipts.AppendActionTransfer | core/primitives/src/receipt_manager.rs:188-191 | always succeeds and appends exactly `Transfer(deposit)` |
| Receipts.AppendActionStake | core/primitives/src/receipt_manager.rs:193-208 | an undecodable key fails with `InvalidPublicKey` and changes nothing; otherwise it appends a stake with the decoded key |
| Receipts.AppendActionAddKeyWithFullAccess | core/primitives/src/receipt_manager.rs:210-225 | an undecodable key fails with `InvalidPublicKey` and changes nothing; otherwise it appends a full-access key with the given nonce |
| Receipts.AppendActionAddKeyWithFunctionCall | core/primitives/src/receipt_manager.rs:227-258 | a bad key fails with `InvalidPublicKey`; otherwise any non-UTF-8 method name fails with `InvalidMethodName`; both leave the manager unchanged; otherwise it appends a function-call key with the given allowance, receiver and method names |
| Receipts.AppendActionDeleteKey | core/primitives/src/receipt_manager.rs:260-273 | an undecodable key fails with `InvalidPublicKey` and changes nothing; otherwise it appends `DeleteKey` with the decoded key |
| Receipts.AppendActionDeleteAccount | core/primitives/src/receipt_manager.rs:275-285 | always succeeds and appends exactly `DeleteAccount(beneficiary)` |
| ReceiptProperties.RegisterDataReceiversCounts | core/primitives/src/receipt_manager.rs:101-113 | the predecessor loop adds one route per predecessor it got through and no awaited ids |
| ReceiptProperties.CreateReceiptKeepsEdgesBalanced | core/primitives/src/receipt_manager.rs:101-119 | a successful creation adds as many routes as awaited ids, so the total routes still equal the total awaited ids |
| ReceiptProperties.CreateReceiptFailureLeavesDanglingRoutes | core/primitives/src/receipt_manager.rs:102-112 | a failed creation adds one route per valid predecessor before the invalid index, and no awaited id |
| ReceiptProperties.ActionAppendedKeepsTotals | core/primitives/src/receipt_manager.rs:82-94 | appending an action changes neither route nor awaited-id totals |
| ReceiptProperties.ExtendKeepsWeightsWellFormed | core/primitives/src/receipt_manager.rs:50-60 | if receipts only grow and action lists only grow at the end, every recorded claim still names an existing function-call action |
| ReceiptProperties.CreateReceiptExtends | core/primitives/src/receipt_manager.rs:96-120 | creating a receipt, successful or not, keeps every existing receipt's actions |
| ReceiptProperties.FunctionCallWeightKeepsWeightsWellFormed | core/primitives/src/receipt_manager.rs:146-162 | after a weighted call, the gas table still holds only positive claims on existing function-call actions, at most one per action |
| ReceiptProperties.FunctionCallWeightRecordsClaimIffPositive | core/primitives/src/receipt_manager.rs:157-162 | the gas table grows by one exactly when the call succeeds with a positive weight, and otherwise stays the same size |
| ReceiptProperties.AppendAllInOrder | core/primitives/src/receipt_manager.rs:82-94 | appending actions one after another lists them in call order after earlier actions, and returns consecutive indices from the old count; nothing else changes |
| ReceiptProperties.EdgeScenario | core/primitives/src/receipt_manager.rs:101-119 | after `create([], alice)` and `create([0], carol)`, receipt 1 awaits one id, equal to the id of receipt 0's only route, and that route names carol |
| ReceiptProperties.TransferScenario | core/primitives/src/receipt_manager.rs:188-191 | after `create([], bob)` and a transfer of 100 to receipt 0, the receiver is bob and the actions are `[Transfer(100)]` |
| ReceiptProperties.WeightGatingScenario | core/primitives/src/receipt_manager.rs:157-162 | a zero weight records no claim; a weight of 5 records exactly the claim (0, 0, 5) |
| ReceiptProperties.InvalidMethodNameScenario | core/primitives/src/receipt_manager.rs:175-184 | the method name `[0xFF]` fails with `InvalidMethodName` and leaves the manager unchanged |
| ReceiptProperties.CreateReceiptNotAtomic | core/primitives/src/receipt_manager.rs:102-113 | `create([0, 9999], bob)` fails with index 9999 and pushes nothing, yet receipt 0 now routes to bob, and routes no longer match awaited ids |
| ReceiptProperties.DataIdsCollide | core/primitives/src/receipt_manager.rs:103-105 | two receipts waiting on receipt 0 are fed by two routes that carry the same data id |
| HostCalls.AppendCallEffect | core/primitives/src/receipt_manager.rs:122-285 | an append call either fails validation and leaves the receipts alone with a non-index error, or appends the action it built to the named receipt and nothing else |
| HostCalls.ApplyKeepsReceipts | core/primitives/src/receipt_manager.rs:96-120 | after any call, every existing receipt keeps its position and receiver, and its actions only grow; only a successful creation adds a receipt, at the old length, with the given receiver |
| HostCalls.ApplyKeepsWeightsWellFormed | core/primitives/src/receipt_manager.rs:146-162 | every call keeps the gas table well formed |
| HostCalls.ApplyKeepsEdgesBalanced | core/primitives/src/receipt_manager.rs:101-119 | every call except one failing with `InvalidReceiptIndex` keeps routes equal to awaited ids |
| HostCalls.RunIndexStability | core/primitives/src/receipt_manager.rs:115-119 | over any call stream, existing receipts keep their receivers; the k-th created receipt gets index old length + k and keeps the receiver it was created with |
| HostCalls.ReceiverOfEveryCreatedIndex | core/primitives/src/receipt_manager.rs:77-79 | from a fresh manager, `get_receipt_receiver(i)` returns the receiver given to the create call that returned `i`, and nothing for any index never returned |
| HostCalls.RunKeepsWeightsWellFormed | core/primitives/src/receipt_manager.rs:146-162 | no call stream breaks the gas table |
| HostCalls.RunKeepsEdgesBalanced | core/primitives/src/receipt_manager.rs:101-119 | routes stay equal to awaited ids over any stream, unless it stopped on an invalid receipt index |
| Utils.IndexToBytes | core/primitives/src/utils.rs:30-34 | exactly 8 bytes, whose little-endian reading is the input |
| Utils.IndexToBytesOnto | core/primitives/src/utils.rs:30-34 | every 8-byte string reads as a `u64` whose encoding is that string, so the encoding is a bijection |
| Utils.DecodeLeBytes | core/primitives/src/utils.rs:30-34 | encoding a value that fits in n bytes and reading it back gives the value |
| Utils.IndexToBytesInjective | core/primitives/src/utils.rs:30-34 | distinct indices have distinct encodings |
| Utils.GetBlockShardId | core/primitives/src/utils.rs:17-22 | 40 bytes: the block hash, then 8 bytes whose little-endian reading is the shard id |
| Utils.GetBlockShardIdInjective | core/primitives/src/utils.rs:17-22 | equal keys come from equal (block hash, shard id) pairs |
| Utils.CreateNonceWithNonce | core/primitives/src/utils.rs:24-28 | the nonce is the hash of the same 40-byte layout `get_block_shard_id` builds from the base hash and the salt |
| Utils.CreateNonceCollisionIsHashCollision | core/primitives/src/utils.rs:24-28 | equal nonces from two different (base, salt) pairs are a collision of the hash on two different 40-byte inputs |
| Utils.CreateNonceInjective | core/primitives/src/utils.rs:24-28 | when the hash does not collide on the two 40-byte inputs involved, equal nonces come from equal (base, salt) pairs |
| Utils.GetNumSeatsPerShard | core/primitives/src/utils.rs:128-140 | one entry per shard, including the empty result for zero shards |
| Utils.SeatsPerShardBalanced | core/primitives/src/utils.rs:131-137 | every entry is at least 1; entries never increase and any two differ by at most 1 |
| Utils.SeatsPerShardShape | core/primitives/src/utils.rs:131-137 | with at least as many seats as shards, the first `seats % shards` entries are `seats / shards + 1` and the rest `seats / shards`; with fewer seats, every entry is 1 |
| Utils.SeatsPerShardSum | core/primitives/src/utils.rs:176-183 | for at least one shard, the entries sum to `max(seats, shards)` |

## Left out

- Receipts.CreateReceipt: does not promise all-or-nothing validation, because the source interleaves validation and mutation (see above).
- Receipts.CreateReceipt: does not promise unique data ids, because every id is the `CryptoHash::default()` placeholder.
- Receipt indices returned by `create_receipt` and action indices returned by `append_action` are unbounded naturals. The `usize`/`u64` conversions assume a 64-bit target, and a `Vec` never holds 2^64 entries.
- The panic in `append_action` is a precondition of each append (and `Panicked` in `HostCalls`), not a modelled abort.
- Allocation failure in `Vec::push` is not modelled.
- The commented-out `into_receipts`, real data-id and receipt-id generation, and the proportional split of left-over gas among weighted calls: none of these exists in the modelled code. They belong to whoever drains the manager.
- The `protocol_feature_function_call_weight` compile-time gate: the gas-weight table and the weighted call are always present.
- Public-key Borsh decoding is not modelled. The decoder is a parameter (`decodeKey`).
- The hash function is not modelled. It is a parameter of `create_nonce_with_nonce`.
- `from_timestamp` and `to_timestamp` are left out because they depend on calendar types from an external library.
- `generate_random_string` is left out because it uses randomness.
- `Serializable` and `ser` are left out because they format JSON.
- `DisplayOption` and the `unwrap_or_return`/`unwrap_option_or_return` macros are left out because they only format and log.
- Everything outside the receipt manager and these `utils.rs` helpers is out of scope.
