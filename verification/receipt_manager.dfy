/**
  The receipt manager: an append-only arena of pending action receipts built
  up by one contract execution. Each entry is a receiver account plus its
  outgoing data routes, incoming data ids and ordered actions; a side table
  records gas-weight claims of function calls.

  Every operation is a function from the manager to a `Step`: the manager as
  the Rust `&mut self` is left after the call, and what the call returns.
 */
module Receipts {
  import opened Wrappers
  import opened Primitives
  import opened Utf8

  datatype ReceiptMetadata = ReceiptMetadata(
    /** Where to route this receipt's output data. */
    outputDataReceivers: seq<DataReceiver>,
    /** The data this receipt waits for before it runs. */
    inputDataIds: seq<CryptoHash>,
    /** What the receipt does once all inputs arrived, in append order. */
    actions: seq<Action>)

  datatype PendingReceipt = PendingReceipt(receiverId: AccountId, metadata: ReceiptMetadata)

  datatype FunctionCallActionIndex = FunctionCallActionIndex(receiptIndex: nat, actionIndex: nat)

  /** A function call asking for a share of the gas left over at the end of the execution. */
  datatype GasWeightClaim = GasWeightClaim(index: FunctionCallActionIndex, weight: u64)

  datatype ReceiptManager = ReceiptManager(
    actionReceipts: seq<PendingReceipt>,
    gasWeights: seq<GasWeightClaim>)

  /** The manager after a call, and the call's own result. */
  datatype Step<+T> = Step(manager: ReceiptManager, result: Result<T, HostError>)

  /** Every data id is the default hash; real id generation is still to be written. */
  const PlaceholderDataId: CryptoHash := DefaultHash

  /** The manager a fresh execution starts with (`#[derive(Default)]`). */
  const EmptyManager: ReceiptManager := ReceiptManager([], [])

  function Repeat<T>(x: T, n: nat): (r: seq<T>)
    ensures |r| == n
    ensures forall i :: 0 <= i < n ==> r[i] == x
  {
    seq(n, _ => x)
  }

  /** How often `j` occurs in `indices`. */
  function Occurrences(indices: seq<u64>, j: nat): nat
  {
    if |indices| == 0 then 0
    else (if indices[0] == j then 1 else 0) + Occurrences(indices[1..], j)
  }

  // ----- query -----

  /** `get_receipt_receiver`: the receiver of an existing receipt, nothing for any other index. */
  function GetReceiptReceiver(m: ReceiptManager, receiptIndex: u64): (r: Option<AccountId>)
    ensures r.Some? <==> receiptIndex < |m.actionReceipts|
    ensures r.Some? ==> r.value == m.actionReceipts[receiptIndex].receiverId
  {
    if receiptIndex < |m.actionReceipts| then Some(m.actionReceipts[receiptIndex].receiverId) else None
  }

  // ----- appending one action -----

  /**
    Receipt `i` gained exactly the action `a` at the end of its action list,
    and nothing else in the receipt arena changed.
   */
  ghost predicate ActionAppended(before: seq<PendingReceipt>, after: seq<PendingReceipt>, i: nat, a: Action)
  {
    && |after| == |before|
    && i < |before|
    && (forall j :: 0 <= j < |before| && j != i ==> after[j] == before[j])
    && after[i].receiverId == before[i].receiverId
    && after[i].metadata.outputDataReceivers == before[i].metadata.outputDataReceivers
    && after[i].metadata.inputDataIds == before[i].metadata.inputDataIds
    && after[i].metadata.actions == before[i].metadata.actions + [a]
  }

  /** A successful append of `a` to receipt `i` that leaves the gas-weight table alone. */
  ghost predicate AppendedOnly(before: ReceiptManager, after: ReceiptManager, i: nat, a: Action)
  {
    ActionAppended(before.actionReceipts, after.actionReceipts, i, a) && after.gasWeights == before.gasWeights
  }

  function WithAction(p: PendingReceipt, a: Action): PendingReceipt
  {
    p.(metadata := p.metadata.(actions := p.metadata.actions + [a]))
  }

  /**
    `append_action`: pushes `action` onto the receipt and returns the index it
    landed at. An out-of-range receipt index panics in the source.
   */
  function AppendAction(m: ReceiptManager, receiptIndex: u64, action: Action): (r: (ReceiptManager, nat))
    requires receiptIndex < |m.actionReceipts|
    ensures AppendedOnly(m, r.0, receiptIndex, action)
    ensures r.1 == |m.actionReceipts[receiptIndex].metadata.actions|
    ensures r.0.actionReceipts[receiptIndex].metadata.actions[r.1] == action
  {
    var receipts := m.actionReceipts;
    (m.(actionReceipts := receipts[receiptIndex := WithAction(receipts[receiptIndex], action)]),
     |receipts[receiptIndex].metadata.actions|)
  }

  // ----- creating a receipt -----

  /** The position of the first index that names no receipt, or `|indices|` when all do. */
  function FirstInvalid(indices: seq<u64>, count: nat): (k: nat)
    ensures k <= |indices|
    ensures forall i :: 0 <= i < k ==> indices[i] < count
    ensures k < |indices| ==> indices[k] >= count
  {
    if |indices| == 0 then 0
    else if indices[0] >= count then 0
    else 1 + FirstInvalid(indices[1..], count)
  }

  /**
    The arena `after` is `before` with one placeholder `DataReceiver` for
    `receiverId` appended to receipt `j` per occurrence of `j` in `indices`,
    and nothing else changed.
   */
  ghost predicate Registered(before: seq<PendingReceipt>, after: seq<PendingReceipt>, indices: seq<u64>, receiverId: AccountId)
  {
    var route := DataReceiver(PlaceholderDataId, receiverId);
    && |after| == |before|
    && forall j :: 0 <= j < |before| ==>
      && after[j].receiverId == before[j].receiverId
      && after[j].metadata.inputDataIds == before[j].metadata.inputDataIds
      && after[j].metadata.actions == before[j].metadata.actions
      && after[j].metadata.outputDataReceivers
         == before[j].metadata.outputDataReceivers + Repeat(route, Occurrences(indices, j))
  }

  function WithOutput(p: PendingReceipt, d: DataReceiver): PendingReceipt
  {
    p.(metadata := p.metadata.(outputDataReceivers := p.metadata.outputDataReceivers + [d]))
  }

  /**
    The loop of `create_receipt`: for each predecessor in order, fail on an
    index that names no receipt, otherwise push a `DataReceiver` onto it and
    collect the data id. Validation and mutation interleave, so the receipts
    returned with an error already carry the routes of the valid predecessors
    listed before the invalid one.
   */
  function RegisterDataReceivers(receipts: seq<PendingReceipt>, indices: seq<u64>, receiverId: AccountId)
    : (r: (seq<PendingReceipt>, Result<seq<CryptoHash>, HostError>))
    decreases |indices|
  {
    if |indices| == 0 then (receipts, Ok([]))
    else if indices[0] >= |receipts| then (receipts, Err(InvalidReceiptIndex(indices[0])))
    else
      var p := indices[0];
      var updated := receipts[p := WithOutput(receipts[p], DataReceiver(PlaceholderDataId, receiverId))];
      var tail := RegisterDataReceivers(updated, indices[1..], receiverId);
      (tail.0, if tail.1.Ok? then Ok([PlaceholderDataId] + tail.1.value) else tail.1)
  }

  lemma RepeatConcat<T>(x: T, a: nat, b: nat)
    ensures Repeat(x, a) + Repeat(x, b) == Repeat(x, a + b)
  {
  }

  lemma {:induction false} OccurrencesConcat(s: seq<u64>, t: seq<u64>, j: nat)
    ensures Occurrences(s + t, j) == Occurrences(s, j) + Occurrences(t, j)
    decreases |s|
  {
    if |s| == 0 {
      assert s + t == t;
    } else {
      assert (s + t)[1..] == s[1..] + t;
      OccurrencesConcat(s[1..], t, j);
    }
  }

  lemma RegisteredNothing(receipts: seq<PendingReceipt>, receiverId: AccountId)
    ensures Registered(receipts, receipts, [], receiverId)
  {
    forall j | 0 <= j < |receipts|
      ensures receipts[j].metadata.outputDataReceivers
              == receipts[j].metadata.outputDataReceivers + Repeat(DataReceiver(PlaceholderDataId, receiverId), 0)
    {
    }
  }

  /** Registrations compose: routes added in two rounds are the routes of both index lists. */
  lemma RegisteredTrans(a: seq<PendingReceipt>, b: seq<PendingReceipt>, c: seq<PendingReceipt>,
                        s: seq<u64>, t: seq<u64>, receiverId: AccountId)
    requires Registered(a, b, s, receiverId) && Registered(b, c, t, receiverId)
    ensures Registered(a, c, s + t, receiverId)
  {
    var d := DataReceiver(PlaceholderDataId, receiverId);
    forall j | 0 <= j < |a|
      ensures c[j].metadata.outputDataReceivers
              == a[j].metadata.outputDataReceivers + Repeat(d, Occurrences(s + t, j))
    {
      OccurrencesConcat(s, t, j);
      RepeatConcat(d, Occurrences(s, j), Occurrences(t, j));
    }
  }

  /**
    What the predecessor loop does: with `k` the position of the first
    invalid index, exactly the predecessors before `k` gain their routes; the
    loop returns one placeholder id per predecessor when `k` is past the end
    and the error for the index at `k` otherwise.
   */
  lemma {:induction false} RegisterDataReceiversSpec(receipts: seq<PendingReceipt>, indices: seq<u64>, receiverId: AccountId)
    ensures var k := FirstInvalid(indices, |receipts|);
            Registered(receipts, RegisterDataReceivers(receipts, indices, receiverId).0, indices[..k], receiverId)
    ensures var k := FirstInvalid(indices, |receipts|);
            k == |indices| ==> RegisterDataReceivers(receipts, indices, receiverId).1 == Ok(Repeat(PlaceholderDataId, |indices|))
    ensures var k := FirstInvalid(indices, |receipts|);
            k < |indices| ==> RegisterDataReceivers(receipts, indices, receiverId).1 == Err(InvalidReceiptIndex(indices[k]))
    decreases |indices|
  {
    if |indices| == 0 || indices[0] >= |receipts| {
      assert indices[..0] == [];
      RegisteredNothing(receipts, receiverId);
    } else {
      var p := indices[0];
      var d := DataReceiver(PlaceholderDataId, receiverId);
      var updated := receipts[p := WithOutput(receipts[p], d)];
      var k := FirstInvalid(indices, |receipts|);
      var k' := FirstInvalid(indices[1..], |updated|);
      assert k == k' + 1;
      assert Registered(receipts, updated, [p], receiverId) by {
        forall j | 0 <= j < |receipts|
          ensures updated[j].metadata.outputDataReceivers
                  == receipts[j].metadata.outputDataReceivers + Repeat(d, Occurrences([p], j))
        {
          assert Occurrences([p], j) == if p == j then 1 else 0 by {
            assert [p][1..] == [];
          }
        }
      }
      RegisterDataReceiversSpec(updated, indices[1..], receiverId);
      RegisteredTrans(receipts, updated, RegisterDataReceivers(updated, indices[1..], receiverId).0,
                      [p], indices[1..][..k'], receiverId);
      assert [p] + indices[1..][..k'] == indices[..k];
      if k == |indices| {
        assert [PlaceholderDataId] + Repeat(PlaceholderDataId, |indices| - 1) == Repeat(PlaceholderDataId, |indices|);
      }
    }
  }

  /** The receipt `create_receipt` pushes: the receiver, the collected inputs, nothing else. */
  function NewReceipt(receiverId: AccountId, inputDataIds: seq<CryptoHash>): PendingReceipt
  {
    PendingReceipt(receiverId, ReceiptMetadata([], inputDataIds, []))
  }

  /**
    `create_receipt`: a new receipt for `receiverId` that waits for data from
    each receipt named in `receiptIndices`.
   */
  function CreateReceipt(m: ReceiptManager, receiptIndices: seq<u64>, receiverId: AccountId): (r: Step<nat>)
    ensures r.manager.gasWeights == m.gasWeights
    ensures r.result.Ok? <==> forall i :: 0 <= i < |receiptIndices| ==> receiptIndices[i] < |m.actionReceipts|
    // success: the index is the old length, one receipt is pushed, and every
    // predecessor is an older receipt that now routes data to it
    ensures r.result.Ok? ==>
      && r.result.value == |m.actionReceipts|
      && |r.manager.actionReceipts| == |m.actionReceipts| + 1
      && r.manager.actionReceipts[r.result.value]
         == NewReceipt(receiverId, Repeat(PlaceholderDataId, |receiptIndices|))
      && Registered(m.actionReceipts, r.manager.actionReceipts[..|m.actionReceipts|], receiptIndices, receiverId)
      && (forall i :: 0 <= i < |receiptIndices| ==> receiptIndices[i] < r.result.value)
    // failure: the first invalid index is reported and no receipt is pushed,
    // but the predecessors listed before it keep their new routes
    ensures r.result.Err? ==>
      var k := FirstInvalid(receiptIndices, |m.actionReceipts|);
      && k < |receiptIndices|
      && r.result.error == InvalidReceiptIndex(receiptIndices[k])
      && |r.manager.actionReceipts| == |m.actionReceipts|
      && Registered(m.actionReceipts, r.manager.actionReceipts, receiptIndices[..k], receiverId)
  {
    RegisterDataReceiversSpec(m.actionReceipts, receiptIndices, receiverId);
    var registered := RegisterDataReceivers(m.actionReceipts, receiptIndices, receiverId);
    var receipts := registered.0;
    match registered.1
    case Err(e) => Step(m.(actionReceipts := receipts), Err(e))
    case Ok(inputDataIds) =>
      assert receiptIndices[..|receiptIndices|] == receiptIndices;
      assert (receipts + [NewReceipt(receiverId, inputDataIds)])[..|receipts|] == receipts;
      Step(m.(actionReceipts := receipts + [NewReceipt(receiverId, inputDataIds)]), Ok(|receipts|))
  }

  // ----- the append family -----

  /** The caller may name a missing receipt only when validation fails first (appending would panic). */
  predicate InRange(m: ReceiptManager, receiptIndex: u64)
  {
    receiptIndex < |m.actionReceipts|
  }

  /** `append_action_create_account`. */
  function AppendActionCreateAccount(m: ReceiptManager, receiptIndex: u64): (r: Step<()>)
    requires InRange(m, receiptIndex)
    ensures r.result == Ok(())
    ensures AppendedOnly(m, r.manager, receiptIndex, CreateAccount)
  {
    Step(AppendAction(m, receiptIndex, CreateAccount).0, Ok(()))
  }

  /** `append_action_deploy_contract`. */
  function AppendActionDeployContract(m: ReceiptManager, receiptIndex: u64, code: seq<u8>): (r: Step<()>)
    requires InRange(m, receiptIndex)
    ensures r.result == Ok(())
    ensures AppendedOnly(m, r.manager, receiptIndex, DeployContract(code))
  {
    Step(AppendAction(m, receiptIndex, DeployContract(code)).0, Ok(()))
  }

  /**
    `append_action_function_call_weight`: the method name is validated before
    anything is appended; a positive weight is recorded against the action
    index `append_action` returned.
   */
  function AppendActionFunctionCallWeight(m: ReceiptManager, receiptIndex: u64, methodName: seq<u8>, args: seq<u8>,
                                          attachedDeposit: Balance, prepaidGas: Gas, gasWeight: u64): (r: Step<()>)
    requires InRange(m, receiptIndex) || !ValidUtf8(methodName)
    ensures !ValidUtf8(methodName) ==> r == Step(m, Err(InvalidMethodName))
    ensures ValidUtf8(methodName) ==>
      && r.result == Ok(())
      && ActionAppended(m.actionReceipts, r.manager.actionReceipts, receiptIndex,
                        FunctionCall(methodName, args, prepaidGas, attachedDeposit))
    ensures ValidUtf8(methodName) && gasWeight > 0 ==>
      var actionIndex := |m.actionReceipts[receiptIndex].metadata.actions|;
      r.manager.gasWeights
      == m.gasWeights + [GasWeightClaim(FunctionCallActionIndex(receiptIndex, actionIndex), gasWeight)]
    ensures gasWeight == 0 ==> r.manager.gasWeights == m.gasWeights
  {
    if !ValidUtf8(methodName) then Step(m, Err(InvalidMethodName))
    else
      var pushed := AppendAction(m, receiptIndex, FunctionCall(methodName, args, prepaidGas, attachedDeposit));
      var appended := pushed.0;
      if gasWeight > 0 then
        var claim := GasWeightClaim(FunctionCallActionIndex(receiptIndex, pushed.1), gasWeight);
        Step(appended.(gasWeights := appended.gasWeights + [claim]), Ok(()))
      else
        Step(appended, Ok(()))
  }

  /** `append_action_function_call`: as above, without a gas-weight claim. */
  function AppendActionFunctionCall(m: ReceiptManager, receiptIndex: u64, methodName: seq<u8>, args: seq<u8>,
                                    attachedDeposit: Balance, prepaidGas: Gas): (r: Step<()>)
    requires InRange(m, receiptIndex) || !ValidUtf8(methodName)
    ensures !ValidUtf8(methodName) ==> r == Step(m, Err(InvalidMethodName))
    ensures ValidUtf8(methodName) ==>
      && r.result == Ok(())
      && AppendedOnly(m, r.manager, receiptIndex, FunctionCall(methodName, args, prepaidGas, attachedDeposit))
  {
    if !ValidUtf8(methodName) then Step(m, Err(InvalidMethodName))
    else Step(AppendAction(m, receiptIndex, FunctionCall(methodName, args, prepaidGas, attachedDeposit)).0, Ok(()))
  }

  /** `append_action_transfer`. */
  function AppendActionTransfer(m: ReceiptManager, receiptIndex: u64, deposit: Balance): (r: Step<()>)
    requires InRange(m, receiptIndex)
    ensures r.result == Ok(())
    ensures AppendedOnly(m, r.manager, receiptIndex, Transfer(deposit))
  {
    Step(AppendAction(m, receiptIndex, Transfer(deposit)).0, Ok(()))
  }

  /** `append_action_stake`: the key is decoded before anything is appended. */
  function AppendActionStake(m: ReceiptManager, decodeKey: KeyDecoder, receiptIndex: u64, stake: Balance,
                             publicKey: seq<u8>): (r: Step<()>)
    requires InRange(m, receiptIndex) || decodeKey(publicKey).None?
    ensures decodeKey(publicKey).None? ==> r == Step(m, Err(InvalidPublicKey))
    ensures decodeKey(publicKey).Some? ==>
      && r.result == Ok(())
      && AppendedOnly(m, r.manager, receiptIndex, Stake(stake, decodeKey(publicKey).value))
  {
    match decodeKey(publicKey)
    case None => Step(m, Err(InvalidPublicKey))
    case Some(key) => Step(AppendAction(m, receiptIndex, Stake(stake, key)).0, Ok(()))
  }

  /** `append_action_add_key_with_full_access`. */
  function AppendActionAddKeyWithFullAccess(m: ReceiptManager, decodeKey: KeyDecoder, receiptIndex: u64,
                                            publicKey: seq<u8>, nonce: Nonce): (r: Step<()>)
    requires InRange(m, receiptIndex) || decodeKey(publicKey).None?
    ensures decodeKey(publicKey).None? ==> r == Step(m, Err(InvalidPublicKey))
    ensures decodeKey(publicKey).Some? ==>
      && r.result == Ok(())
      && AppendedOnly(m, r.manager, receiptIndex,
                      AddKey(decodeKey(publicKey).value, AccessKey(nonce, FullAccess)))
  {
    match decodeKey(publicKey)
    case None => Step(m, Err(InvalidPublicKey))
    case Some(key) => Step(AppendAction(m, receiptIndex, AddKey(key, AccessKey(nonce, FullAccess))).0, Ok(()))
  }

  /** The checks `append_action_add_key_with_function_call` makes, in the order it makes them. */
  function FunctionCallKeyCheck(decodeKey: KeyDecoder, publicKey: seq<u8>, methodNames: seq<seq<u8>>)
    : Result<PublicKey, HostError>
  {
    match decodeKey(publicKey)
    case None => Err(InvalidPublicKey)
    case Some(key) => if AllValidUtf8(methodNames) then Ok(key) else Err(InvalidMethodName)
  }

  /**
    `append_action_add_key_with_function_call`: the key is decoded first, then
    every method name; either failure appends nothing.
   */
  function AppendActionAddKeyWithFunctionCall(m: ReceiptManager, decodeKey: KeyDecoder, receiptIndex: u64,
                                              publicKey: seq<u8>, nonce: Nonce, allowance: Option<Balance>,
                                              receiverId: AccountId, methodNames: seq<seq<u8>>): (r: Step<()>)
    requires InRange(m, receiptIndex) || FunctionCallKeyCheck(decodeKey, publicKey, methodNames).Err?
    ensures decodeKey(publicKey).None? ==> r == Step(m, Err(InvalidPublicKey))
    ensures decodeKey(publicKey).Some? && !AllValidUtf8(methodNames) ==> r == Step(m, Err(InvalidMethodName))
    ensures decodeKey(publicKey).Some? && AllValidUtf8(methodNames) ==>
      && r.result == Ok(())
      && AppendedOnly(m, r.manager, receiptIndex,
                      AddKey(decodeKey(publicKey).value,
                             AccessKey(nonce, FunctionCallAccess(FunctionCallPermission(allowance, receiverId, methodNames)))))
  {
    match FunctionCallKeyCheck(decodeKey, publicKey, methodNames)
    case Err(e) => Step(m, Err(e))
    case Ok(key) =>
      var permission := FunctionCallAccess(FunctionCallPermission(allowance, receiverId, methodNames));
      Step(AppendAction(m, receiptIndex, AddKey(key, AccessKey(nonce, permission))).0, Ok(()))
  }

  /** `append_action_delete_key`. */
  function AppendActionDeleteKey(m: ReceiptManager, decodeKey: KeyDecoder, receiptIndex: u64,
                                 publicKey: seq<u8>): (r: Step<()>)
    requires InRange(m, receiptIndex) || decodeKey(publicKey).None?
    ensures decodeKey(publicKey).None? ==> r == Step(m, Err(InvalidPublicKey))
    ensures decodeKey(publicKey).Some? ==>
      && r.result == Ok(())
      && AppendedOnly(m, r.manager, receiptIndex, DeleteKey(decodeKey(publicKey).value))
  {
    match decodeKey(publicKey)
    case None => Step(m, Err(InvalidPublicKey))
    case Some(key) => Step(AppendAction(m, receiptIndex, DeleteKey(key)).0, Ok(()))
  }

  /** `append_action_delete_account`. */
  function AppendActionDeleteAccount(m: ReceiptManager, receiptIndex: u64, beneficiaryId: AccountId): (r: Step<()>)
    requires InRange(m, receiptIndex)
    ensures r.result == Ok(())
    ensures AppendedOnly(m, r.manager, receiptIndex, DeleteAccount(beneficiaryId))
  {
    Step(AppendAction(m, receiptIndex, DeleteAccount(beneficiaryId)).0, Ok(()))
  }
}
