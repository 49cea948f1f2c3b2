/**
  A sequential stream of host calls against one receipt manager, as one
  contract execution issues them. The stream stops at the first call that
  returns an error or would panic, because either aborts the execution.
 */
module HostCalls {
  import opened Wrappers
  import opened Primitives
  import opened Utf8
  import opened Receipts
  import opened ReceiptProperties

  /** One call into the receipt manager, with the arguments the source takes. */
  datatype HostCall =
    | CreateReceiptCall(receiptIndices: seq<u64>, receiverId: AccountId)
    | AppendCreateAccount(receiptIndex: u64)
    | AppendDeployContract(receiptIndex: u64, code: seq<u8>)
    | AppendFunctionCall(receiptIndex: u64, methodName: seq<u8>, args: seq<u8>,
                         attachedDeposit: Balance, prepaidGas: Gas)
    | AppendFunctionCallWeight(receiptIndex: u64, methodName: seq<u8>, args: seq<u8>,
                               attachedDeposit: Balance, prepaidGas: Gas, gasWeight: u64)
    | AppendTransfer(receiptIndex: u64, deposit: Balance)
    | AppendStake(receiptIndex: u64, stake: Balance, publicKey: seq<u8>)
    | AppendAddKeyWithFullAccess(receiptIndex: u64, publicKey: seq<u8>, nonce: Nonce)
    | AppendAddKeyWithFunctionCall(receiptIndex: u64, publicKey: seq<u8>, nonce: Nonce,
                                   allowance: Option<Balance>, receiverId: AccountId,
                                   methodNames: seq<seq<u8>>)
    | AppendDeleteKey(receiptIndex: u64, publicKey: seq<u8>)
    | AppendDeleteAccount(receiptIndex: u64, beneficiaryId: AccountId)

  datatype CallOutcome = Created(index: nat) | Done | Failed(error: HostError) | Panicked

  /** The append's own validation fails, so it returns an error before touching any receipt. */
  predicate Rejected(decodeKey: KeyDecoder, call: HostCall)
  {
    match call
    case AppendFunctionCall(_, methodName, _, _, _) => !ValidUtf8(methodName)
    case AppendFunctionCallWeight(_, methodName, _, _, _, _) => !ValidUtf8(methodName)
    case AppendStake(_, _, publicKey) => decodeKey(publicKey).None?
    case AppendAddKeyWithFullAccess(_, publicKey, _) => decodeKey(publicKey).None?
    case AppendAddKeyWithFunctionCall(_, publicKey, _, _, _, methodNames) =>
      FunctionCallKeyCheck(decodeKey, publicKey, methodNames).Err?
    case AppendDeleteKey(_, publicKey) => decodeKey(publicKey).None?
    case _ => false
  }

  /** An append that passes validation and names a missing receipt reaches the `expect` in `append_action`. */
  predicate Panics(m: ReceiptManager, decodeKey: KeyDecoder, call: HostCall)
  {
    !call.CreateReceiptCall? && !InRange(m, call.receiptIndex) && !Rejected(decodeKey, call)
  }

  function Finish(s: Step<()>): (ReceiptManager, CallOutcome)
  {
    (s.manager, if s.result.Ok? then Done else Failed(s.result.error))
  }

  /** Dispatch one host call to the matching manager operation. */
  function Apply(m: ReceiptManager, decodeKey: KeyDecoder, call: HostCall): (ReceiptManager, CallOutcome)
  {
    if Panics(m, decodeKey, call) then (m, Panicked)
    else
      match call
      case CreateReceiptCall(receiptIndices, receiverId) =>
        var s := CreateReceipt(m, receiptIndices, receiverId);
        (s.manager, if s.result.Ok? then Created(s.result.value) else Failed(s.result.error))
      case AppendCreateAccount(i) => Finish(AppendActionCreateAccount(m, i))
      case AppendDeployContract(i, code) => Finish(AppendActionDeployContract(m, i, code))
      case AppendFunctionCall(i, name, args, deposit, gas) =>
        Finish(AppendActionFunctionCall(m, i, name, args, deposit, gas))
      case AppendFunctionCallWeight(i, name, args, deposit, gas, weight) =>
        Finish(AppendActionFunctionCallWeight(m, i, name, args, deposit, gas, weight))
      case AppendTransfer(i, deposit) => Finish(AppendActionTransfer(m, i, deposit))
      case AppendStake(i, stake, key) => Finish(AppendActionStake(m, decodeKey, i, stake, key))
      case AppendAddKeyWithFullAccess(i, key, nonce) =>
        Finish(AppendActionAddKeyWithFullAccess(m, decodeKey, i, key, nonce))
      case AppendAddKeyWithFunctionCall(i, key, nonce, allowance, receiverId, names) =>
        Finish(AppendActionAddKeyWithFunctionCall(m, decodeKey, i, key, nonce, allowance, receiverId, names))
      case AppendDeleteKey(i, key) => Finish(AppendActionDeleteKey(m, decodeKey, i, key))
      case AppendDeleteAccount(i, beneficiaryId) => Finish(AppendActionDeleteAccount(m, i, beneficiaryId))
  }

  /** A receipt index `create_receipt` returned, with the receiver it was called with. */
  datatype CreatedReceipt = CreatedReceipt(index: nat, receiverId: AccountId)

  /** The manager after a stream of calls, the receipts created, and the outcome that stopped it, if any. */
  datatype Trace = Trace(manager: ReceiptManager, created: seq<CreatedReceipt>, halt: Option<CallOutcome>)

  function Run(m: ReceiptManager, decodeKey: KeyDecoder, calls: seq<HostCall>): Trace
    decreases |calls|
  {
    if |calls| == 0 then Trace(m, [], None)
    else
      var step := Apply(m, decodeKey, calls[0]);
      match step.1
      case Failed(_) => Trace(step.0, [], Some(step.1))
      case Panicked => Trace(step.0, [], Some(step.1))
      case Done => Run(step.0, decodeKey, calls[1..])
      case Created(i) =>
        var rest := Run(step.0, decodeKey, calls[1..]);
        Trace(rest.manager, [CreatedReceipt(i, calls[0].receiverId)] + rest.created, rest.halt)
  }

  /** The action a validated append call builds. */
  function ActionOf(decodeKey: KeyDecoder, call: HostCall): Action
    requires !call.CreateReceiptCall? && !Rejected(decodeKey, call)
  {
    match call
    case AppendCreateAccount(_) => CreateAccount
    case AppendDeployContract(_, code) => DeployContract(code)
    case AppendFunctionCall(_, name, args, deposit, gas) => FunctionCall(name, args, gas, deposit)
    case AppendFunctionCallWeight(_, name, args, deposit, gas, _) => FunctionCall(name, args, gas, deposit)
    case AppendTransfer(_, deposit) => Transfer(deposit)
    case AppendStake(_, stake, key) => Stake(stake, decodeKey(key).value)
    case AppendAddKeyWithFullAccess(_, key, nonce) => AddKey(decodeKey(key).value, AccessKey(nonce, FullAccess))
    case AppendAddKeyWithFunctionCall(_, key, nonce, allowance, receiverId, names) =>
      AddKey(decodeKey(key).value, AccessKey(nonce, FunctionCallAccess(FunctionCallPermission(allowance, receiverId, names))))
    case AppendDeleteKey(_, key) => DeleteKey(decodeKey(key).value)
    case AppendDeleteAccount(_, beneficiaryId) => DeleteAccount(beneficiaryId)
  }

  /**
    An append call either fails validation and changes nothing, or appends
    the action it built to the receipt it named and changes no other receipt.
   */
  lemma AppendCallEffect(m: ReceiptManager, decodeKey: KeyDecoder, call: HostCall)
    requires !call.CreateReceiptCall? && !Panics(m, decodeKey, call)
    ensures var (m', outcome) := Apply(m, decodeKey, call);
      && (Rejected(decodeKey, call) ==>
            m'.actionReceipts == m.actionReceipts && outcome.Failed? && !outcome.error.InvalidReceiptIndex?)
      && (!Rejected(decodeKey, call) ==>
            outcome == Done && ActionAppended(m.actionReceipts, m'.actionReceipts, call.receiptIndex, ActionOf(decodeKey, call)))
  {
  }

  /** Whatever a single call does, existing receipts keep their place and receiver, and action lists only grow. */
  lemma ApplyKeepsReceipts(m: ReceiptManager, decodeKey: KeyDecoder, call: HostCall)
    ensures var (m', outcome) := Apply(m, decodeKey, call);
      && ActionsExtend(m.actionReceipts, m'.actionReceipts)
      && (forall j :: 0 <= j < |m.actionReceipts| ==> m'.actionReceipts[j].receiverId == m.actionReceipts[j].receiverId)
      && (outcome.Created? ==>
            && call.CreateReceiptCall?
            && outcome.index == |m.actionReceipts|
            && |m'.actionReceipts| == |m.actionReceipts| + 1
            && m'.actionReceipts[outcome.index].receiverId == call.receiverId)
      && (!outcome.Created? ==> |m'.actionReceipts| == |m.actionReceipts|)
      && (outcome.Failed? && outcome.error.InvalidReceiptIndex? ==> call.CreateReceiptCall?)
  {
    var (m', outcome) := Apply(m, decodeKey, call);
    if Panics(m, decodeKey, call) {
    } else if call.CreateReceiptCall? {
      var s := CreateReceipt(m, call.receiptIndices, call.receiverId);
      CreateReceiptExtends(m, call.receiptIndices, call.receiverId);
      if s.result.Ok? {
        forall j | 0 <= j < |m.actionReceipts|
          ensures m'.actionReceipts[j].receiverId == m.actionReceipts[j].receiverId
        {
          assert m'.actionReceipts[..|m.actionReceipts|][j] == m'.actionReceipts[j];
        }
      }
    } else {
      AppendCallEffect(m, decodeKey, call);
      if !Rejected(decodeKey, call) {
        ActionAppendedExtends(m.actionReceipts, m'.actionReceipts, call.receiptIndex, ActionOf(decodeKey, call));
      }
    }
  }

  /** Every call keeps the gas-weight table well formed. */
  lemma ApplyKeepsWeightsWellFormed(m: ReceiptManager, decodeKey: KeyDecoder, call: HostCall)
    requires GasWeightsWellFormed(m)
    ensures GasWeightsWellFormed(Apply(m, decodeKey, call).0)
  {
    var m' := Apply(m, decodeKey, call).0;
    if !Panics(m, decodeKey, call) {
      if call.AppendFunctionCallWeight? {
        FunctionCallWeightKeepsWeightsWellFormed(m, call.receiptIndex, call.methodName, call.args,
                                                 call.attachedDeposit, call.prepaidGas, call.gasWeight);
      } else {
        ApplyKeepsReceipts(m, decodeKey, call);
        ExtendKeepsWeightsWellFormed(m, m');
      }
    }
  }

  /** Every call except a failing `create_receipt` keeps the data edges balanced. */
  lemma ApplyKeepsEdgesBalanced(m: ReceiptManager, decodeKey: KeyDecoder, call: HostCall)
    requires EdgesBalanced(m)
    requires var outcome := Apply(m, decodeKey, call).1; !(outcome.Failed? && outcome.error.InvalidReceiptIndex?)
    ensures EdgesBalanced(Apply(m, decodeKey, call).0)
  {
    var m' := Apply(m, decodeKey, call).0;
    if Panics(m, decodeKey, call) {
    } else if call.CreateReceiptCall? {
      CreateReceiptKeepsEdgesBalanced(m, call.receiptIndices, call.receiverId);
    } else {
      AppendCallEffect(m, decodeKey, call);
      if !Rejected(decodeKey, call) {
        ActionAppendedKeepsTotals(m.actionReceipts, m'.actionReceipts, call.receiptIndex, ActionOf(decodeKey, call));
      }
    }
  }

  /**
    Index stability over a whole stream: receipts that existed keep their
    receivers, and the k-th receipt created gets index `|before| + k` and
    keeps the receiver it was created with.
   */
  lemma {:induction false} RunIndexStability(m: ReceiptManager, decodeKey: KeyDecoder, calls: seq<HostCall>)
    ensures var t := Run(m, decodeKey, calls);
      && |t.manager.actionReceipts| == |m.actionReceipts| + |t.created|
      && (forall j :: 0 <= j < |m.actionReceipts| ==>
            t.manager.actionReceipts[j].receiverId == m.actionReceipts[j].receiverId)
      && (forall k :: 0 <= k < |t.created| ==>
            && t.created[k].index == |m.actionReceipts| + k
            && t.manager.actionReceipts[t.created[k].index].receiverId == t.created[k].receiverId)
    decreases |calls|
  {
    if |calls| > 0 {
      var step := Apply(m, decodeKey, calls[0]);
      ApplyKeepsReceipts(m, decodeKey, calls[0]);
      if step.1.Done? || step.1.Created? {
        RunIndexStability(step.0, decodeKey, calls[1..]);
      }
    }
  }

  /**
    From a fresh manager, `get_receipt_receiver` answers every index a
    `create_receipt` returned with the receiver that call was given, and
    answers nothing for every other index.
   */
  lemma ReceiverOfEveryCreatedIndex(decodeKey: KeyDecoder, calls: seq<HostCall>)
    ensures var t := Run(EmptyManager, decodeKey, calls);
      && (forall k :: 0 <= k < |t.created| ==> t.created[k].index == k)
      && (forall i: u64 :: i < |t.created| ==> GetReceiptReceiver(t.manager, i) == Some(t.created[i].receiverId))
      && (forall i: u64 :: i >= |t.created| ==> GetReceiptReceiver(t.manager, i).None?)
  {
    RunIndexStability(EmptyManager, decodeKey, calls);
  }

  /** No call stream breaks the gas-weight table. */
  lemma {:induction false} RunKeepsWeightsWellFormed(m: ReceiptManager, decodeKey: KeyDecoder, calls: seq<HostCall>)
    requires GasWeightsWellFormed(m)
    ensures GasWeightsWellFormed(Run(m, decodeKey, calls).manager)
    decreases |calls|
  {
    if |calls| > 0 {
      var step := Apply(m, decodeKey, calls[0]);
      ApplyKeepsWeightsWellFormed(m, decodeKey, calls[0]);
      if step.1.Done? || step.1.Created? {
        RunKeepsWeightsWellFormed(step.0, decodeKey, calls[1..]);
      }
    }
  }

  /**
    Data edges stay balanced over a stream unless it stopped on an invalid
    receipt index, the one error raised after mutation has begun.
   */
  lemma {:induction false} RunKeepsEdgesBalanced(m: ReceiptManager, decodeKey: KeyDecoder, calls: seq<HostCall>)
    requires EdgesBalanced(m)
    requires var h := Run(m, decodeKey, calls).halt;
      !(h.Some? && h.value.Failed? && h.value.error.InvalidReceiptIndex?)
    ensures EdgesBalanced(Run(m, decodeKey, calls).manager)
    decreases |calls|
  {
    if |calls| > 0 {
      var step := Apply(m, decodeKey, calls[0]);
      ApplyKeepsEdgesBalanced(m, decodeKey, calls[0]);
      if step.1.Done? || step.1.Created? {
        RunKeepsEdgesBalanced(step.0, decodeKey, calls[1..]);
      }
    }
  }
}
