/**
  Properties of the receipt manager that relate several calls or hold as
  invariants: the data-edge count, the shape of the gas-weight table, action
  ordering, and the gap between the interleaved `create_receipt` loop and an
  all-or-nothing one.
 */
module ReceiptProperties {
  import opened Wrappers
  import opened Primitives
  import opened Utf8
  import opened Receipts

  // ----- data edges -----

  /** The number of routes all receipts export. */
  function TotalOutputs(receipts: seq<PendingReceipt>): nat
  {
    if |receipts| == 0 then 0
    else |receipts[0].metadata.outputDataReceivers| + TotalOutputs(receipts[1..])
  }

  /** The number of data dependencies all receipts wait for. */
  function TotalInputs(receipts: seq<PendingReceipt>): nat
  {
    if |receipts| == 0 then 0
    else |receipts[0].metadata.inputDataIds| + TotalInputs(receipts[1..])
  }

  /**
    Every data edge has both ends: one route on the predecessor and one
    awaited id on the successor, so the two totals agree.
   */
  ghost predicate EdgesBalanced(m: ReceiptManager)
  {
    TotalOutputs(m.actionReceipts) == TotalInputs(m.actionReceipts)
  }

  lemma {:induction false} TotalsOfUpdate(receipts: seq<PendingReceipt>, p: nat, e: PendingReceipt)
    requires p < |receipts|
    ensures TotalOutputs(receipts[p := e]) + |receipts[p].metadata.outputDataReceivers|
            == TotalOutputs(receipts) + |e.metadata.outputDataReceivers|
    ensures TotalInputs(receipts[p := e]) + |receipts[p].metadata.inputDataIds|
            == TotalInputs(receipts) + |e.metadata.inputDataIds|
    decreases |receipts|
  {
    if p == 0 {
      assert receipts[p := e][1..] == receipts[1..];
    } else {
      assert receipts[p := e][1..] == receipts[1..][p - 1 := e];
      TotalsOfUpdate(receipts[1..], p - 1, e);
    }
  }

  lemma {:induction false} TotalsOfPush(receipts: seq<PendingReceipt>, e: PendingReceipt)
    ensures TotalOutputs(receipts + [e]) == TotalOutputs(receipts) + |e.metadata.outputDataReceivers|
    ensures TotalInputs(receipts + [e]) == TotalInputs(receipts) + |e.metadata.inputDataIds|
    decreases |receipts|
  {
    if |receipts| == 0 {
      assert (receipts + [e])[1..] == [];
    } else {
      assert (receipts + [e])[1..] == receipts[1..] + [e];
      TotalsOfPush(receipts[1..], e);
    }
  }

  /** The predecessor loop adds one route per predecessor it got through and no inputs. */
  lemma {:induction false} RegisterDataReceiversCounts(receipts: seq<PendingReceipt>, indices: seq<u64>, receiverId: AccountId)
    ensures var after := RegisterDataReceivers(receipts, indices, receiverId).0;
      && TotalOutputs(after) == TotalOutputs(receipts) + FirstInvalid(indices, |receipts|)
      && TotalInputs(after) == TotalInputs(receipts)
    decreases |indices|
  {
    if |indices| > 0 && indices[0] < |receipts| {
      var p := indices[0];
      var updated := receipts[p := WithOutput(receipts[p], DataReceiver(PlaceholderDataId, receiverId))];
      TotalsOfUpdate(receipts, p, updated[p]);
      RegisterDataReceiversCounts(updated, indices[1..], receiverId);
    }
  }

  /** A successful `create_receipt` adds as many routes as awaited ids. */
  lemma CreateReceiptKeepsEdgesBalanced(m: ReceiptManager, receiptIndices: seq<u64>, receiverId: AccountId)
    requires EdgesBalanced(m)
    requires CreateReceipt(m, receiptIndices, receiverId).result.Ok?
    ensures EdgesBalanced(CreateReceipt(m, receiptIndices, receiverId).manager)
  {
    var registered := RegisterDataReceivers(m.actionReceipts, receiptIndices, receiverId);
    RegisterDataReceiversSpec(m.actionReceipts, receiptIndices, receiverId);
    RegisterDataReceiversCounts(m.actionReceipts, receiptIndices, receiverId);
    TotalsOfPush(registered.0, NewReceipt(receiverId, registered.1.value));
  }

  /**
    A failed `create_receipt` leaves one dangling route per valid predecessor
    listed before the invalid index: routes to a receipt that was never pushed.
   */
  lemma CreateReceiptFailureLeavesDanglingRoutes(m: ReceiptManager, receiptIndices: seq<u64>, receiverId: AccountId)
    requires CreateReceipt(m, receiptIndices, receiverId).result.Err?
    ensures var after := CreateReceipt(m, receiptIndices, receiverId).manager.actionReceipts;
      && TotalOutputs(after) == TotalOutputs(m.actionReceipts) + FirstInvalid(receiptIndices, |m.actionReceipts|)
      && TotalInputs(after) == TotalInputs(m.actionReceipts)
  {
    RegisterDataReceiversCounts(m.actionReceipts, receiptIndices, receiverId);
  }

  lemma ActionAppendedKeepsTotals(before: seq<PendingReceipt>, after: seq<PendingReceipt>, i: nat, a: Action)
    requires ActionAppended(before, after, i, a)
    ensures TotalOutputs(after) == TotalOutputs(before) && TotalInputs(after) == TotalInputs(before)
  {
    assert after == before[i := after[i]];
    TotalsOfUpdate(before, i, after[i]);
  }

  // ----- the gas-weight table -----

  /** The claim names an existing function-call action. */
  ghost predicate ClaimTargetsFunctionCall(receipts: seq<PendingReceipt>, c: GasWeightClaim)
  {
    var i := c.index.receiptIndex;
    var a := c.index.actionIndex;
    i < |receipts| && a < |receipts[i].metadata.actions| && receipts[i].metadata.actions[a].FunctionCall?
  }

  /**
    The table only holds positive-weight claims on existing function-call
    actions, at most one per action.
   */
  ghost predicate GasWeightsWellFormed(m: ReceiptManager)
  {
    && (forall k :: 0 <= k < |m.gasWeights| ==>
          m.gasWeights[k].weight > 0 && ClaimTargetsFunctionCall(m.actionReceipts, m.gasWeights[k]))
    && (forall k, l :: 0 <= k < l < |m.gasWeights| ==> m.gasWeights[k].index != m.gasWeights[l].index)
  }

  /** No receipt disappears and every action list only grows at its end. */
  ghost predicate ActionsExtend(before: seq<PendingReceipt>, after: seq<PendingReceipt>)
  {
    && |before| <= |after|
    && forall j :: 0 <= j < |before| ==> before[j].metadata.actions <= after[j].metadata.actions
  }

  lemma ExtendKeepsWeightsWellFormed(m: ReceiptManager, m': ReceiptManager)
    requires GasWeightsWellFormed(m)
    requires ActionsExtend(m.actionReceipts, m'.actionReceipts) && m'.gasWeights == m.gasWeights
    ensures GasWeightsWellFormed(m')
  {
    forall k | 0 <= k < |m'.gasWeights|
      ensures ClaimTargetsFunctionCall(m'.actionReceipts, m'.gasWeights[k])
    {
      var c := m.gasWeights[k];
      var i := c.index.receiptIndex;
      assert m.actionReceipts[i].metadata.actions <= m'.actionReceipts[i].metadata.actions;
    }
  }

  lemma CreateReceiptExtends(m: ReceiptManager, receiptIndices: seq<u64>, receiverId: AccountId)
    ensures ActionsExtend(m.actionReceipts, CreateReceipt(m, receiptIndices, receiverId).manager.actionReceipts)
  {
    var r := CreateReceipt(m, receiptIndices, receiverId);
    var n := |m.actionReceipts|;
    forall j | 0 <= j < n
      ensures m.actionReceipts[j].metadata.actions <= r.manager.actionReceipts[j].metadata.actions
    {
      if r.result.Ok? {
        assert r.manager.actionReceipts[..n][j] == r.manager.actionReceipts[j];
      }
    }
  }

  lemma ActionAppendedExtends(before: seq<PendingReceipt>, after: seq<PendingReceipt>, i: nat, a: Action)
    requires ActionAppended(before, after, i, a)
    ensures ActionsExtend(before, after)
  {
  }

  /**
    A weighted function call keeps the table well formed: the new claim names
    the action just appended, which no older claim can name.
   */
  lemma FunctionCallWeightKeepsWeightsWellFormed(m: ReceiptManager, receiptIndex: u64, methodName: seq<u8>,
                                                 args: seq<u8>, attachedDeposit: Balance, prepaidGas: Gas, gasWeight: u64)
    requires GasWeightsWellFormed(m)
    requires InRange(m, receiptIndex) || !ValidUtf8(methodName)
    ensures GasWeightsWellFormed(
      AppendActionFunctionCallWeight(m, receiptIndex, methodName, args, attachedDeposit, prepaidGas, gasWeight).manager)
  {
    var r := AppendActionFunctionCallWeight(m, receiptIndex, methodName, args, attachedDeposit, prepaidGas, gasWeight);
    if ValidUtf8(methodName) {
      var action := FunctionCall(methodName, args, prepaidGas, attachedDeposit);
      var kept := ReceiptManager(r.manager.actionReceipts, m.gasWeights);
      ActionAppendedExtends(m.actionReceipts, r.manager.actionReceipts, receiptIndex, action);
      ExtendKeepsWeightsWellFormed(m, kept);
      if gasWeight > 0 {
        var n := |m.actionReceipts[receiptIndex].metadata.actions|;
        var claim := GasWeightClaim(FunctionCallActionIndex(receiptIndex, n), gasWeight);
        assert r.manager.gasWeights == m.gasWeights + [claim];
        assert r.manager.actionReceipts[receiptIndex].metadata.actions[n] == action;
        forall k | 0 <= k < |m.gasWeights|
          ensures m.gasWeights[k].index != claim.index
        {
          assert ClaimTargetsFunctionCall(m.actionReceipts, m.gasWeights[k]);
        }
      }
    }
  }

  /** A claim is recorded exactly when the call succeeds with a positive weight. */
  lemma FunctionCallWeightRecordsClaimIffPositive(m: ReceiptManager, receiptIndex: u64, methodName: seq<u8>,
                                                  args: seq<u8>, attachedDeposit: Balance, prepaidGas: Gas, gasWeight: u64)
    requires InRange(m, receiptIndex) || !ValidUtf8(methodName)
    ensures var r := AppendActionFunctionCallWeight(m, receiptIndex, methodName, args, attachedDeposit, prepaidGas, gasWeight);
      |r.manager.gasWeights| == |m.gasWeights| + (if r.result.Ok? && gasWeight > 0 then 1 else 0)
  {
  }

  // ----- action ordering -----

  /** Append `actions` to one receipt one after another, collecting the returned action indices. */
  function AppendAll(m: ReceiptManager, receiptIndex: u64, actions: seq<Action>): (r: (ReceiptManager, seq<nat>))
    requires InRange(m, receiptIndex)
    ensures InRange(r.0, receiptIndex)
    decreases |actions|
  {
    if |actions| == 0 then (m, [])
    else
      var first := AppendAction(m, receiptIndex, actions[0]);
      var rest := AppendAll(first.0, receiptIndex, actions[1..]);
      (rest.0, [first.1] + rest.1)
  }

  /**
    Appending actions one after another lists them in call order after the
    receipt's earlier actions, and hands out consecutive action indices
    starting at the old count; the rest of the manager is untouched.
   */
  lemma {:induction false} AppendAllInOrder(m: ReceiptManager, receiptIndex: u64, actions: seq<Action>)
    requires InRange(m, receiptIndex)
    ensures var r := AppendAll(m, receiptIndex, actions);
      var old_ := m.actionReceipts[receiptIndex];
      && |r.0.actionReceipts| == |m.actionReceipts|
      && r.0.gasWeights == m.gasWeights
      && (forall j :: 0 <= j < |m.actionReceipts| && j != receiptIndex ==> r.0.actionReceipts[j] == m.actionReceipts[j])
      && r.0.actionReceipts[receiptIndex]
         == old_.(metadata := old_.metadata.(actions := old_.metadata.actions + actions))
      && |r.1| == |actions|
      && (forall k :: 0 <= k < |actions| ==> r.1[k] == |old_.metadata.actions| + k)
    decreases |actions|
  {
    if |actions| > 0 {
      var first := AppendAction(m, receiptIndex, actions[0]);
      AppendAllInOrder(first.0, receiptIndex, actions[1..]);
      var olds := m.actionReceipts[receiptIndex].metadata.actions;
      assert olds + [actions[0]] + actions[1..] == olds + actions;
    }
  }

  // ----- concrete scenarios -----

  /**
    A receipt that waits on another: the successor awaits one id, which is
    the id of the predecessor's only route, and that route points at the
    successor's receiver.
   */
  lemma EdgeScenario()
    ensures var s0 := CreateReceipt(EmptyManager, [], "alice");
      var s1 := CreateReceipt(s0.manager, [0], "carol");
      var r0 := s1.manager.actionReceipts[0].metadata;
      var r1 := s1.manager.actionReceipts[1].metadata;
      && s0.result == Ok(0) && s1.result == Ok(1)
      && |r0.outputDataReceivers| == 1 && |r1.inputDataIds| == 1
      && r1.inputDataIds[0] == r0.outputDataReceivers[0].dataId
      && r0.outputDataReceivers[0].receiverId == "carol"
  {
  }

  /** Creating a receipt and sending it a transfer. */
  lemma TransferScenario()
    ensures var s0 := CreateReceipt(EmptyManager, [], "bob");
      var s1 := AppendActionTransfer(s0.manager, 0, 100);
      && s0.result == Ok(0)
      && GetReceiptReceiver(s1.manager, 0) == Some("bob")
      && s1.manager.actionReceipts[0].metadata.actions == [Transfer(100)]
  {
  }

  /** A zero weight leaves the table empty; a weight of 5 records one claim on the new action. */
  lemma WeightGatingScenario()
    ensures var s0 := CreateReceipt(EmptyManager, [], "bob");
      var zero := AppendActionFunctionCallWeight(s0.manager, 0, ['f' as u8], [], 0, 1000, 0);
      var five := AppendActionFunctionCallWeight(s0.manager, 0, ['f' as u8], [], 0, 1000, 5);
      && zero.result == Ok(()) && zero.manager.gasWeights == []
      && five.result == Ok(())
      && five.manager.gasWeights == [GasWeightClaim(FunctionCallActionIndex(0, 0), 5)]
  {
    AsciiIsValidUtf8(['f' as u8]);
    var s0 := CreateReceipt(EmptyManager, [], "bob");
    assert s0.manager.actionReceipts[0].metadata.actions == [];
  }

  /** A method name that is not UTF-8 is rejected and nothing changes. */
  lemma InvalidMethodNameScenario(m: ReceiptManager, receiptIndex: u64)
    ensures AppendActionFunctionCall(m, receiptIndex, [0xFF], [], 0, 1000) == Step(m, Err(InvalidMethodName))
  {
  }

  /**
    `create_receipt` is not all-or-nothing: naming an existing receipt and
    then a missing one fails with the missing index, pushes no receipt, and
    still leaves a route to "bob" on the existing one.
   */
  lemma CreateReceiptNotAtomic()
    ensures var s0 := CreateReceipt(EmptyManager, [], "alice");
      var s1 := CreateReceipt(s0.manager, [0, 9999], "bob");
      && s1.result == Err(InvalidReceiptIndex(9999))
      && |s1.manager.actionReceipts| == 1
      && s0.manager.actionReceipts[0].metadata.outputDataReceivers == []
      && s1.manager.actionReceipts[0].metadata.outputDataReceivers == [DataReceiver(PlaceholderDataId, "bob")]
      && !EdgesBalanced(s1.manager)
  {
    var s0 := CreateReceipt(EmptyManager, [], "alice");
    var s1 := CreateReceipt(s0.manager, [0, 9999], "bob");
    assert FirstInvalid([0, 9999], 1) == 1;
    assert [0 as u64, 9999][..1] == [0];
    assert Occurrences([0], 0) == 1 by {
      assert [0 as u64][1..] == [];
    }
    assert s0.manager.actionReceipts[0].metadata.outputDataReceivers == [];
    CreateReceiptFailureLeavesDanglingRoutes(s0.manager, [0, 9999], "bob");
    assert TotalOutputs(s0.manager.actionReceipts) == 0 == TotalInputs(s0.manager.actionReceipts) by {
      assert s0.manager.actionReceipts[1..] == [];
    }
  }

  /**
    Data ids are placeholders, not unique: two receipts that both wait on
    receipt 0 are fed through two routes carrying the same id.
   */
  lemma DataIdsCollide()
    ensures var s0 := CreateReceipt(EmptyManager, [], "alice");
      var s1 := CreateReceipt(s0.manager, [0], "bob");
      var s2 := CreateReceipt(s1.manager, [0], "carol");
      var routes := s2.manager.actionReceipts[0].metadata.outputDataReceivers;
      && |routes| == 2
      && routes[0].receiverId != routes[1].receiverId
      && routes[0].dataId == routes[1].dataId
  {
  }
}
