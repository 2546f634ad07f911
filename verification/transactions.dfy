/** Transaction handling of `internal/onchain/account.py`: EIP-1559 fee
    arithmetic, building and sending a transaction, the receipt-poll state
    machine, and the approve-if-needed decision.

    Node calls are inputs (`Delivery<...>`); `asyncio.sleep` is the
    counter `time_passed`; signing is not modelled. */
module Transactions {
  import opened Errors
  import Ranges

  // ---------------------------------------------------------------------
  // Fees
  // ---------------------------------------------------------------------

  /** The two EIP-1559 fee fields of a transaction, in wei per gas. */
  datatype FeeQuote = FeeQuote(maxPriorityFee: nat, maxFee: nat)

  /** Whether a transaction with these fees can be included in a block whose
      base fee is `baseFee` (EIP-1559: the max fee must cover the base fee). */
  predicate Includable(q: FeeQuote, baseFee: nat) {
    q.maxFee >= baseFee
  }

  /** The tip per gas the block producer receives under EIP-1559:
      min(max priority fee, max fee - base fee). */
  function EffectiveTip(q: FeeQuote, baseFee: nat): nat
    requires Includable(q, baseFee)
  {
    if q.maxPriorityFee <= q.maxFee - baseFee then q.maxPriorityFee else q.maxFee - baseFee
  }

  /** The fee fields `_build_and_send_tx` sets from the node's suggested
      priority fee and the latest block's base fee: twice the suggestion as
      tip, and the tip plus twice the base fee as max fee. */
  function QuoteFees(suggestedTip: nat, latestBaseFee: nat): (q: FeeQuote)
    ensures q.maxPriorityFee == 2 * suggestedTip
    ensures q.maxFee >= q.maxPriorityFee
    ensures forall b: nat :: Includable(q, b) <==> b <= 2 * latestBaseFee + 2 * suggestedTip
    ensures forall b: nat :: b <= 2 * latestBaseFee ==> Includable(q, b) && EffectiveTip(q, b) == q.maxPriorityFee
  {
    var tip := 2 * suggestedTip;
    FeeQuote(tip, tip + 2 * latestBaseFee)
  }

  /** Base fee 100 and suggested tip 10 give a tip of 20 and a max fee of 220. */
  lemma FeeExample()
    ensures QuoteFees(10, 100) == FeeQuote(20, 220)
  {
  }

  /** The gas limit set from the node's estimate: the estimate times 1.2,
      rounded down (exact arithmetic). */
  function GasLimit(estimate: nat): (gas: nat)
    ensures estimate <= gas
    ensures 5 * gas <= 6 * estimate < 5 * (gas + 1)
  {
    6 * estimate / 5
  }

  // ---------------------------------------------------------------------
  // Building and sending
  // ---------------------------------------------------------------------

  /** The transaction `_build_and_send_tx` signs. */
  datatype TxRequest = TxRequest(
    sender: string,
    nonce: nat,
    maxPriorityFee: nat,
    maxFee: nat,
    gas: nat,
    value: nat)

  /** The node's answers, in the order `_build_and_send_tx` awaits them.
      `built` is the outcome of `func.build_transaction(...)`, which encodes
      the contract call and asks the node for the chain id; only whether it
      raised matters here. */
  datatype NodeReplies = NodeReplies(
    suggestedTip: Delivery<nat>,
    latestBaseFee: Delivery<nat>,
    nonce: Delivery<nat>,
    built: Delivery<()>,
    gasEstimate: Delivery<nat>,
    sentHash: Delivery<string>)

  /** A transaction that was broadcast, and the hash the node returned. */
  datatype Sent = Sent(tx: TxRequest, txHash: string)

  /** One run of `_build_and_send_tx`: fees, nonce, building the call, gas
      simulation (its failure is reported as a simulation failure), then
      broadcast. */
  function BuildAndSendTx(sender: string, value: nat, node: NodeReplies): (r: Result<Sent>)
    ensures r.Ok? <==>
      node.suggestedTip.Delivered? && node.latestBaseFee.Delivered? && node.nonce.Delivered? &&
      node.built.Delivered? && node.gasEstimate.Delivered? && node.sentHash.Delivered?
    ensures r.Ok? ==>
      var q := QuoteFees(node.suggestedTip.reply, node.latestBaseFee.reply);
      && r.value.tx == TxRequest(sender, node.nonce.reply, q.maxPriorityFee, q.maxFee,
                                 GasLimit(node.gasEstimate.reply), value)
      && r.value.txHash == node.sentHash.reply
    ensures node.suggestedTip.Raised? ==> r == Err(Transport(node.suggestedTip.detail))
    ensures (node.suggestedTip.Delivered? && node.latestBaseFee.Raised?) ==>
      r == Err(Transport(node.latestBaseFee.detail))
    ensures (node.suggestedTip.Delivered? && node.latestBaseFee.Delivered? && node.nonce.Raised?) ==>
      r == Err(Transport(node.nonce.detail))
    ensures (node.suggestedTip.Delivered? && node.latestBaseFee.Delivered? && node.nonce.Delivered? &&
             node.built.Raised?) ==> r == Err(Transport(node.built.detail))
    ensures (node.suggestedTip.Delivered? && node.latestBaseFee.Delivered? && node.nonce.Delivered? &&
             node.built.Delivered? && node.gasEstimate.Raised?) ==> r == Err(SimulationFailed(node.gasEstimate.detail))
    ensures (node.suggestedTip.Delivered? && node.latestBaseFee.Delivered? && node.nonce.Delivered? &&
             node.built.Delivered? && node.gasEstimate.Delivered? && node.sentHash.Raised?) ==>
      r == Err(Transport(node.sentHash.detail))
  {
    match node.suggestedTip
    case Raised(d) => Err(Transport(d))
    case Delivered(tip) =>
      match node.latestBaseFee
      case Raised(d) => Err(Transport(d))
      case Delivered(base) =>
        var q := QuoteFees(tip, base);
        match node.nonce
        case Raised(d) => Err(Transport(d))
        case Delivered(nonce) =>
          match node.built
          case Raised(d) => Err(Transport(d))
          case Delivered(_) =>
            match node.gasEstimate
            case Raised(d) => Err(SimulationFailed(d))
            case Delivered(estimate) =>
              var tx := TxRequest(sender, nonce, q.maxPriorityFee, q.maxFee, GasLimit(estimate), value);
              match node.sentHash
              case Raised(d) => Err(Transport(d))
              case Delivered(h) => Ok(Sent(tx, h))
  }

  // ---------------------------------------------------------------------
  // Receipt polling
  // ---------------------------------------------------------------------

  /** What one `get_transaction_receipt` call produced. */
  datatype ReceiptPoll =
    | NotFound                        // TransactionNotFound was raised
    | NoReceipt                       // the call returned None
    | Mined(status: Option<int>)      // a receipt, with its `status` field if any
    | RpcFailed(detail: string)       // any other exception

  /** A poll after which the loop keeps waiting. */
  predicate Absent(p: ReceiptPoll) {
    p.NotFound? || p.NoReceipt?
  }

  /** How a poll that ends the loop ends it. */
  function Settle(p: ReceiptPoll, txHash: string): (r: Result<()>)
    requires !Absent(p)
    ensures r.Ok? <==> p == Mined(Some(1))
    ensures p.Mined? && p.status != Some(1) ==> r == Err(FailedTx(txHash))
    ensures p.RpcFailed? ==> r == Err(Transport(p.detail))
  {
    match p
    case Mined(status) => if status == Some(1) then Ok(()) else Err(FailedTx(txHash))
    case RpcFailed(d) => Err(Transport(d))
  }

  /** The verification's outcome and how many receipt polls it made. */
  datatype Verdict = Verdict(result: Result<()>, polls: nat)

  /** The poll loop after `i` polls, i.e. with `time_passed == i * latency`. */
  function VerifyFrom(polls: seq<ReceiptPoll>, i: nat, waitTxTime: int, latency: nat,
                      action: string, txHash: string): (v: Verdict)
    requires latency > 0
    requires i <= Ranges.RangeLength(waitTxTime, latency) <= |polls|
    ensures i <= v.polls <= Ranges.RangeLength(waitTxTime, latency)
    ensures forall j :: i <= j < v.polls - 1 ==> Absent(polls[j])
    ensures v.polls > i && !Absent(polls[v.polls - 1]) ==> v.result == Settle(polls[v.polls - 1], txHash)
    ensures v.polls == i || Absent(polls[v.polls - 1]) ==>
      v.polls == Ranges.RangeLength(waitTxTime, latency) && v.result == Err(PendingTx(action, txHash))
    decreases Ranges.RangeLength(waitTxTime, latency) - i
  {
    if !Ranges.Runs(i, latency, waitTxTime) then Verdict(Err(PendingTx(action, txHash)), i)
    else if Absent(polls[i]) then VerifyFrom(polls, i + 1, waitTxTime, latency, action, txHash)
    else Verdict(Settle(polls[i], txHash), i + 1)
  }

  /** `_tx_verification`: poll every `latency` seconds while less than
      `waitTxTime` seconds have passed; the first receipt decides (status 1
      is success, anything else a failed transaction); no receipt in time is
      a pending transaction. */
  function TxVerification(polls: seq<ReceiptPoll>, waitTxTime: int, latency: nat,
                          action: string, txHash: string): (v: Verdict)
    requires latency > 0
    requires Ranges.RangeLength(waitTxTime, latency) <= |polls|
    ensures v.polls <= Ranges.RangeLength(waitTxTime, latency)
    ensures forall j :: 0 <= j < v.polls - 1 ==> Absent(polls[j])
    ensures v.polls > 0 && !Absent(polls[v.polls - 1]) ==> v.result == Settle(polls[v.polls - 1], txHash)
    ensures v.polls == 0 || Absent(polls[v.polls - 1]) ==>
      v.polls == Ranges.RangeLength(waitTxTime, latency) && v.result == Err(PendingTx(action, txHash))
  {
    VerifyFrom(polls, 0, waitTxTime, latency, action, txHash)
  }

  /** Index of the first poll among the first `n` that returned something
      other than "no receipt yet", or `n`. */
  function FirstPresent(polls: seq<ReceiptPoll>, n: nat): (k: nat)
    requires n <= |polls|
    ensures k <= n
    ensures forall j :: 0 <= j < k ==> Absent(polls[j])
    ensures k < n ==> !Absent(polls[k])
    decreases n
  {
    if n == 0 then 0
    else
      var k := FirstPresent(polls, n - 1);
      if k < n - 1 then k
      else if !Absent(polls[n - 1]) then n - 1
      else n
  }

  lemma FirstPresentUnique(polls: seq<ReceiptPoll>, n: nat, k: nat)
    requires k <= n <= |polls|
    requires forall j :: 0 <= j < k ==> Absent(polls[j])
    requires k == n || !Absent(polls[k])
    ensures FirstPresent(polls, n) == k
  {
  }

  /** The verification has exactly one of four outcomes, decided by the first
      poll (within the poll budget) that did not report "no receipt yet":
      success iff it is a receipt with status 1, a failed transaction iff it
      is a receipt with any other or no status, the node's error iff it is
      another exception, and a pending transaction iff there is none. */
  lemma VerificationClassification(polls: seq<ReceiptPoll>, waitTxTime: int, latency: nat,
                                   action: string, txHash: string)
    requires latency > 0
    requires Ranges.RangeLength(waitTxTime, latency) <= |polls|
    ensures
      var v := TxVerification(polls, waitTxTime, latency, action, txHash);
      var n := Ranges.RangeLength(waitTxTime, latency);
      var k := FirstPresent(polls, n);
      && (v.result == Ok(()) <==> k < n && polls[k] == Mined(Some(1)))
      && (v.result == Err(FailedTx(txHash)) <==> k < n && polls[k].Mined? && polls[k].status != Some(1))
      && (v.result == Err(PendingTx(action, txHash)) <==> k == n)
      && (k < n ==> v.polls == k + 1)
  {
    var v := TxVerification(polls, waitTxTime, latency, action, txHash);
    var n := Ranges.RangeLength(waitTxTime, latency);
    if v.polls > 0 && !Absent(polls[v.polls - 1]) {
      FirstPresentUnique(polls, n, v.polls - 1);
    } else {
      FirstPresentUnique(polls, n, n);
    }
  }

  /** With a non-positive wait budget no poll is made and the transaction is
      reported pending. */
  lemma NoBudgetIsPending(polls: seq<ReceiptPoll>, waitTxTime: int, latency: nat, action: string, txHash: string)
    requires latency > 0 && waitTxTime <= 0
    ensures TxVerification(polls, waitTxTime, latency, action, txHash) == Verdict(Err(PendingTx(action, txHash)), 0)
  {
  }

  /** The verification loop as written, with the elapsed-time counter. */
  method VerifyTx(polls: seq<ReceiptPoll>, waitTxTime: int, latency: nat, action: string, txHash: string)
    returns (result: Result<()>, count: nat)
    requires latency > 0
    requires Ranges.RangeLength(waitTxTime, latency) <= |polls|
    ensures Verdict(result, count) == TxVerification(polls, waitTxTime, latency, action, txHash)
  {
    var timePassed := 0;
    count := 0;
    while timePassed < waitTxTime
      invariant timePassed == count * latency
      invariant count <= Ranges.RangeLength(waitTxTime, latency)
      invariant VerifyFrom(polls, count, waitTxTime, latency, action, txHash)
             == TxVerification(polls, waitTxTime, latency, action, txHash)
      decreases waitTxTime - timePassed
    {
      assert Ranges.Runs(count, latency, waitTxTime);
      var p := polls[count];
      count := count + 1;
      match p {
        case Mined(status) =>
          if status == Some(1) {
            return Ok(()), count;
          }
          return Err(FailedTx(txHash)), count;
        case RpcFailed(d) =>
          return Err(Transport(d)), count;
        case NotFound =>
        case NoReceipt =>
      }
      timePassed := timePassed + latency;
    }
    assert !Ranges.Runs(count, latency, waitTxTime);
    result := Err(PendingTx(action, txHash));
  }

  // ---------------------------------------------------------------------
  // Allowance
  // ---------------------------------------------------------------------

  /** `2 ** 256 - 1`, the largest uint256. */
  const MaxUint256: nat := 0xffff_ffff_ffff_ffff_ffff_ffff_ffff_ffff_ffff_ffff_ffff_ffff_ffff_ffff_ffff_ffff

  /** An `approve(spender, amount)` call on an ERC-20 token. */
  datatype Approval = Approval(token: string, spender: string, amount: nat)

  /** `approve_if_needed`: the `allowance(owner, spender)` read raises, or an
      approval for the largest uint256 is sent iff the allowance it returns
      is below `amount`. */
  function ApproveIfNeeded(token: string, spender: string, allowance: Delivery<nat>, amount: nat)
    : (r: Result<Option<Approval>>)
    ensures r.Err? <==> allowance.Raised?
    ensures allowance.Raised? ==> r == Err(Transport(allowance.detail))
    ensures r.Ok? ==> (r.value.Some? <==> allowance.reply < amount)
    ensures r.Ok? && r.value.Some? ==> r.value.value == Approval(token, spender, MaxUint256)
  {
    match allowance
    case Raised(d) => Err(Transport(d))
    case Delivered(current) =>
      if current < amount then Ok(Some(Approval(token, spender, MaxUint256))) else Ok(None)
  }

  /** The allowance once the approval, if one was sent, has been mined. */
  function AllowanceAfter(allowance: nat, approval: Option<Approval>): nat {
    match approval
    case Some(a) => a.amount
    case None => allowance
  }

  /** After `approve_if_needed` (and its approval, if any) the spender may
      move `amount`, for every amount a uint256 can hold. */
  lemma ApprovalCoversAmount(token: string, spender: string, allowance: nat, amount: nat)
    requires amount <= MaxUint256
    ensures var r := ApproveIfNeeded(token, spender, Delivered(allowance), amount);
      && r.Ok?
      && AllowanceAfter(allowance, r.value) >= amount
      && (r.value.None? ==> AllowanceAfter(allowance, r.value) == allowance)
  {
  }
}
