/** The balance checks at the start of `_swap_bera` and `_mint_honey`:
    a swap first makes sure the wallet holds at least 0.01 BERA, dripping
    once if it does not; a mint first swaps for stgUSDC when the wallet has
    none.

    The node's balance replies and the outcome of the nested swap are
    inputs; the drip is the `Faucet` model itself. */
module Prechecks {
  import opened Errors
  import Ranges
  import Faucet

  /** 10^16 wei (0.01 BERA): the least balance a swap starts from. */
  const MinBeraBalance: nat := 10_000_000_000_000_000

  /** What the world answers during the swap pre-check: the first balance
      read, everything the drip sees, and the second balance read. */
  datatype SwapInputs = SwapInputs(first: Delivery<nat>, drip: Faucet.DripInputs, second: Delivery<nat>)

  /** The pre-check's outcome: the wallet afterwards, the balance the swap
      goes on with (or what was raised), whether a drip was started, and how
      many balance reads the pre-check itself made. */
  datatype SwapCheck = SwapCheck(wallet: Faucet.Wallet, result: Result<nat>, dripped: bool, balanceReads: nat)

  /** The second balance read and its threshold test. */
  function ReRead(w: Faucet.Wallet, second: Delivery<nat>, dripped: bool): (r: SwapCheck)
    ensures r.wallet == w && r.dripped == dripped && r.balanceReads == 2
    ensures r.result.Ok? <==> second.Delivered? && second.reply >= MinBeraBalance
    ensures r.result.Ok? ==> r.result.value == second.reply
    ensures second.Delivered? && second.reply < MinBeraBalance ==> r.result == Err(NotEnoughBera(second.reply))
    ensures second.Raised? ==> r.result == Err(Transport(second.detail))
  {
    match second
    case Raised(d) => SwapCheck(w, Err(Transport(d)), dripped, 2)
    case Delivered(b) =>
      if b < MinBeraBalance then SwapCheck(w, Err(NotEnoughBera(b)), dripped, 2)
      else SwapCheck(w, Ok(b), dripped, 2)
  }

  /** The drip the pre-check starts, with `wait_drip_tokens=True`. */
  function Drip(w: Faucet.Wallet, inp: SwapInputs, waitTxTime: int): Faucet.DripRun
    requires Ranges.RangeLength(waitTxTime, Faucet.BalanceInterval) <= |inp.drip.balances|
  {
    Faucet.DripBera(w, inp.drip, true, waitTxTime)
  }

  /** The pre-check gets as far as the second balance read. */
  predicate RereadsBalance(w: Faucet.Wallet, inp: SwapInputs, waitTxTime: int)
    requires Ranges.RangeLength(waitTxTime, Faucet.BalanceInterval) <= |inp.drip.balances|
  {
    inp.first.Delivered? && (inp.first.reply >= MinBeraBalance || Drip(w, inp, waitTxTime).result.Ok?)
  }

  /** `_swap_bera` up to the amount computation: a balance below 10^16 wei
      starts one drip (which waits for the tokens); then the balance is read
      again whatever happened, and a balance still below 10^16 wei is
      'Not enough $BERA balance'. */
  function SwapPrecheck(w: Faucet.Wallet, inp: SwapInputs, waitTxTime: int): (r: SwapCheck)
    requires Ranges.RangeLength(waitTxTime, Faucet.BalanceInterval) <= |inp.drip.balances|
    ensures r.dripped <==> inp.first.Delivered? && inp.first.reply < MinBeraBalance
    ensures r.wallet == (if r.dripped then Drip(w, inp, waitTxTime).wallet else w)
    ensures r.balanceReads == (if RereadsBalance(w, inp, waitTxTime) then 2 else 1)
    ensures r.result.Ok? ==> inp.second == Delivered(r.result.value) && r.result.value >= MinBeraBalance
    ensures RereadsBalance(w, inp, waitTxTime) ==>
      (r.result.Ok? <==> inp.second.Delivered? && inp.second.reply >= MinBeraBalance)
    ensures (r.result.Err? && r.result.error.NotEnoughBera?) <==>
      RereadsBalance(w, inp, waitTxTime) && inp.second.Delivered? && inp.second.reply < MinBeraBalance
    ensures RereadsBalance(w, inp, waitTxTime) && inp.second.Delivered? && inp.second.reply < MinBeraBalance ==>
      r.result == Err(NotEnoughBera(inp.second.reply))
    ensures r.dripped && Drip(w, inp, waitTxTime).result.Err? ==> r.result == Err(Drip(w, inp, waitTxTime).result.error)
    ensures inp.first.Raised? ==> r == SwapCheck(w, Err(Transport(inp.first.detail)), false, 1)
    ensures RereadsBalance(w, inp, waitTxTime) && inp.second.Raised? ==>
      r.result == Err(Transport(inp.second.detail))
  {
    match inp.first
    case Raised(d) => SwapCheck(w, Err(Transport(d)), false, 1)
    case Delivered(b) =>
      if b < MinBeraBalance then
        var run := Drip(w, inp, waitTxTime);
        match run.result
        case Err(e) => SwapCheck(run.wallet, Err(e), true, 1)
        case Ok(_) => ReRead(run.wallet, inp.second, true)
      else ReRead(w, inp.second, false)
  }

  /** A wallet that already holds 0.01 BERA is left alone: no drip, and the
      swap goes on with the second read's balance when that is still enough. */
  lemma FundedWalletNoDrip(w: Faucet.Wallet, inp: SwapInputs, waitTxTime: int)
    requires Ranges.RangeLength(waitTxTime, Faucet.BalanceInterval) <= |inp.drip.balances|
    requires inp.first.Delivered? && inp.first.reply >= MinBeraBalance
    ensures var r := SwapPrecheck(w, inp, waitTxTime);
      && !r.dripped && r.wallet == w
      && (inp.second.Delivered? && inp.second.reply >= MinBeraBalance ==> r.result == Ok(inp.second.reply))
  {
  }

  /** A drip skipped by its cooldown still leads to the second read, which
      alone decides whether the swap can go on. */
  lemma CoolingDripStillRereads(w: Faucet.Wallet, inp: SwapInputs, waitTxTime: int)
    requires Ranges.RangeLength(waitTxTime, Faucet.BalanceInterval) <= |inp.drip.balances|
    requires inp.first.Delivered? && inp.first.reply < MinBeraBalance
    requires Faucet.CoolingDown(inp.drip.now, w.lastDripTs)
    ensures var r := SwapPrecheck(w, inp, waitTxTime);
      && r.dripped && r.wallet == w && r.balanceReads == 2
      && r.result == ReRead(w, inp.second, true).result
  {
  }

  /** The threshold is inclusive: exactly 10^16 wei needs no drip, one wei
      less does. */
  lemma ThresholdBoundary(w: Faucet.Wallet, inp: SwapInputs, waitTxTime: int)
    requires Ranges.RangeLength(waitTxTime, Faucet.BalanceInterval) <= |inp.drip.balances|
    ensures inp.first == Delivered(MinBeraBalance) ==> !SwapPrecheck(w, inp, waitTxTime).dripped
    ensures inp.first == Delivered(MinBeraBalance - 1) ==> SwapPrecheck(w, inp, waitTxTime).dripped
  {
  }

  // ---------------------------------------------------------------------
  // _mint_honey
  // ---------------------------------------------------------------------

  /** What the world answers during the mint pre-check: the first stgUSDC
      balance read, the outcome of `swap_bera`, and the second read. */
  datatype MintInputs = MintInputs(first: Delivery<nat>, swap: Result<()>, second: Delivery<nat>)

  /** The stgUSDC balance the mint goes on with (or what was raised), whether
      a swap was started, and how many balance reads were made. */
  datatype MintCheck = MintCheck(result: Result<nat>, swapped: bool, balanceReads: nat)

  /** `_mint_honey` up to the amount computation: an empty stgUSDC balance
      starts one swap and is read again; any other balance is used as read. */
  function MintPrecheck(inp: MintInputs): (r: MintCheck)
    ensures r.swapped <==> inp.first == Delivered(0)
    ensures r.balanceReads == (if r.swapped && inp.swap.Ok? then 2 else 1)
    ensures r.result.Ok? ==> (if r.swapped then inp.second else inp.first) == Delivered(r.result.value)
    ensures r.result.Ok? <==> inp.first.Delivered? && (inp.first.reply > 0 || (inp.swap.Ok? && inp.second.Delivered?))
    ensures r.swapped && inp.swap.Err? ==> r.result == Err(inp.swap.error)
    ensures inp.first.Raised? ==> r == MintCheck(Err(Transport(inp.first.detail)), false, 1)
    ensures r.swapped && inp.swap.Ok? && inp.second.Raised? ==> r.result == Err(Transport(inp.second.detail))
  {
    match inp.first
    case Raised(d) => MintCheck(Err(Transport(d)), false, 1)
    case Delivered(b) =>
      if b == 0 then
        match inp.swap
        case Err(e) => MintCheck(Err(e), true, 1)
        case Ok(_) =>
          match inp.second
          case Raised(d) => MintCheck(Err(Transport(d)), true, 2)
          case Delivered(b2) => MintCheck(Ok(b2), true, 2)
      else MintCheck(Ok(b), false, 1)
  }

  /** The swap does not guarantee stgUSDC: an empty second read is passed on
      as a zero balance rather than raised. */
  lemma MintGoesOnWithEmptyReread(inp: MintInputs)
    requires inp.first == Delivered(0) && inp.swap.Ok? && inp.second == Delivered(0)
    ensures MintPrecheck(inp) == MintCheck(Ok(0), true, 2)
  {
  }
}
