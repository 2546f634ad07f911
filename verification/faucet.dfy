/** `OnchainAccount.drip_bera`: the twenty-minute cooldown, the faucet
    claim and its acceptance test, and the wait for the dripped tokens.

    The wall clock, the captcha solver, the faucet's HTTP reply and the
    node's balance replies are inputs. */
module Faucet {
  import opened Errors
  import Text
  import Ranges
  import Models

  /** The account record together with the time of its last accepted drip.
      The bot sets `last_drip_ts` as an attribute on the record itself,
      although the record's class does not declare it; here it is a field
      of its own beside the record. */
  datatype Wallet = Wallet(info: Models.AccountInfo, lastDripTs: int)

  /** Seconds that must pass between two drips. */
  const DripCooldown: int := 1200

  /** The drip is skipped iff the last drip was less than twenty minutes ago. */
  predicate CoolingDown(now: int, lastDripTs: int) {
    now < lastDripTs + DripCooldown
  }

  /** The body of the faucet's JSON reply. */
  datatype ClaimReply = ClaimReply(msg: string)

  /** `_handler`: the claim went through iff its message mentions a
      transaction hash; the message is passed on unchanged. */
  function AcceptClaim(reply: ClaimReply): (r: Result<string>)
    ensures r.Ok? <==> Text.Contains(reply.msg, "Txhash")
    ensures r.Ok? ==> r.value == reply.msg
    ensures r.Err? ==> r.error == ClaimRejected
  {
    if Text.Contains(reply.msg, "Txhash") then Ok(reply.msg) else Err(ClaimRejected)
  }

  /** A faucet message that carries the hash is accepted, one without it is not. */
  lemma AcceptClaimExamples()
    ensures AcceptClaim(ClaimReply("Txhash: 0x12")).Ok?
    ensures AcceptClaim(ClaimReply("Rate limited")) == Err(ClaimRejected)
  {
    assert Text.OccursAt("Txhash: 0x12", "Txhash", 0);
    Text.NotContainsWithoutHead("Rate limited", "Txhash");
  }

  // ---------------------------------------------------------------------
  // Waiting for the dripped tokens
  // ---------------------------------------------------------------------

  /** Seconds between two balance reads. */
  const BalanceInterval: nat := 20

  /** A balance read that keeps the loop waiting: a delivered zero balance. */
  predicate StillZero(read: Delivery<nat>) {
    read.Delivered? && read.reply == 0
  }

  /** The wait's outcome (true when the tokens arrived) and how many balance
      reads it made. */
  datatype Wait = Wait(result: Result<bool>, count: nat)

  /** `for _ in range(0, waitTxTime, 20)` after `i` iterations. */
  function WaitFrom(balances: seq<Delivery<nat>>, i: nat, waitTxTime: int): (w: Wait)
    requires i <= Ranges.RangeLength(waitTxTime, BalanceInterval) <= |balances|
    ensures i <= w.count <= Ranges.RangeLength(waitTxTime, BalanceInterval)
    ensures forall j :: i <= j < w.count - 1 ==> StillZero(balances[j])
    ensures w.count > i && !StillZero(balances[w.count - 1]) ==>
      w.result == (match balances[w.count - 1]
                   case Delivered(_) => Ok(true)
                   case Raised(d) => Err(Transport(d)))
    ensures w.count == i || StillZero(balances[w.count - 1]) ==>
      w.count == Ranges.RangeLength(waitTxTime, BalanceInterval) && w.result == Ok(false)
    decreases Ranges.RangeLength(waitTxTime, BalanceInterval) - i
  {
    if !Ranges.Runs(i, BalanceInterval, waitTxTime) then Wait(Ok(false), i)
    else
      match balances[i]
      case Raised(d) => Wait(Err(Transport(d)), i + 1)
      case Delivered(b) =>
        if b > 0 then Wait(Ok(true), i + 1)
        else WaitFrom(balances, i + 1, waitTxTime)
  }

  /** The wait for the tokens: one balance read every twenty seconds while
      less than `waitTxTime` seconds have passed, stopping at the first
      positive balance; a failed read ends the wait with its error. */
  function WaitForTokens(balances: seq<Delivery<nat>>, waitTxTime: int): (w: Wait)
    requires Ranges.RangeLength(waitTxTime, BalanceInterval) <= |balances|
    ensures w.count <= Ranges.RangeLength(waitTxTime, BalanceInterval)
  {
    WaitFrom(balances, 0, waitTxTime)
  }

  /** Index of the first of the first `n` reads that did not deliver a zero
      balance, or `n`. */
  function FirstNonZero(balances: seq<Delivery<nat>>, n: nat): (k: nat)
    requires n <= |balances|
    ensures k <= n
    ensures forall j :: 0 <= j < k ==> StillZero(balances[j])
    ensures k < n ==> !StillZero(balances[k])
    decreases n
  {
    if n == 0 then 0
    else
      var k := FirstNonZero(balances, n - 1);
      if k < n - 1 then k
      else if !StillZero(balances[n - 1]) then n - 1
      else n
  }

  lemma FirstNonZeroUnique(balances: seq<Delivery<nat>>, n: nat, k: nat)
    requires k <= n <= |balances|
    requires forall j :: 0 <= j < k ==> StillZero(balances[j])
    requires k == n || !StillZero(balances[k])
    ensures FirstNonZero(balances, n) == k
  {
  }

  /** The wait ends in exactly one of three ways, decided by the first read
      within ceil(waitTxTime / 20) reads that is not a zero balance: the
      tokens arrived iff it is a positive balance, the node's error iff the
      read failed, and a quiet give-up iff there is none. */
  lemma WaitClassification(balances: seq<Delivery<nat>>, waitTxTime: int)
    requires Ranges.RangeLength(waitTxTime, BalanceInterval) <= |balances|
    ensures
      var w := WaitForTokens(balances, waitTxTime);
      var n := Ranges.RangeLength(waitTxTime, BalanceInterval);
      var k := FirstNonZero(balances, n);
      && (w.result == Ok(true) <==> k < n && balances[k].Delivered?)
      && (w.result.Err? <==> k < n && balances[k].Raised?)
      && (w.result == Ok(false) <==> k == n)
      && w.count == (if k < n then k + 1 else n)
  {
    var w := WaitForTokens(balances, waitTxTime);
    var n := Ranges.RangeLength(waitTxTime, BalanceInterval);
    if w.count > 0 && !StillZero(balances[w.count - 1]) {
      FirstNonZeroUnique(balances, n, w.count - 1);
    } else {
      FirstNonZeroUnique(balances, n, n);
    }
  }

  /** With no wait budget no balance is read. */
  lemma NoBudgetNoReads(balances: seq<Delivery<nat>>, waitTxTime: int)
    requires waitTxTime <= 0
    ensures WaitForTokens(balances, waitTxTime) == Wait(Ok(false), 0)
  {
  }

  /** The wait loop as written, with the elapsed seconds stepping by twenty. */
  method WaitLoop(balances: seq<Delivery<nat>>, waitTxTime: int) returns (result: Result<bool>, count: nat)
    requires Ranges.RangeLength(waitTxTime, BalanceInterval) <= |balances|
    ensures Wait(result, count) == WaitForTokens(balances, waitTxTime)
  {
    var t := 0;
    count := 0;
    while t < waitTxTime
      invariant t == count * BalanceInterval
      invariant count <= Ranges.RangeLength(waitTxTime, BalanceInterval)
      invariant WaitFrom(balances, count, waitTxTime) == WaitForTokens(balances, waitTxTime)
      decreases waitTxTime - t
    {
      assert Ranges.Runs(count, BalanceInterval, waitTxTime);
      var read := balances[count];
      count := count + 1;
      match read {
        case Raised(d) =>
          return Err(Transport(d)), count;
        case Delivered(b) =>
          if b > 0 {
            return Ok(true), count;
          }
      }
      t := t + BalanceInterval;
    }
    assert !Ranges.Runs(count, BalanceInterval, waitTxTime);
    result := Ok(false);
  }

  // ---------------------------------------------------------------------
  // drip_bera
  // ---------------------------------------------------------------------

  /** What the world answers during one drip: the clock at the start, the
      captcha solver's token, the faucet's reply, the clock once the reply
      is in, and the balance reads of the wait. */
  datatype DripInputs = DripInputs(
    now: int,
    captcha: Result<string>,
    claim: Delivery<ClaimReply>,
    claimedAt: int,
    balances: seq<Delivery<nat>>)

  /** The drip's outcome: the wallet afterwards, what was raised, whether a
      captcha was requested, whether the claim was posted, and the balance
      reads made. */
  datatype DripRun = DripRun(wallet: Wallet, result: Result<()>, solvedCaptcha: bool, posted: bool, count: nat)

  /** The faucet accepted the claim. */
  predicate Accepted(inp: DripInputs) {
    inp.captcha.Ok? && inp.claim.Delivered? && AcceptClaim(inp.claim.reply).Ok?
  }

  /** The wallet after an accepted claim. */
  function Dripped(w: Wallet, at: int): Wallet {
    Wallet(w.info.(dripBera := true), at)
  }

  /** `drip_bera(wait_drip_tokens)`: skipped while cooling down; otherwise
      a captcha is solved and the claim posted; an accepted claim marks the
      wallet dripped at `claimedAt` and, when asked to, waits for the
      tokens; any exception is raised as 'Failed to drip $BERA'. */
  function DripBera(w: Wallet, inp: DripInputs, waitDripTokens: bool, waitTxTime: int): (r: DripRun)
    requires Ranges.RangeLength(waitTxTime, BalanceInterval) <= |inp.balances|
    ensures CoolingDown(inp.now, w.lastDripTs) ==> r == DripRun(w, Ok(()), false, false, 0)
    ensures !CoolingDown(inp.now, w.lastDripTs) ==> r.solvedCaptcha && (r.posted <==> inp.captcha.Ok?)
    ensures r.wallet == (if !CoolingDown(inp.now, w.lastDripTs) && Accepted(inp) then Dripped(w, inp.claimedAt) else w)
    ensures r.count > 0 ==> !CoolingDown(inp.now, w.lastDripTs) && Accepted(inp) && waitDripTokens
    ensures r.count ==
      (if !CoolingDown(inp.now, w.lastDripTs) && Accepted(inp) && waitDripTokens
       then WaitForTokens(inp.balances, waitTxTime).count else 0)
    ensures r.result.Err? ==> r.result.error.DripFailed?
    ensures !CoolingDown(inp.now, w.lastDripTs) && inp.captcha.Err? ==>
      r.result == Err(DripFailed(inp.captcha.error))
    ensures !CoolingDown(inp.now, w.lastDripTs) && inp.captcha.Ok? && inp.claim.Raised? ==>
      r.result == Err(DripFailed(Transport(inp.claim.detail)))
    ensures (!CoolingDown(inp.now, w.lastDripTs) && inp.captcha.Ok? && inp.claim.Delivered? &&
             !Text.Contains(inp.claim.reply.msg, "Txhash")) ==>
      r.result == Err(DripFailed(ClaimRejected))
    ensures (!CoolingDown(inp.now, w.lastDripTs) && Accepted(inp) && waitDripTokens &&
             WaitForTokens(inp.balances, waitTxTime).result.Err?) ==>
      r.result == Err(DripFailed(WaitForTokens(inp.balances, waitTxTime).result.error))
    ensures r.result.Ok? <==>
      CoolingDown(inp.now, w.lastDripTs) ||
      (Accepted(inp) && (!waitDripTokens || WaitForTokens(inp.balances, waitTxTime).result.Ok?))
  {
    if CoolingDown(inp.now, w.lastDripTs) then DripRun(w, Ok(()), false, false, 0)
    else
      match inp.captcha
      case Err(e) => DripRun(w, Err(DripFailed(e)), true, false, 0)
      case Ok(_) =>
        match inp.claim
        case Raised(d) => DripRun(w, Err(DripFailed(Transport(d))), true, true, 0)
        case Delivered(reply) =>
          match AcceptClaim(reply)
          case Err(e) => DripRun(w, Err(DripFailed(e)), true, true, 0)
          case Ok(_) =>
            var w' := Dripped(w, inp.claimedAt);
            if !waitDripTokens then DripRun(w', Ok(()), true, true, 0)
            else
              var wait := WaitForTokens(inp.balances, waitTxTime);
              match wait.result
              case Err(e) => DripRun(w', Err(DripFailed(e)), true, true, wait.count)
              case Ok(_) => DripRun(w', Ok(()), true, true, wait.count)
  }

  /** The cooldown gate at 600, 1200 and 1300 seconds after the last
      drip: at 600 the drip is skipped, at 1200 and 1300 it goes ahead. */
  lemma CooldownExamples(last: int)
    ensures CoolingDown(last + 600, last)
    ensures !CoolingDown(last + 1200, last)
    ensures !CoolingDown(last + 1300, last)
  {
  }

  /** An accepted drip arms the cooldown: a second drip started less than
      twenty minutes after the claim touches nothing, and one started
      later goes to the faucet again. */
  lemma DripArmsCooldown(w: Wallet, first: DripInputs, second: DripInputs, waitDripTokens: bool, waitTxTime: int)
    requires Ranges.RangeLength(waitTxTime, BalanceInterval) <= |first.balances|
    requires Ranges.RangeLength(waitTxTime, BalanceInterval) <= |second.balances|
    requires !CoolingDown(first.now, w.lastDripTs) && Accepted(first)
    ensures
      var w1 := DripBera(w, first, waitDripTokens, waitTxTime).wallet;
      var r2 := DripBera(w1, second, waitDripTokens, waitTxTime);
      && w1.info.dripBera
      && (second.now < first.claimedAt + DripCooldown ==> r2 == DripRun(w1, Ok(()), false, false, 0))
      && (second.now >= first.claimedAt + DripCooldown ==> r2.solvedCaptcha)
  {
  }
}
