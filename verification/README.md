# Berachain testnet bot — decision logic in Dafny

This project models the deterministic decisions inside a bot that works a
Berachain test-network account. The bot solves reCAPTCHA challenges through
CapSolver, 2Captcha or CapMonster, claims BERA from the faucet, and swaps
and mints on chain. It also renders the account's campaign status. Every
network reply, every clock reading and the captcha solver's token are
inputs: a reply is `Delivered(x)` or `Raised(detail)`. Each operation is a
pure function of those inputs, with a contract that states what the bot
promises.

Modules and files:

- `errors.dfy` (`Errors`): `Option`, `Result` and `Delivery`, plus one
  `Error` constructor for each exception the bot raises or lets through.
- `text.dfy` (`Text`): the few Python string operations that are needed.
  These are `in` on strings, `str(int)` with a parser that reads exactly the
  strings `str` writes (a round trip both ways), and
  `join`/`split` on one character (also a round trip).
- `ranges.dfy` (`Ranges`): how many times `for _ in range(0, stop, step)`
  or `t = 0; while t < stop: t += step` runs its body.
- `dicts.dfy` (`Dicts`): Python dicts as insertion-ordered key/value
  sequences, with `get`, item assignment and `update`.
- `retry.dfy` (`Retry`): the five-attempt `solve_captcha_retry` wrapper.
- `captcha.dfy` (`Captcha`): vendor priority, task-type choice, the
  `createTask` payload, the `errorId` checks, the `getTaskResult` poll loop
  and the two retried entry points.
- `transactions.dfy` (`Transactions`): fee arithmetic, building and
  sending a transaction, the receipt-poll state machine and
  `approve_if_needed`.
- `faucet.dfy` (`Faucet`): `drip_bera`, which covers the cooldown, the
  claim handler and the wait for tokens.
- `prechecks.dfy` (`Prechecks`): the balance checks that open `_swap_bera`
  and `_mint_honey`.
- `models.dfy` (`Models`): `AccountInfo`, `STATUS_BY_BOOL`,
  `campaign_points_str`, `str_stats` and the status properties.

Each loop that talks to the outside world appears twice: the retry
wrapper, the captcha poll loop, the receipt poll loop and the wait for
dripped tokens. One copy is a recursive function over the reply sequence.
The other is a method that follows the source's loop, with the counter it
uses, and its invariants prove the two agree. The dict comprehension,
`dict.update` and the line join in `str_stats` are recursive functions
only.

Three consequences of the code's control flow are worth stating:

- The captcha poll loop runs while `waited <= 180` and adds 10 before each
  poll, so it makes up to 19 polls.
- Three "processing" replies followed by a ready one means the solution
  arrives on the fourth poll. `Captcha.ThreePendingThenReady` states
  exactly that.
- The "no captcha service API keys" error is raised inside the retry
  wrapper, so it is attempted five times before it surfaces
  (`Captcha.NoKeysRetriedFiveTimes`).

## Model

| member | source | states |
|---|---|---|
| Retry.RetryFrom | internal/captcha/captcha.py:17-24 | from attempt i on: at most five calls; the result is the last call's; every earlier call raised; an error only after the fifth call |
| Retry.Retry | internal/captcha/captcha.py:15-26 | at most five invocations; the first success is returned; all earlier attempts raised; after five failures the fifth attempt's exception is re-raised |
| Retry.RetryLoop | internal/captcha/captcha.py:17-24 | the `last_exc` loop as written gives the same result and call count as `Retry` |
| Captcha.SendsProxyExactly | internal/captcha/captcha.py:29-32 | of the three enum values, exactly the proxyless one contains "Proxyless" |
| Captcha.SelectVendor | internal/captcha/captcha.py:37-53 | the chosen vendor has a non-empty key and every higher-priority vendor's key is empty; the "no keys" error iff all three keys are empty |
| Captcha.TaskTypeFor | internal/captcha/captcha.py:38-72 | v2 always uses RecaptchaV2Task; v3 sends proxy fields (RecaptchaV3Task) iff the vendor is CapSolver, and otherwise uses the proxyless type |
| Captcha.FixedProperties | internal/captcha/captcha.py:38-72 | v2 adds exactly `userAgent`; v3 adds exactly `pageAction` and `minScore` |
| Captcha.ProxyFields | internal/captcha/captcha.py:89-95 | the proxy update has exactly the five proxy keys: the scheme under `proxyType`, the host under `proxyAddress`, the port under `proxyPort`, the user name under `proxyLogin` and the password under `proxyPassword`, with a missing part as null |
| Captcha.TaskPayload | internal/captcha/captcha.py:78-95 | the key set is type/URL/site key plus the extra properties, plus the five proxy keys iff a proxy is given and the type is not proxyless; each value comes from its source, and extras override the base fields |
| Captcha.CheckCreate | internal/captcha/captcha.py:102-105 | success iff `errorId == 0`, returning `taskId`; otherwise the error carries the vendor's code and description |
| Captcha.Step | internal/captcha/captcha.py:114-131 | a poll continues iff it is delivered with `errorId == 0` and no solution; a non-zero `errorId` stops with the code and description; a success carries the solution's token; the status text plays no part |
| Captcha.PollFrom | internal/captcha/captcha.py:122-133 | from poll i on: at most 19 polls; every earlier poll continued; the last poll decides, or the error is a timeout after 19 polls |
| Captcha.PollLoop | internal/captcha/captcha.py:122-133 | 1 to 19 polls, sleeping at most 190 s; the loop stops at the first stopping poll and returns its verdict; otherwise it times out |
| Captcha.PollSuccessIff | internal/captcha/captcha.py:122-135 | it returns token t iff the first stopping poll among 19 carries a solution with token t, and it then made exactly that many polls |
| Captcha.PollTimeoutIff | internal/captcha/captcha.py:128-133 | timeout iff no poll among 19 stops the loop, or the first solution has a null token |
| Captcha.PollTaskResult | internal/captcha/captcha.py:122-135 | the loop as written (`waited`, `continue`, `break`, then the null check) gives the same result and poll count as `PollLoop` |
| Captcha.ThreePendingThenReady | internal/captcha/captcha.py:122-131 | three "processing" replies and then a ready one give "TOKEN" after 4 polls |
| Captcha.SolveOnce | internal/captcha/captcha.py:77-133 | no keys: raise before any request; a request is sent iff a key exists and no keyword is passed twice, and it goes to the priority vendor; polling only after an accepted createTask; a raised createTask is that exception with no polls; a non-zero `errorId` is a createTask error with the vendor's code and description and no polls; after an accepted createTask the attempt is exactly the poll loop's outcome; a keyword passed twice raises before any request |
| Captcha.SolveRecaptcha | internal/captcha/captcha.py:15-26 | attempt i plays script i; the result is the first successful attempt's, with all earlier attempts failed; an error only after five attempts |
| Captcha.SolveRecaptchaV2 | internal/captcha/captcha.py:35-53 | 1 to 5 attempts; with no keys, `NoApiKeys` after 5 attempts; a success used the v2 request for the priority vendor |
| Captcha.SolveRecaptchaV3 | internal/captcha/captcha.py:56-74 | 1 to 5 attempts; with no keys, `NoApiKeys` after 5 attempts; a success used the v3 request for the priority vendor |
| Captcha.PayloadProxy | internal/captcha/captcha.py:87-95 | when the extra properties avoid the proxy keys, the task has all five proxy fields iff a proxy is given and the task type is not proxyless, and none of them otherwise |
| Captcha.V2Request | internal/captcha/captcha.py:36-51 | a v2 task is RecaptchaV2Task with the user agent, and carries the proxy fields iff a proxy is given |
| Captcha.V3Request | internal/captcha/captcha.py:57-72 | a v3 task carries `pageAction` and `minScore` 0.9; it is RecaptchaV3Task with proxy fields iff the vendor is CapSolver (and a proxy is given), and otherwise it is proxyless with no proxy fields |
| Captcha.NoKeysRetriedFiveTimes | internal/captcha/captcha.py:52-53 | with no key, each of the five attempts raises before any request, and `NoApiKeys` is raised after the fifth |
| Transactions.QuoteFees | internal/onchain/account.py:92-95 | the tip is twice the suggestion and the max fee is at least the tip; the transaction is includable iff the base fee is at most 2·base + 2·tip; up to twice the current base fee the full tip is paid |
| Transactions.FeeExample | internal/onchain/account.py:92-95 | base fee 100 and tip 10 give 20 and 220 |
| Transactions.GasLimit | internal/onchain/account.py:104-106 | the gas limit is floor(6·estimate/5), so never below the estimate |
| Transactions.BuildAndSendTx | internal/onchain/account.py:90-113 | it succeeds iff all six awaited calls deliver (tip, block, nonce, `build_transaction`, estimate, send); the sent transaction has the quoted fees, the node's nonce, the padded gas and the value; a failed estimate is a simulation failure and every other failure raises that call's own exception |
| Transactions.Settle | internal/onchain/account.py:121-128 | a present receipt succeeds iff its status is 1, and is otherwise a failed tx; other exceptions propagate |
| Transactions.VerifyFrom | internal/onchain/account.py:119-137 | from poll i on: at most ceil(W/latency) polls; every earlier poll was absent; the first present poll settles the result, and otherwise the tx is pending |
| Transactions.TxVerification | internal/onchain/account.py:115-137 | the same as `VerifyFrom`, from zero |
| Transactions.VerificationClassification | internal/onchain/account.py:117-137 | exactly one outcome, decided by the first present poll: success iff status 1, failed iff another or missing status, pending iff there is none; the poll count is that index + 1 |
| Transactions.NoBudgetIsPending | internal/onchain/account.py:119-137 | a non-positive wait budget means no polls and a pending tx |
| Transactions.VerifyTx | internal/onchain/account.py:115-137 | the `time_passed` loop as written gives the same verdict as `TxVerification` |
| Transactions.ApproveIfNeeded | internal/onchain/account.py:143-146 | a raised allowance read is that exception; otherwise an approval is sent iff the allowance read is below the amount, and it is always for 2^256−1 |
| Transactions.ApprovalCoversAmount | internal/onchain/account.py:143-146 | once the allowance read delivers, afterwards the allowance covers any uint256 amount; without an approval it is unchanged |
| Faucet.AcceptClaim | internal/onchain/account.py:60-63 | the reply is accepted iff its msg contains "Txhash", and the msg is returned unchanged |
| Faucet.AcceptClaimExamples | internal/onchain/account.py:60-63 | a msg with "Txhash" is accepted; "Rate limited" is rejected |
| Faucet.WaitFrom | internal/onchain/account.py:78-85 | from read i on: at most ceil(W/20) reads; every earlier read was zero; the first non-zero read decides, and otherwise the wait gives up quietly |
| Faucet.WaitForTokens | internal/onchain/account.py:76-85 | at most ceil(W/20) balance reads |
| Faucet.WaitClassification | internal/onchain/account.py:76-85 | tokens arrived iff the first non-zero read is a positive balance; an error iff it failed; a quiet give-up iff there is none; the read count is that index + 1 or ceil(W/20) |
| Faucet.NoBudgetNoReads | internal/onchain/account.py:78 | W ≤ 0 means no reads |
| Faucet.WaitLoop | internal/onchain/account.py:78-85 | the loop stepping by 20 gives the same outcome as `WaitForTokens` |
| Faucet.DripBera | internal/onchain/account.py:47-88 | cooling down: no captcha, no post, nothing changes; otherwise the captcha is solved and the claim posted iff a token came back; the wallet is marked dripped at the claim time iff the claim is accepted, even if the wait then fails; every error is "Failed to drip $BERA" wrapping its cause: the captcha error, the claim's exception, a rejected claim, or the wait's error; balance reads only when asked to wait |
| Faucet.CooldownExamples | internal/onchain/account.py:49-51 | 600 s after the last drip it is skipped; at 1200 s and 1300 s it proceeds |
| Faucet.DripArmsCooldown | internal/onchain/account.py:49-74 | after an accepted drip, a second drip within 1200 s of the claim does nothing, and a later one goes to the faucet again |
| Prechecks.ReRead | internal/onchain/account.py:154-156 | the balance passes iff it was delivered and is ≥ 10^16; a lower balance raises "Not enough $BERA balance" with it |
| Prechecks.SwapPrecheck | internal/onchain/account.py:150-156 | it drips iff the first balance is below 10^16; the wallet changes only through that drip; the balance is re-read iff the pre-check gets past the first read and the drip; "Not enough" iff the re-read balance is still below 10^16; a drip error propagates; a raised first read is that exception with no drip and the wallet unchanged; a raised re-read is that exception |
| Prechecks.FundedWalletNoDrip | internal/onchain/account.py:150-156 | a balance of at least 10^16 means no drip and the wallet is unchanged |
| Prechecks.CoolingDripStillRereads | internal/onchain/account.py:150-156 | a drip skipped by the cooldown still re-reads, and the re-read alone decides |
| Prechecks.ThresholdBoundary | internal/onchain/account.py:151 | exactly 10^16 wei needs no drip; 10^16 − 1 does |
| Prechecks.MintPrecheck | internal/onchain/account.py:196-201 | it swaps iff the first stgUSDC balance is 0; the balance is re-read only after a successful swap; the mint goes on with the read it ended on; a swap error propagates; a raised first read or re-read is that exception |
| Prechecks.MintGoesOnWithEmptyReread | internal/onchain/account.py:198-201 | an empty re-read after the swap is passed on as 0, not raised |
| Models.StatusByBool | internal/models/models.py:8-11 | one mark per flag, and reading the mark back gives the flag |
| Models.CampaignPointsStr | internal/models/models.py:42-49 | "0" for a missing or falsy entry; otherwise the text reads back as (points, completion flag) |
| Models.ParsePointsTextExact | internal/models/models.py:46-49 | a text that reads back as some points and flag is exactly `str(points)` with the optional " / " and mark, so `campaign_points_str`'s text is fixed by its contract |
| Models.PointsTextRoundTrip | internal/models/models.py:46-49 | str(points), optionally followed by " / " and a mark, reads back as the points and the flag (None iff no suffix) |
| Models.CampaignStats | internal/models/models.py:34 | defined iff no entry is falsy; distinct keys; every campaign name is a key; with distinct names the keys are the names in points order |
| Models.Stats | internal/models/models.py:34-39 | the three fixed labels map to the flags' marks, overriding any same-named campaign; every campaign name is a key; with distinct names that avoid the labels, the keys are the names in order, then the three labels |
| Models.StatsCampaignValue | internal/models/models.py:34-49 | a campaign name outside the three labels maps to the points text of the last entry that carries it |
| Models.CampaignStatsGet | internal/models/models.py:34 | the comprehension maps each name to `campaign_points_str` of the last entry that carries it: a later entry with the same name overwrites an earlier one |
| Models.StrStats | internal/models/models.py:33-40 | defined iff no entry is falsy; it is the stats lines joined by "\n" |
| Models.ConcatIsJoin | internal/models/models.py:40 | appending "\n" to each line and dropping the last character equals joining with "\n" |
| Models.StrStatsLines | internal/models/models.py:40 | splitting the output on "\n" gives back exactly one "\t{name}: {value}" line per stats entry |
| Models.DripBeraS | internal/models/models.py:51-53 | the mark reads back as `drip_bera` |
| Models.SwapBeraS | internal/models/models.py:55-57 | the mark reads back as `swap_bera` |
| Models.MintHoneyS | internal/models/models.py:59-61 | the mark reads back as `mint_honey` |
| Models.TwitterErrorS | internal/models/models.py:63-65 | non-empty iff `twitter_error`, and then exactly 🔴 |

## Left out

- All real I/O becomes inputs: the HTTP sessions, `TLSClient`, and the node calls (fees, block, nonce, `build_transaction`, estimate, send, receipt, balances, contract calls). `TLSClient`'s status-code check is folded into `Raised`.
- `asyncio.sleep` and `time.time()`: the sleeps are the loop counters, and the two clock readings of `drip_bera` are the inputs `now` and `claimedAt`.
- Signing (`sign_transaction`, `AccountInfo.sign_message`) calls `eth_account` and is not modelled. The model records the request that would be signed.
- `async_retry` (from `..utils`) is not part of this model. Its attempt count is unknown, so `create_task`, `_build_and_send_tx`, `drip_bera`, `_swap_bera` and `_mint_honey` are modelled as a single attempt.
- `solve_cloudflare_challenge` and `FAUCET_CLOUDFLARE_SITE_KEY` are imported but defined nowhere in the source. The faucet captcha token is an input `Result<string>`.
- `last_drip_ts` is read and written but not declared on `AccountInfo`. It lives beside the record in `Faucet.Wallet`.
- The randomized swap and mint amounts, the Decimal conversions, the 10% slippage and the swap route request are float or random logic, so they are left out. The pre-checks stop at the balance the amount would be drawn from.
- Transactions.BuildAndSendTx: only whether `build_transaction` raises is modelled; the call data, recipient and chain id it adds to the transaction are not, so the sent `TxRequest` lists just the fields the bot sets itself.
- Models.CampaignStats: when two campaign ids share a name, the key order is not stated. The value is stated: it comes from the last entry with that name. The key order is stated only when the names are distinct.
- Transactions.GasLimit: `int(estimate * 1.2)` is a float product. It is modelled as the exact floor(6·estimate/5); the float rounding error is not modelled.
- The "Not enough $BERA balance" message formats the balance as a decimal with five places. The error carries the raw wei balance.
- Proxy URL parsing (`urlparse(get_proxy_url(...))`) is not modelled. The parsed parts are an input record.
- A vendor reply that lacks `errorId`, `taskId` or `gRecaptchaResponse` raises `KeyError` in the source. It is not modelled; a null `gRecaptchaResponse` is.
- A faucet reply without `msg` is not modelled; the reply always has a message text.
- Exception message texts and exception chaining are represented by `Error` constructors, not by strings. For example, `str(e)` inside "Failed to drip $BERA" is the wrapped `Error`.
- `build_and_send_tx`, `swap_bera` and `mint_honey` only chain the modelled parts, or wrap their errors in a message. The swap's outcome is an input to the mint pre-check.
- `internal/onchain/constants.py` holds addresses, URLs, ABI loading and an enum with no logic, so it is left out. Logging and colour output are left out too.
