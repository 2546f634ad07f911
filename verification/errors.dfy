/** Failure values shared by every part of the model.

    The bot signals every failure with a Python exception; here each
    exception it raises (or lets through) is one constructor of `Error`,
    and every operation that can raise returns a `Result`.
 */
module Errors {

  datatype Option<+T> = None | Some(value: T)

  /** The exceptions of the bot, by the message they carry. */
  datatype Error =
    /** 'No captcha service API keys specified' */
    | NoApiKeys
    /** Python's TypeError for a keyword argument given twice in one call */
    | ArgumentClash
    /** 'Create task error {errorCode}: {errorDescription}' */
    | CreateTaskError(code: Option<string>, description: Option<string>)
    /** 'Get task result error {errorCode}: {errorDescription}' */
    | TaskResultError(code: Option<string>, description: Option<string>)
    /** 'Captcha solving takes too long' */
    | CaptchaTimeout
    /** an exception raised by an I/O collaborator (HTTP client, chain node) */
    | Transport(detail: string)
    /** the bare Exception() the faucet-claim handler raises */
    | ClaimRejected
    /** 'Failed to drip $BERA: {cause}' */
    | DripFailed(cause: Error)
    /** 'Tx simulation failed: {detail}' */
    | SimulationFailed(detail: string)
    /** 'Failed tx: {link}' -- a mined transaction whose status is not 1 */
    | FailedTx(txHash: string)
    /** '{action} - Pending tx: {link}' -- no receipt within the wait budget */
    | PendingTx(action: string, txHash: string)
    /** 'Not enough $BERA balance: {balance}' */
    | NotEnoughBera(balance: nat)

  datatype Result<+T> = Ok(value: T) | Err(error: Error)

  /** What one call to an I/O collaborator produced: the reply it delivered,
      or the exception it raised. */
  datatype Delivery<+T> = Delivered(reply: T) | Raised(detail: string)
}
