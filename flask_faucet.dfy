/**
  The Python faucet's top-up handler, `rest_faucet` in faucet.py, over the
  process-wide graylist `app.config['address_cache']`.

  The cache maps an account address to the instant (in microseconds) of the
  request that reserved it. Instants, address validation (`is_valid_hash`),
  building the sender account, the spend, the balance lookup and the chat
  notification are foreign: each comes in as a parameter giving its outcome.
  The expiring dictionary's own expiry and eviction are the separate step
  `Forget`.
*/
module FlaskFaucet {
  import opened Wrappers
  import opened Graylist
  import PrettyTime

  const InvalidAccount := "The provided account is not valid"
  const NodeUnavailable := "The node is temporarily unavailable, please try again later"

  /** The message of the 425 response; `expiry` is the registration instant plus the cooldown. */
  function GraylistedMessage(expiry: int, now: int): string {
    "The account is graylisted for another " + PrettyTime.PrettyTimeDelta(expiry, now)
  }

  /** The same text for the notification, naming the account. */
  function GraylistedNote(address: string, expiry: int, now: int): string {
    "The account `" + address + "` is graylisted for another " + PrettyTime.PrettyTimeDelta(expiry, now)
  }

  function UnknownError(supportEmail: string): string {
    "Unknown error, please contact\n        <a href=\"" + supportEmail + "\" class=\"hover:text-pink-lighter\">" + supportEmail + "</a>"
  }

  /** The two `except` clauses: an SDK API error is reported as 503, any other exception as 500. */
  function ErrorResponse(kind: ErrorKind, supportEmail: string): (r: Response)
    ensures r.status == 503 <==> kind == ApiError
    ensures r.status == 500 <==> kind == OtherError
    ensures r.body.Message?
  {
    match kind
    case ApiError => Response(503, Message(NodeUnavailable))
    case OtherError => Response(500, Message(UnknownError(supportEmail)))
  }

  /** The first of the three payout calls that raised: it decides the `except` clause taken. */
  function FirstRaised(sender: Call<()>, spend: Call<Tx>, balance: Call<int>): Option<(ErrorKind, string)> {
    if sender.Raised? then Some((sender.kind, sender.detail))
    else if spend.Raised? then Some((spend.kind, spend.detail))
    else if balance.Raised? then Some((balance.kind, balance.detail))
    else None
  }

  /** The response once the address is reserved: the transaction hash and the balance read
      after it when every call returned, otherwise the error response of the first exception. */
  function PayoutResponse(sender: Call<()>, spend: Call<Tx>, balance: Call<int>, supportEmail: string): (r: Response)
    ensures r.status == 200 <==> FirstRaised(sender, spend, balance).None?
    ensures r.status == 200 ==> r.body == Topped(spend.value.hash, balance.value)
    ensures r.status == 503 <==> FirstRaised(sender, spend, balance).Some? && FirstRaised(sender, spend, balance).value.0 == ApiError
    ensures r.status == 500 <==> FirstRaised(sender, spend, balance).Some? && FirstRaised(sender, spend, balance).value.0 == OtherError
  {
    if sender.Raised? then ErrorResponse(sender.kind, supportEmail)
    else if spend.Raised? then ErrorResponse(spend.kind, supportEmail)
    else if balance.Raised? then ErrorResponse(balance.kind, supportEmail)
    else Response(200, Topped(spend.value.hash, balance.value))
  }

  class App {
    // Configuration, fixed at start-up (module constants and cmd_start).
    const cacheMaxAge: int       // CACHE_MAX_AGE, in seconds
    const topupAmount: nat       // TOPUP_AMOUNT, in aettos
    const amountText: string     // format_amount(TOPUP_AMOUNT)
    const nodeName: string       // NODE_URL without "https://"
    const supportEmail: string   // SUPPORT_EMAIL
    const telegramEnabled: bool  // TELEGRAM_API_TOKEN is set

    /** app.config['address_cache']: address to the instant it was reserved. */
    var addressCache: map<string, int>
    /** What the requests did so far, in order. */
    var log: seq<Effect>

    ghost predicate Valid()
      reads this
    {
      Consistent(addressCache, log)
    }

    /** cmd_start: the graylist starts empty. */
    constructor (cacheMaxAge: int, topupAmount: nat, amountText: string, nodeName: string,
                 supportEmail: string, telegramEnabled: bool)
      ensures Valid()
      ensures this.cacheMaxAge == cacheMaxAge && this.topupAmount == topupAmount
      ensures this.amountText == amountText && this.nodeName == nodeName
      ensures this.supportEmail == supportEmail && this.telegramEnabled == telegramEnabled
      ensures addressCache == map[] && log == []
    {
      this.cacheMaxAge := cacheMaxAge;
      this.topupAmount := topupAmount;
      this.amountText := amountText;
      this.nodeName := nodeName;
      this.supportEmail := supportEmail;
      this.telegramEnabled := telegramEnabled;
      addressCache := map[];
      log := [];
    }

    /** The `finally` block: a notification is attempted only when a bot token is configured. */
    function Notification(text: string): (r: seq<Effect>)
      ensures |r| <= 1
      ensures forall i :: 0 <= i < |r| ==> r[i] == Notify(text)
      ensures r != [] <==> telegramEnabled
    {
      if telegramEnabled then [Notify(text)] else []
    }

    function CreditedNote(address: string, tx: Tx): string {
      "Account `" + address + "` credited with " + amountText + " tokens on `" + nodeName + "`. (tx hash: `" + tx.text + "`)"
    }

    /** Both `except` clauses notify with the same text, carrying the exception's. */
    function FailureNote(address: string, detail: string): string {
      "API error: top up account " + address + " of " + PrettyTime.Decimal(topupAmount) + " on " + nodeName +
      " failed with error " + detail
    }

    /** The notification text once the address is reserved. */
    function PayoutNote(recipient: string, sender: Call<()>, spend: Call<Tx>, balance: Call<int>): (r: string)
      ensures FirstRaised(sender, spend, balance).None? <==> spend.Returned? && r == CreditedNote(recipient, spend.value)
      ensures FirstRaised(sender, spend, balance).Some? ==>
        r == FailureNote(recipient, FirstRaised(sender, spend, balance).value.1)
    {
      match FirstRaised(sender, spend, balance)
      case Some((_, detail)) =>
        var note := FailureNote(recipient, detail);
        assert spend.Returned? ==> note[1] != CreditedNote(recipient, spend.value)[1];
        note
      case None => CreditedNote(recipient, spend.value)
    }

    /** One POST /account/<recipient> request.
        `valid` is is_valid_hash(recipient, prefix='ak'); `now` is datetime.now();
        `sender`, `spend` and `balance` are the outcomes of building the sender account,
        client.spend and get_account_by_pubkey; `delivered` is whether the notification arrived. */
    method RestFaucet(recipient: string, valid: bool, now: int, sender: Call<()>, spend: Call<Tx>,
                      balance: Call<int>, delivered: bool) returns (response: Response)
      requires Valid()
      modifies this
      ensures Valid()
      // An invalid address is refused before the cache is looked at.
      ensures !valid ==>
        && response == Response(400, Message(InvalidAccount))
        && addressCache == old(addressCache)
        && log == old(log) + Notification(InvalidAccount)
      // A graylisted address is refused; the message gives the time left.
      ensures valid && recipient in old(addressCache) ==>
        var expiry := old(addressCache)[recipient] + cacheMaxAge * PrettyTime.MicrosPerSecond;
        && response == Response(425, Message(GraylistedMessage(expiry, now)))
        && addressCache == old(addressCache)
        && log == old(log) + Notification(GraylistedNote(recipient, expiry, now))
      // Otherwise the address is reserved first, and stays reserved whatever happens next.
      ensures valid && recipient !in old(addressCache) ==>
        && addressCache == old(addressCache)[recipient := now]
        && response == PayoutResponse(sender, spend, balance, supportEmail)
        && log == old(log) + [Reserve(recipient, now)] +
                  PayoutCalls(recipient, sender.Returned?, sender.Returned? && spend.Returned?) +
                  Notification(PayoutNote(recipient, sender, spend, balance))
    {
      var note: string;
      if !valid {
        note := InvalidAccount;
        response := Response(400, Message(note));
      } else if recipient in addressCache {
        var registration := addressCache[recipient];
        var expiry := registration + cacheMaxAge * PrettyTime.MicrosPerSecond;
        note := GraylistedNote(recipient, expiry, now);
        response := Response(425, Message(GraylistedMessage(expiry, now)));
      } else {
        response, note := Admit(recipient, now, sender, spend, balance);
      }
      // finally: the notification is attempted after the response is chosen; a failed
      // delivery (!delivered) is logged and swallowed, so it changes nothing here.
      NotificationsKeepConsistent(addressCache, log, Notification(note));
      log := log + Notification(note);
    }

    /** The body of the `try` from line 124 on: reserve the address, then pay out; the
        `except` clauses turn a raised exception into the response and the notification text. */
    method Admit(recipient: string, now: int, sender: Call<()>, spend: Call<Tx>, balance: Call<int>)
      returns (response: Response, note: string)
      requires Valid() && recipient !in addressCache
      modifies this
      ensures Valid()
      ensures addressCache == old(addressCache)[recipient := now]
      ensures log == old(log) + [Reserve(recipient, now)] +
                     PayoutCalls(recipient, sender.Returned?, sender.Returned? && spend.Returned?)
      ensures response == PayoutResponse(sender, spend, balance, supportEmail)
      ensures note == PayoutNote(recipient, sender, spend, balance)
    {
      ReservationKeepsConsistent(addressCache, log, recipient, now, sender.Returned?,
                                 sender.Returned? && spend.Returned?);
      ghost var final := log + [Reserve(recipient, now)] +
                         PayoutCalls(recipient, sender.Returned?, sender.Returned? && spend.Returned?);
      addressCache := addressCache[recipient := now];
      log := log + [Reserve(recipient, now)];
      if sender.Raised? {
        response, note := ErrorResponse(sender.kind, supportEmail), FailureNote(recipient, sender.detail);
        assert log == final;
        return;
      }
      log := log + [Spend(recipient)];
      if spend.Raised? {
        response, note := ErrorResponse(spend.kind, supportEmail), FailureNote(recipient, spend.detail);
        assert log == final;
        return;
      }
      log := log + [QueryBalance(recipient)];
      if balance.Raised? {
        response, note := ErrorResponse(balance.kind, supportEmail), FailureNote(recipient, balance.detail);
        assert log == final;
        return;
      }
      note := CreditedNote(recipient, spend.value);
      response := Response(200, Topped(spend.value.hash, balance.value));
      assert log == final;
    }

    /** The expiring dictionary may drop an entry at any time (its age passed, or the cache was full). */
    method Forget(address: string)
      requires Valid()
      modifies this
      ensures Valid()
      ensures addressCache == old(addressCache) - {address} && log == old(log)
    {
      ForgetKeepsConsistent(addressCache, log, address);
      addressCache := addressCache - {address};
    }
  }

  /** A second request inside the cooldown is refused with the time left, after a payout that went through. */
  method RepeatWithinCooldown(recipient: string, cacheMaxAge: int, t0: int, t1: int, tx: Tx, balance: int)
    returns (first: Response, second: Response)
    ensures first == Response(200, Topped(tx.hash, balance))
    ensures second == Response(425, Message(GraylistedMessage(t0 + cacheMaxAge * PrettyTime.MicrosPerSecond, t1)))
  {
    var app := new App(cacheMaxAge, 5, "5AE", "testnet.aeternity.io", "aepp-dev@aeternity.com", false);
    first := app.RestFaucet(recipient, true, t0, Returned(()), Returned(tx), Returned(balance), true);
    second := app.RestFaucet(recipient, true, t1, Returned(()), Returned(tx), Returned(balance), true);
  }

  /** Fail-closed: a payout the node refused still occupies the cooldown, so an immediate retry is refused. */
  method FailedPayoutStaysGraylisted(recipient: string, cacheMaxAge: int, t0: int, t1: int, detail: string, tx: Tx, balance: int)
    returns (first: Response, retry: Response)
    ensures first == Response(503, Message(NodeUnavailable))
    ensures retry.status == 425
  {
    var app := new App(cacheMaxAge, 5, "5AE", "testnet.aeternity.io", "aepp-dev@aeternity.com", true);
    first := app.RestFaucet(recipient, true, t0, Returned(()), Raised(ApiError, detail), Returned(balance), false);
    retry := app.RestFaucet(recipient, true, t1, Returned(()), Returned(tx), Returned(balance), true);
  }

  /** Once the cache has dropped the entry, the address is admitted again and its new window starts at the new request. */
  method ReadmittedAfterExpiry(recipient: string, cacheMaxAge: int, t0: int, t1: int, tx: Tx, balance: int)
    returns (second: Response, reservedAt: int)
    ensures second == Response(200, Topped(tx.hash, balance))
    ensures reservedAt == t1
  {
    var app := new App(cacheMaxAge, 5, "5AE", "testnet.aeternity.io", "aepp-dev@aeternity.com", false);
    var first := app.RestFaucet(recipient, true, t0, Returned(()), Returned(tx), Returned(balance), true);
    app.Forget(recipient);
    second := app.RestFaucet(recipient, true, t1, Returned(()), Returned(tx), Returned(balance), true);
    reservedAt := app.addressCache[recipient];
  }
}
