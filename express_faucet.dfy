/**
  The JavaScript faucet, faucet.js: the required-variable lookup
  `setRequiredVariable`, and the `POST /account/:recipient_address` handler
  over the module-level graylist `address_cache`.

  Address validation (`Crypto.isAddressValid`), the clock, `client.spend`,
  `client.getBalance` and luxon's rendering of the time left in the cooldown
  are foreign and come in as parameters. The cache library's own expiry and
  eviction are the separate step `Forget`.
*/
module ExpressFaucet {
  import opened Wrappers
  import opened Graylist

  /** setRequiredVariable: the value of an environment variable that is set and non-empty
      (a truthy string); otherwise the error it throws. */
  function RequiredVariable(env: map<string, string>, name: string): (r: Result<string, string>)
    ensures r.Success? <==> name in env && env[name] != ""
    ensures r.Success? ==> r.value == env[name] && r.value != ""
    ensures r.Failure? ==> r.error == "ENV-variable missing: " + name
  {
    if name in env && env[name] != "" then Success(env[name])
    else Failure("ENV-variable missing: " + name)
  }

  function InvalidAddress(address: string): string {
    "The provided address is not valid: " + address
  }

  /** The 425 message; `delta` is luxon's rendering of the time left. */
  function GraylistedMessage(address: string, delta: string): string {
    "The address " + address + " is graylisted for another " + delta
  }

  function UnknownError(supportEmail: string): string {
    "\"\"Unknown error, please contact <a href=\"" + supportEmail + "\" class=\"hover:text-pink-lighter\">" +
    supportEmail + "</a>\"\""
  }

  /** The response once the address is reserved. The `catch` sets no status, so an error is
      sent with Express's default 200 as well; only the body tells the two apart. */
  function ReservedResponse(spend: Call<Tx>, balance: Call<int>, supportEmail: string): (r: Response)
    ensures r.status == 200
    ensures r.body.Topped? <==> spend.Returned? && balance.Returned?
    ensures r.body.Topped? ==> r.body == Topped(spend.value.hash, balance.value)
    ensures !r.body.Topped? ==> r.body == Message(UnknownError(supportEmail))
  {
    if spend.Returned? && balance.Returned? then Response(200, Topped(spend.value.hash, balance.value))
    else Response(200, Message(UnknownError(supportEmail)))
  }

  class Server {
    const supportEmail: string   // SUPPORT_EMAIL

    /** address_cache: address to the instant it was reserved. */
    var addressCache: map<string, int>
    /** What the requests did so far, in order. */
    var log: seq<Effect>

    ghost predicate Valid()
      reads this
    {
      Consistent(addressCache, log)
    }

    /** The cache is created empty when the module loads. */
    constructor (supportEmail: string)
      ensures Valid()
      ensures this.supportEmail == supportEmail && addressCache == map[] && log == []
    {
      this.supportEmail := supportEmail;
      addressCache := map[];
      log := [];
    }

    /** One POST /account/:recipient_address request.
        `valid` is Crypto.isAddressValid(address); `now` is DateTime.now(); `delta` is the
        rendered time left for a graylisted address; `spend` and `balance` are the outcomes
        of client.spend and client.getBalance. */
    method TopUp(address: string, valid: bool, now: int, delta: string, spend: Call<Tx>, balance: Call<int>)
      returns (response: Response)
      requires Valid()
      modifies this
      ensures Valid()
      // An invalid address is refused before the cache is looked at.
      ensures !valid ==>
        && response == Response(400, Message(InvalidAddress(address)))
        && addressCache == old(addressCache) && log == old(log)
      // A graylisted address is refused.
      ensures valid && address in old(addressCache) ==>
        && response == Response(425, Message(GraylistedMessage(address, delta)))
        && addressCache == old(addressCache) && log == old(log)
      // Otherwise the address is reserved before the spend, and the reservation is never undone.
      ensures valid && address !in old(addressCache) ==>
        && addressCache == old(addressCache)[address := now]
        && log == old(log) + [Reserve(address, now)] + PayoutCalls(address, true, spend.Returned?)
        && response == ReservedResponse(spend, balance, supportEmail)
    {
      if !valid {
        response := Response(400, Message(InvalidAddress(address)));
        return;
      }
      if address in addressCache {
        response := Response(425, Message(GraylistedMessage(address, delta)));
        return;
      }
      ReservationKeepsConsistent(addressCache, log, address, now, true, spend.Returned?);
      ghost var final := log + [Reserve(address, now)] + PayoutCalls(address, true, spend.Returned?);
      addressCache := addressCache[address := now];
      log := log + [Reserve(address, now), Spend(address)];
      if spend.Raised? {
        response := Response(200, Message(UnknownError(supportEmail)));
        assert log == final;
        return;
      }
      log := log + [QueryBalance(address)];
      if balance.Raised? {
        response := Response(200, Message(UnknownError(supportEmail)));
        assert log == final;
        return;
      }
      assert log == final;
      response := Response(200, Topped(spend.value.hash, balance.value));
    }

    /** The cache may drop an entry at any time (its time-to-live passed, or it was full). */
    method Forget(address: string)
      requires Valid()
      modifies this
      ensures Valid()
      ensures addressCache == old(addressCache) - {address} && log == old(log)
    {
      ForgetKeepsConsistent(addressCache, log, address);
      addressCache := addressCache - {address};
    }
  }

  /** Fail-closed: after a spend that threw, an immediate retry for the same address is refused. */
  method FailedSpendStaysGraylisted(address: string, t0: int, t1: int, detail: string, delta: string, tx: Tx, balance: int)
    returns (first: Response, retry: Response)
    ensures first == Response(200, Message(UnknownError("aepp-dev@aeternity.com")))
    ensures retry == Response(425, Message(GraylistedMessage(address, delta)))
  {
    var server := new Server("aepp-dev@aeternity.com");
    first := server.TopUp(address, true, t0, delta, Raised(OtherError, detail), Returned(balance));
    retry := server.TopUp(address, true, t1, delta, Returned(tx), Returned(balance));
  }
}
