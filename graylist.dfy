/**
  What the two graylisting handlers (faucet.py `rest_faucet`, faucet.js
  `POST /account/:recipient_address`) have in common: the outcomes of the
  foreign calls they make, the response they build, and the log of state
  changes and external calls that fixes their order.
*/
module Graylist {

  /** How a foreign call failed: an `OpenAPIClientException` of the node SDK, or any other exception. */
  datatype ErrorKind = ApiError | OtherError

  /** The outcome of a foreign call: the value it returned, or the exception it raised with its text. */
  datatype Call<+T> = Returned(value: T) | Raised(kind: ErrorKind, detail: string)

  /** The spend transaction the SDK returns: its hash, and its printed form. */
  datatype Tx = Tx(hash: string, text: string)

  /** The JSON body of a response: `{"message": ...}` or `{"tx_hash": ..., "balance": ...}`. */
  datatype Body = Message(text: string) | Topped(txHash: string, balance: int)

  datatype Response = Response(status: int, body: Body)

  /** What a request does outside its own locals, in order. */
  datatype Effect =
    | Reserve(address: string, at: int)   // the address is written into the cache with the request's instant
    | Spend(address: string)              // the payout transaction is submitted
    | QueryBalance(address: string)       // the recipient's balance is read
    | Notify(text: string)                // a chat notification is attempted

  /** The effect at position i is in its place: a payout comes right after its address was
      reserved, and a balance query right after the payout to the same address. */
  predicate InPlace(log: seq<Effect>, i: nat)
    requires i < |log|
  {
    match log[i]
    case Spend(a) => 0 < i && log[i - 1].Reserve? && log[i - 1].address == a
    case QueryBalance(a) => 0 < i && log[i - 1] == Spend(a)
    case _ => true
  }

  ghost predicate Ordered(log: seq<Effect>) {
    forall i :: 0 <= i < |log| ==> InPlace(log, i)
  }

  /** Every cache entry was put there by a recorded reservation. */
  ghost predicate CacheRecorded(cache: map<string, int>, log: seq<Effect>) {
    forall a :: a in cache ==> Reserve(a, cache[a]) in log
  }

  ghost predicate Consistent(cache: map<string, int>, log: seq<Effect>) {
    Ordered(log) && CacheRecorded(cache, log)
  }

  /** The calls made after a reservation: the payout once the sender is ready, the balance once the payout went through. */
  function PayoutCalls(address: string, ready: bool, spent: bool): (calls: seq<Effect>)
    requires spent ==> ready
  {
    if !ready then [] else if !spent then [Spend(address)] else [Spend(address), QueryBalance(address)]
  }

  /** Recording a new reservation and the payout calls after it keeps the log consistent with the cache. */
  lemma ReservationKeepsConsistent(cache: map<string, int>, log: seq<Effect>, address: string, at: int,
                                   ready: bool, spent: bool)
    requires Consistent(cache, log)
    requires spent ==> ready
    ensures Consistent(cache[address := at], log + [Reserve(address, at)] + PayoutCalls(address, ready, spent))
  {
    var log' := log + [Reserve(address, at)] + PayoutCalls(address, ready, spent);
    forall i | 0 <= i < |log'|
      ensures InPlace(log', i)
    {
      if i < |log| {
        assert InPlace(log, i);
        assert log'[i] == log[i] && (0 < i ==> log'[i - 1] == log[i - 1]);
      }
    }
    var cache' := cache[address := at];
    forall a | a in cache'
      ensures Reserve(a, cache'[a]) in log'
    {
      if a == address {
        assert log'[|log|] == Reserve(address, at);
      } else {
        var i :| 0 <= i < |log| && log[i] == Reserve(a, cache[a]);
        assert log'[i] == log[i];
      }
    }
  }

  /** Appending only notification attempts keeps the log consistent with an unchanged cache. */
  lemma NotificationsKeepConsistent(cache: map<string, int>, log: seq<Effect>, others: seq<Effect>)
    requires Consistent(cache, log)
    requires forall i :: 0 <= i < |others| ==> others[i].Notify?
    ensures Consistent(cache, log + others)
  {
    var log' := log + others;
    forall i | 0 <= i < |log'|
      ensures InPlace(log', i)
    {
      if i < |log| {
        assert InPlace(log, i);
        assert log'[i] == log[i] && (0 < i ==> log'[i - 1] == log[i - 1]);
      }
    }
    forall a | a in cache
      ensures Reserve(a, cache[a]) in log'
    {
      var i :| 0 <= i < |log| && log[i] == Reserve(a, cache[a]);
      assert log'[i] == log[i];
    }
  }

  /** Removing entries from the cache keeps it consistent with the log. */
  lemma ForgetKeepsConsistent(cache: map<string, int>, log: seq<Effect>, address: string)
    requires Consistent(cache, log)
    ensures Consistent(cache - {address}, log)
  {
  }
}
