# aepp-faucet: the duration formatter and the graylisting handlers

The faucet is a web service that pays a fixed amount of AE tokens to an
account address. To limit abuse it keeps a graylist: an in-memory cache from
address to the instant of the request that was paid (or tried to be paid).
While an address is in the cache, further requests for it are refused with
status 425 and a message saying how long the address remains graylisted.
The repository holds two versions of the handler: the Flask one in faucet.py
and the Express one in faucet.js.

This project models:

- `PrettyTime` — `pretty_time_delta` (faucet.py), the formatter for "how long
  is left". Instants are integers counting microseconds. The difference is
  truncated toward zero to whole seconds and made non-negative. It is split
  into days, hours, minutes and seconds and printed from the largest non-zero
  unit down to seconds. `ParseDelta` reads such a text back. It is the
  formatter's left inverse: reading back gives the total that was formatted,
  so two different durations never print the same text.
- `Graylist` — what both handlers share: the outcomes of foreign calls
  (`Call`), the response (`Response`, `Body`), and a log of `Effect`s.
  The log records the cache reservation, the spend, the balance query and
  the notification attempt, in order. `Consistent` is the invariant both
  handlers keep: every spend comes right after the reservation of its
  address, every balance query comes right after its spend, and every
  cache entry was written by a recorded reservation.
- `FlaskFaucet` — `rest_faucet` as the class `App`. Its fields are the
  cache `addressCache` and the `log`; its constants are the configuration read
  at start-up. It covers the invalid address (400), the graylisted address
  (425), and the reservation before the payout. It covers the two `except`
  clauses (503 for an SDK API error, 500 for anything else), with the
  reservation left in place. It covers the notification attempted in
  `finally`, after the response has been chosen.
- `ExpressFaucet` — `setRequiredVariable` as `RequiredVariable`, returning a
  `Result`, and the POST handler as the class `Server`, with the same
  structure.

Foreign calls are parameters of the handler methods. A `bool` gives the
answer of address validation. A `Call<T>` gives what building the sender
account, `spend` and the balance lookup returned or raised. A plain `int`
gives the clock reading, and a `bool` says whether the chat notification was
delivered. The handler's contract mentions no part of that last outcome, so
the response does not depend on it. The cache library's own expiry and
eviction appear only as the step `Forget`, which may drop any entry at any
time.

Two points about the code that the model states as written:

- The Express `catch` (faucet.js:116-120) sets no status. An error after the
  reservation is therefore sent with status 200; `ExpressFaucet.ReservedResponse`
  states this.
- In both servers, presence in the cache alone decides the 425. Expiry
  belongs to the cache library and appears only as `Forget`.

## Model

| member | source | states |
|---|---|---|
| PrettyTime.TruncSeconds | faucet.py:63-64 | `int()` of a difference given in seconds truncates toward zero: for a non-negative difference the result is its floor, for a negative one its ceiling |
| PrettyTime.WholeSeconds | faucet.py:63-64 | the result n is the number of whole seconds in the absolute difference: n·10⁶ ≤ \|start − end\| < (n+1)·10⁶ |
| PrettyTime.PrettyTimeDeltaSymmetric | faucet.py:62-64 | swapping the two instants does not change the text: only the absolute, truncated difference matters |
| PrettyTime.Decompose | faucet.py:65-67 | the `divmod` chain gives days·86400 + hours·3600 + minutes·60 + seconds = total, with hours < 24, minutes < 60 and seconds < 60 |
| PrettyTime.DecomposeTotal | faucet.py:65-67 | the breakdown is unique: any normal breakdown is what `Decompose` returns for its total |
| PrettyTime.Decimal | faucet.py:69-75 | `'%d'` prints at least one digit and starts with `0` exactly when the number is zero (no leading zeros) |
| PrettyTime.DecimalDigits | faucet.py:69-75 | `'%d'` of a non-negative number prints only decimal digits |
| PrettyTime.DecimalRoundTrip | faucet.py:69-75 | the printed digits denote the number printed |
| PrettyTime.Format | faucet.py:68-75 | the text ends in the seconds unit and starts with `0` exactly when the breakdown totals zero, so the leading printed unit is never zero |
| PrettyTime.PrettyTimeDelta | faucet.py:62-75 | the text for two instants reads back as the whole seconds between them |
| PrettyTime.FormatSecondsCases | faucet.py:68-75 | below 60 s the text is `<s>s`; below 3600 s `<m>m<s>s`; below 86400 s `<h>h<m>m<s>s`; otherwise `<d>d<h>h<m>m<s>s`, each amount computed from the total; units above the largest non-zero one are left out and every lower unit is printed, even when zero |
| PrettyTime.FormatSecondsLeadingZero | faucet.py:68-75 | the text starts with `0` exactly when the total is zero, so the leading unit is never zero otherwise |
| PrettyTime.FormatSecondsExamples | faucet.py:68-75 | 0 s gives `0s` and 59 s gives `59s` |
| PrettyTime.FormatSecondsExamplesMinutes | faucet.py:68-75 | 60 s gives `1m0s` and 61 s gives `1m1s` |
| PrettyTime.FormatSecondsExamplesHours | faucet.py:68-75 | 3600 s gives `1h0m0s` and 3661 s gives `1h1m1s` |
| PrettyTime.FormatSecondsExamplesDays | faucet.py:68-75 | 90000 s gives `1d1h0m0s` and 90061 s gives `1d1h1m1s` |
| PrettyTime.ParseFormatRoundTrip | faucet.py:65-75 | reading the formatted text back gives the total that was formatted |
| PrettyTime.FormatSecondsInjective | faucet.py:65-75 | two different totals never give the same text |
| PrettyTime.PrettyTimeDeltaReadsBack | faucet.py:62-75 | the text for two instants always reads back as the whole seconds between them |
| Graylist.ReservationKeepsConsistent | faucet.py:124-131 | recording a reservation followed by its spend and balance query keeps the invariant: every spend comes right after its reservation, every balance query right after its spend, and every cache entry has a recorded reservation |
| Graylist.NotificationsKeepConsistent | faucet.py:152-163 | notification attempts added after a request keep the invariant |
| Graylist.ForgetKeepsConsistent | faucet.py:184-186 | dropping cache entries keeps the invariant |
| FlaskFaucet.ErrorResponse | faucet.py:139-151 | an SDK API exception gives 503 and any other exception gives 500, both with a message body |
| FlaskFaucet.PayoutResponse | faucet.py:124-151 | after the reservation, the status is 200 exactly when building the sender, the spend and the balance query all returned, and then the body is the transaction hash with the balance read after the spend; otherwise the first exception raised decides: 503 for an API error, 500 for any other |
| FlaskFaucet.App.Notification | faucet.py:152-163 | the `finally` block attempts exactly one notification, with the given text, when a bot token is configured, and none otherwise |
| FlaskFaucet.App.PayoutNote | faucet.py:136-149 | the notification is the credited text with the transaction exactly when no call raised; otherwise it is the failure text carrying the first exception's detail |
| FlaskFaucet.App.constructor | faucet.py:182-186 | the graylist starts empty, with the configured cooldown |
| FlaskFaucet.App.RestFaucet | faucet.py:106-163 | an invalid address gives 400: the cache is unchanged and nothing but the notification happens. A cached address gives 425 with a message naming `pretty_time_delta(registration + cache_max_age, now)`: the cache is unchanged and there is no spend. Otherwise the cache becomes the old cache with only `recipient := now`, the reservation is logged before any spend, and the response is `PayoutResponse`. The reservation stays whatever the payout did. The notification comes last and its delivery does not affect the response |
| FlaskFaucet.App.Admit | faucet.py:124-151 | writes only `recipient := now` into the cache, then logs the spend only if the sender account was built and the balance query only if the spend returned; returns `PayoutResponse` with the matching notification text |
| FlaskFaucet.App.Forget | faucet.py:184-186 | the expiring dictionary may drop one entry; nothing else changes |
| FlaskFaucet.RepeatWithinCooldown | faucet.py:118-138 | a paid address asked for again is refused with 425 and the time left computed from the first request's instant |
| FlaskFaucet.FailedPayoutStaysGraylisted | faucet.py:118-144 | fail-closed: the node's API error gives 503, and an immediate retry for the same address is refused with 425 |
| FlaskFaucet.ReadmittedAfterExpiry | faucet.py:118-138 | once the cache has dropped the entry, the address is paid again and its new cooldown starts at the new request's instant |
| ExpressFaucet.RequiredVariable | faucet.js:11-16 | succeeds exactly when the variable is set and non-empty, with its value; otherwise it fails with `ENV-variable missing: <name>` |
| ExpressFaucet.ReservedResponse | faucet.js:109-120 | after the reservation the status is always 200; the body is `{tx_hash, balance}` exactly when both the spend and the balance query returned, and the support message otherwise |
| ExpressFaucet.Server.constructor | faucet.js:51-55 | the cache starts empty |
| ExpressFaucet.Server.TopUp | faucet.js:85-121 | an invalid address gives 400 and a cached one 425, with no cache write and no spend. Otherwise only `address := now` is written, before the spend; the balance is read only after a spend that returned; the response is `ReservedResponse`; the entry is never removed |
| ExpressFaucet.Server.Forget | faucet.js:51-55 | the cache may drop one entry; nothing else changes |
| ExpressFaucet.FailedSpendStaysGraylisted | faucet.js:99-120 | fail-closed: after a spend that threw, an immediate retry for the same address is refused with 425 |

## Left out

- The cache's time-to-live expiry and size bound (`ExpiringDict` at faucet.py:184-186, `NodeCache` at faucet.js:51-55) are third-party code. They appear only as `Forget`, which may drop any entry. `NodeCache` with `maxKeys` refuses a write when full; that case is not modelled.
- Concurrency: requests are modelled one at a time. Under waitress's threads, two Python requests can interleave between the lookup (faucet.py:118) and the write (faucet.py:124). In Node the lookup and the write run without an `await` between them; the awaited spend that follows is not interleaved with other requests in the model.
- Address validation (`is_valid_hash`, `Crypto.isAddressValid`), `signing.Account.from_private_key_string`, `spend`, `get_account_by_pubkey` and `getBalance` are foreign calls. They are inputs; their exception texts are strings.
- The Telegram delivery (faucet.py:153-163) is reduced to a logged attempt when a token is configured. The warning about a missing chat id and the logging of a delivery error are left out.
- Logging everywhere (faucet.py:26-40, 113, 132-133, 140, 146; faucet.js:40-49 and the `logger` calls) is left out, and so are the JS `message` values assigned at faucet.js:113 (never read) and 117 (logged only).
- FlaskFaucet.App.RestFaucet: one clock reading stands for the separate `datetime.now()` calls at faucet.py:121, 122 and 124. The Python code reads the clock once per line; within a single request only lines 121 and 122 can differ, by microseconds.
- PrettyTime.WholeSeconds: does not model the float rounding of `total_seconds()`. It can change the truncated value only for differences of hundreds of years.
- ExpressFaucet.Server.TopUp: the time left in the 425 message is luxon's rendering (faucet.js:101-102), which is library code. It is an input string.
- ExpressFaucet.Server.TopUp: an exception from the amount conversion `AmountFormatter.toAettos` (an argument of the spend at faucet.js:110) is treated as a failed spend.
- The configuration strings `format_amount(TOPUP_AMOUNT)` and `NODE_URL` without `https://` are constants of `App`. When `CACHE_MAX_AGE` or `CACHE_MAX_SIZE` come from the environment, the JS server gets them as strings; this is not modelled.
- Flask/Express routing, CORS, templates, static files, JSON encoding, server start-up (faucet.py:78-103, 175-218; faucet.js:19-38, 57-83, 123-132) are I/O plumbing.
- src/main.js (browser page logic), webpack.config.js, frontend/postcss.config.js and frontend/tailwind.config.js (build and style configuration) are not part of this model.
