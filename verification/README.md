# Bybit hedge-trading bot: a verified model of its core

This project models, in Dafny, the deterministic core of a Telegram bot that trades
linear USDT perpetual futures on the Bybit exchange for its subscribers. The model covers:

- the hedge-position manager: one entry per coin, each with an optional main leg and an
  optional hedge leg, mirrored into a redis hash;
- the hedge trigger and its tracking price;
- the trading decisions of a user's trade bot: the balance gate, the in-trade checks, order
  lookup, entry and hedge order sizing, and the reconciliation of local legs with the
  exchange's positions;
- the exchange request layer:
  - response validation and the counted retrier with its backoff;
  - query strings and the signature base string;
  - cursor pagination;
  - the request bodies and reply shaping of the exchange calls;
- the streaming mirror of the websocket client: the subscription and callback registries,
  the order-book and ticker merges, message dispatch, and the flags that decide reconnection;
- the date windows used for profit-and-loss reports: month bounds, month filtering, and week
  and day chunking;
- trade and coin settings, the run state, the redis and postgres service operations, the
  coin screener, the permission check, and the validator of settings typed in the chat.

Each Python module of the core has one Dafny module in its own file:

| Dafny module | Python module |
|---|---|
| `Requester` | `app/exchange/bybit_async/bybit_async.py`, and the retry decorator applied to it |
| `Retry` | `app/exchange/bybit_async/utils.py` |
| `StockBot` | `app/exchange/bybit_async/stock_bot.py` |
| `Websocket` | `app/exchange/websocket/bybit_websocket.py` |
| `UserTrade` | `app/exchange/user_trade/user_trade.py` |
| `Orders` | `app/exchange/user_trade/orders.py` |
| `TradeUtils` | `app/exchange/user_trade/utils.py` |
| `RedisDb` | `app/db/services/redis_db.py` |
| `PostgresDb` | `app/db/services/postgres_db.py`, and the `User` table of `app/db/models.py` |
| `Settings` | the settings records of `app/db/models.py` |
| `ParserCoins` | `app/telegram/parser_coins/utils.py` |
| `StockHelper` | `app/telegram/utils/stock_helper.py` |
| `DatetimeHelper` | `app/telegram/utils/datetime_helper.py` |
| `Limit` | `app/telegram/utils/limit.py` |
| `SetValue` | the settings validator of `app/telegram/middlewares/database_middleware.py` |

Five helper modules support them:

- `Wrappers`: results and options;
- `Json`: Python values as received from the exchange, exceptions, and Python's `==` and
  `float()` on them;
- `Text`: digits, split/join, substring tests, case mapping;
- `ODict`: an insertion-ordered dict;
- `KeyValue`: a redis store of strings and hashes.

Operations are pure functions:

- a method call on an object becomes a function from the old state to the new one;
- a raised exception is a `Failure` carrying the exception's class;
- where the code mutates before raising, the partial state is kept, for example in the
  order-book delta.

Prices and amounts are reals, and timestamps are integer seconds. Whatever comes from
outside is a parameter of the function that uses it:

- the exchange's replies;
- the outcome of each attempt of a retried call;
- the pages of a paginated request;
- the clock (`now`);
- fresh request ids;
- HMAC signing, `json.dumps`, `str()`, float formatting, and the websocket topic
  template's `str.format(symbol=...)`.

Where the code and its documentation disagree, the model follows the code:

- the retry backoff grows with each retry: 1, 2, 5, 10, … seconds, which is (m − r)² + 1
  for retry budget m and r retries left. It does not shrink. The configured budget is one
  retry;
- connection errors are re-raised at once and never retried;
- the branch that re-calls the function on codes 10001 and 110043 cannot be reached, because
  `validate_response` accepts those codes before the retrier sees them.

## Model

| member | source | states |
|---|---|---|
| `Limit.Attribute` | app/telegram/utils/limit.py:3-13 | the four upper-case range attributes are returned by name; every other name yields the `(0, 0)` fallback the caller supplies |
| `Limit.RangesOrdered` | app/telegram/utils/limit.py:4-7 | each declared range has its minimum strictly below its maximum, and the fallback range admits only 0 |
| `TradeUtils.Trunc` | app/exchange/user_trade/utils.py:16-18 | the integer part rounds toward zero: within one unit of `x`, below it for positive and above it for negative values |
| `TradeUtils.RoundStepSize` | app/exchange/user_trade/utils.py:16-18 | rounding fails exactly when the step is zero, and then with Decimal's InvalidOperation |
| `TradeUtils.RoundStepSizeBounds` | app/exchange/user_trade/utils.py:16-18 | for a non-negative quantity and a positive step the result is a multiple of the step, lies in `[0, quantity]` and is less than one step below the quantity |
| `TradeUtils.RoundStepSizeIdempotent` | app/exchange/user_trade/utils.py:16-18 | rounding an already rounded quantity leaves it unchanged |
| `TradeUtils.ProofResult` | app/exchange/user_trade/utils.py:20-21 | true exactly when the value has the requested container type and is non-empty |
| `TradeUtils.SafeFloat` | app/exchange/user_trade/utils.py:23-29 | the value `float()` gives when it accepts the input, and 0.0 for `''`, `None` and every input it rejects |
| `SetValue.Decide` | app/telegram/middlewares/database_middleware.py:96-123 | missing text, empty text or a missing FSM context are ignored; the only exceptions are AttributeError (no state) and IndexError (`set` with no field) |
| `SetValue.DecideWritesInRange` | app/telegram/middlewares/database_middleware.py:105-120 | a numeric field is written only with a number inside its inclusive `Limit` range |
| `SetValue.DecideRefusesOutOfRange` | app/telegram/middlewares/database_middleware.py:109-113 | text that parses to a number outside the range is answered with the input-failure reply naming the range, and nothing is written |
| `SetValue.DecideCredentialUnchecked` | app/telegram/middlewares/database_middleware.py:108-120 | the `api` and `secret` fields are written with the text unchanged |
| `SetValue.DecideUnknownFieldOnlyZero` | app/telegram/middlewares/database_middleware.py:105 | a numeric field without a `Limit` attribute can only be written with 0 |
| `SetValue.DecidePassesOtherStates` | app/telegram/middlewares/database_middleware.py:102-123 | a state outside the `set` group reaches the handler with nothing written |
| `Retry.CalculateBackoff` | app/exchange/bybit_async/utils.py:15-19 | the delay is at least one second, and exactly one when no retry has been used yet |
| `Retry.ValidateResponse` | app/exchange/bybit_async/utils.py:22-27 | a reply passes exactly when it is a dict with `retCode` and `retMsg` and the code is 0, 10001 or 110043; a malformed reply raises ValueError and a refused code raises the API error carrying that code and message |
| `Retry.ValidateNeverRepeats` | app/exchange/bybit_async/utils.py:25-37 | validation never raises an API error with code 10001 or 110043, so the decorator's immediate-repeat branch cannot be reached from a validated request |
| `Retry.Retrier` | app/exchange/bybit_async/utils.py:30-55 | the decorated call makes between 1 and `count + 2` calls and sleeps at most `count` times |
| `Retry.RetrierFirstSuccess` | app/exchange/bybit_async/utils.py:33-34 | a first call that succeeds is returned after one call and no sleep |
| `Retry.RetrierNoRetryOtherErrors` | app/exchange/bybit_async/utils.py:51-53 | an exception other than the API error is re-raised after one call, with no retry |
| `Retry.RetrierExhausts` | app/exchange/bybit_async/utils.py:39-49 | when every call raises a plain API error, the decorator makes `count + 1` calls, sleeps `count` times and raises the last call's error |
| `Retry.RetrierBackoffGrows` | app/exchange/bybit_async/utils.py:39-47 | with the full budget `m`, the i-th sleep lasts `i*i + 1` seconds, so the delays grow 1, 2, 5, 10, ... |
| `Retry.RetrierNoRepeatBound` | app/exchange/bybit_async/utils.py:35-49 | when no call raises a repeat code, the decorator makes at most `count + 1` calls |
| `Retry.RetrierDelays` | app/exchange/bybit_async/utils.py:39-43 | the i-th sleep is the backoff for `count - i` retries left, whatever the calls return |
| `Requester.Pairs` | app/exchange/bybit_async/bybit_async.py:12-13 | one `key=value` piece per parameter, in insertion order, the value rendered by `str()` |
| `Requester.QueryString` | app/exchange/bybit_async/bybit_async.py:12-13 | no parameters give the empty query string |
| `Requester.QueryStringRoundTrip` | app/exchange/bybit_async/bybit_async.py:12-13 | splitting a non-empty query string on `&` and `=` recovers every key and rendered value in order, when keys hold neither separator and values hold no `&` |
| `Requester.BaseUrl` | app/exchange/bybit_async/bybit_async.py:21-27 | the testnet host exactly when the requester is configured for testnet, the main host otherwise |
| `Requester.SignaturePayload` | app/exchange/bybit_async/bybit_async.py:131-137 | the signed text is the timestamp, API key and receive window followed by the JSON body for POST and by the query string for every other method |
| `Requester.MethodVerb` | app/exchange/bybit_async/bybit_async.py:79-90 | POST and GET are recognised in any ASCII letter case; every other method raises ValueError |
| `Requester.SignedRequest` | app/exchange/bybit_async/bybit_async.py:63-90 | a request exists exactly for a supported method; it carries the HMAC of the signature payload, the timestamp and the 5000 ms window; POST sends the JSON body to the bare URL and GET puts the query string in the URL with no body |
| `Requester.SignedAttempt` | app/exchange/bybit_async/bybit_async.py:63-97 | an unsupported method raises ValueError, a transport error is re-raised unchanged, and a returned reply is the transport's reply and has passed validation |
| `Requester.PublicAttempt` | app/exchange/bybit_async/bybit_async.py:47-60 | a public request succeeds exactly when the transport answers and validation accepts the answer, and then returns that answer |
| `Requester.SignedAttemptNeverRepeats` | app/exchange/bybit_async/bybit_async.py:92-97 | when the transport raises no API error itself, a signed attempt never raises an API error with a repeat code |
| `Requester.SendSignedRequest` | app/exchange/bybit_async/bybit_async.py:62-97 | whatever the retries do, a reply the decorated request returns has passed validation |
| `Requester.SendSignedRequestBadMethod` | app/exchange/bybit_async/bybit_async.py:89-90 | an unsupported method raises ValueError after one call, with no retry and no sleep |
| `Requester.RetrierSuccessFromAttempt` | app/exchange/bybit_async/utils.py:30-55 | a success the decorator returns is the result of one of the undecorated calls |
| `Requester.SendSignedRequestCalls` | app/exchange/bybit_async/bybit_async.py:62-97 | when the transport raises no API error itself, a signed request makes at most `count + 1` calls |
| `Requester.PageItems` | app/exchange/bybit_async/bybit_async.py:123 | a reply without a `result` or a result without a `list` adds no records; a list adds exactly its items and a string one single-character string per character; a non-dict reply or result raises AttributeError and any other `list` TypeError |
| `Requester.FollowUpParams` | app/exchange/bybit_async/bybit_async.py:116-120 | a follow-up request carries the cursor with every '%' rewritten to ':' and no time window, and keeps every other parameter as it was |
| `Requester.RequestParams` | app/exchange/bybit_async/bybit_async.py:116-120 | the first request keeps the caller's params; a truthy string cursor gives follow-up params; a truthy non-string cursor raises AttributeError |
| `Requester.FetchPage` | app/exchange/bybit_async/bybit_async.py:122-126 | a fetched page's records are exactly the records listed in the exchange's reply to that request |
| `Requester.PageLoop` | app/exchange/bybit_async/bybit_async.py:115-129 | unless the loop raised, the records it returns are those of the pages it requested, in request order; it only appends requests, at most one per budget unit, the first with the params it was given and every later one with follow-up params; every request but the last was answered with a string cursor that did not stop the loop, and the next request is that request's params with the cursor set to it, '%' rewritten to ':', the time window dropped and every other key kept; the loop finishes exactly when the last page's cursor is falsy or equals the previous cursor as rewritten, runs out of budget only after `fuel` requests none of which stopped it, and raises either its last request's error or AttributeError for a truthy non-string cursor |
| `Requester.PaginateAsWritten` | app/exchange/bybit_async/bybit_async.py:110-129 | the first request uses the caller's params, each later one a rewritten cursor and no time window, and the result is the concatenation of every page's records; each later request is the previous one's params with the previous page's cursor rewritten and every other key kept, and the run finishes exactly when a page announces a falsy cursor or the previous rewritten cursor again |
| `Requester.Paginate` | app/exchange/bybit_async/bybit_async.py:110-129 | the same guarantees, request chain and stop rule for the loop whose stop test compares the announced cursor with the cursor as the exchange sent it |
| `Requester.PercentCursorNotStops` | app/exchange/bybit_async/bybit_async.py:125-128 | as written, an announced cursor holding a '%' never stops the loop, neither on the first page nor when it repeats the previous cursor |
| `Requester.StuckServerNeverFinishes` | app/exchange/bybit_async/bybit_async.py:116-128 | against an exchange that keeps announcing the same cursor holding a '%' with empty pages, the loop as written never stops, whatever its fuel |
| `Requester.StuckServerAlwaysStuck` | app/exchange/bybit_async/bybit_async.py:122-126 | the example exchange answers every request with an empty page and the cursor `a%3D` |
| `Requester.AsWrittenNeverFinishes` | app/exchange/bybit_async/bybit_async.py:125-128 | the paginated request as written does not finish against that exchange |
| `Requester.StuckServerStopsWhenCorrected` | app/exchange/bybit_async/bybit_async.py:125-128 | with the cursors compared as sent, the loop stops after the second request with no records |
| `Settings.SchemasValid` | app/db/models.py:58-88 | both dataclasses have distinct field names (six trading fields, four screening fields) and numeric defaults |
| `Settings.Default` | app/db/models.py:58-65 | the default instance holds one value per declared field |
| `Settings.ToDict` | app/db/models.py:68-70 | `asdict` maps exactly the declared fields, each to the instance's value |
| `Settings.FromDict` | app/db/models.py:72-74 | `cls(**data)` succeeds exactly when every key names a declared field, and raises TypeError otherwise |
| `Settings.FromDictFields` | app/db/models.py:72-74 | a field given in the dict takes the given value and a missing one takes its default |
| `Settings.FromDictToDict` | app/db/models.py:68-74 | building an instance from its own dict gives the same instance back |
| `Settings.ToDictFromDict` | app/db/models.py:68-74 | a dict naming every field exactly once survives the round trip through an instance unchanged |
| `Settings.Update` | app/db/models.py:76-79 | an update leaves an instance with one value per field |
| `Settings.UpdateAllConvert` | app/db/models.py:76-79 | when every given value converts with `float()`, the update raises nothing, converts the given fields and leaves the others unchanged |
| `Settings.UpdateStopsAtFirstFailure` | app/db/models.py:76-79 | the first field whose value `float()` rejects raises that error; the fields before it are already updated and the ones from it on are unchanged |
| `Settings.RunOf` | app/db/models.py:102-105 | `Run(v)` accepts exactly "active", "hedge" and "off", and raises ValueError for anything else |
| `Settings.RunValues` | app/db/models.py:102-105 | each run state reads back from its own value, and distinct states have distinct values |
| `StockBot.PlaceOrderCall` | app/exchange/bybit_async/stock_bot.py:23-50 | an order is refused with ValueError exactly when the amount is not positive or neither take-profit nor stop-loss is positive; otherwise a signed POST to the order endpoint carries a GTC market order with side Buy and index 1 or side Sell and index 2, and prices of zero are sent as null |
| `StockBot.PlaceOrderResult` | app/exchange/bybit_async/stock_bot.py:44-58 | the exchange's reply is returned as it is, and `{}` when the request raised |
| `StockBot.SetLeverageCall` | app/exchange/bybit_async/stock_bot.py:62-79 | both sides get the same leverage on the set-leverage endpoint |
| `StockBot.SwitchPositionModeCall` | app/exchange/bybit_async/stock_bot.py:89-102 | the switch asks for hedge mode (3) for USDT |
| `StockBot.SwitchPositionModeResult` | app/exchange/bybit_async/stock_bot.py:103-110 | the result is True exactly when the request succeeded, and None otherwise |
| `StockBot.GetOrderCall` | app/exchange/bybit_async/stock_bot.py:114-137 | the history endpoint is used exactly when `history` is set; `orderId` is sent exactly when a non-empty id is given; the symbol and limit are always sent |
| `StockBot.ResultListOr` | app/exchange/bybit_async/stock_bot.py:130-145 | `result.list` of the reply, and the fallback `[{}]` when the request or either lookup raised |
| `StockBot.GetPositionsCall` | app/exchange/bybit_async/stock_bot.py:149-162 | positions are requested for the given symbol |
| `StockBot.GetPositionsResult` | app/exchange/bybit_async/stock_bot.py:156-171 | a reply with a dict `result` gives its `list`, or `[]` without one; a reply without `result` gives `[]`; a raised request, a non-dict reply or a non-dict `result` gives `[{}]` |
| `StockBot.GetAllPositionCall` | app/exchange/bybit_async/stock_bot.py:239-251 | all positions are requested for the USDT settle coin |
| `StockBot.GetInstrumentInfoCall` | app/exchange/bybit_async/stock_bot.py:173-177 | the instruments are read with an unsigned request for the linear category |
| `StockBot.GetInstrumentInfoResult` | app/exchange/bybit_async/stock_bot.py:176-185 | None when the request raised; a dict `result`'s `list`, or `{}` without one; `{}` when the reply has no `result`; AttributeError for a non-dict reply or `result`, and no other exception reaches the caller |
| `StockBot.GetApiPermissionsCall` | app/exchange/bybit_async/stock_bot.py:188-195 | the permissions query sends no parameters |
| `StockBot.ResultOr` | app/exchange/bybit_async/stock_bot.py:189-202 | `result` of the reply, and `{}` when the request or the lookup raised |
| `StockBot.GetBalanceCall` | app/exchange/bybit_async/stock_bot.py:205-209 | the unified account is queried for USDT |
| `StockBot.GetBalanceResult` | app/exchange/bybit_async/stock_bot.py:205-218 | the first account of a non-empty list; `{}` for a raised request, a missing `result` or an empty list |
| `StockBot.GetMarkPriceCall` | app/exchange/bybit_async/stock_bot.py:221-226 | an unsigned request for one kline of the symbol |
| `StockBot.GetMarkPriceResult` | app/exchange/bybit_async/stock_bot.py:225-236 | 0 when the request raised or the list is empty; a reply without `result.list` raises to the caller; otherwise the close price, index 4 of the first kline, read with `float()` |
| `StockBot.CloseOrderCall` | app/exchange/bybit_async/stock_bot.py:264-284 | a request exists exactly when the position has side, symbol, size and index; it is a reduce-only order for the position's size and index on the opposite side, Buy only for a Sell position |
| `StockBot.CloseReversesPlace` | app/exchange/bybit_async/stock_bot.py:35-40 | closing a position opened by `place_order` sends the other side with the same position index |
| `StockBot.CloseOrderResult` | app/exchange/bybit_async/stock_bot.py:278-293 | `result` of the reply, and `{}` when the request raised |
| `StockBot.PnlChunkCall` | app/exchange/bybit_async/stock_bot.py:297-312 | the closed-PnL request for a window sends its bounds in milliseconds, up to 100 records |
| `RedisDb.GetKey` | app/db/services/redis_db.py:37-41 | coin-setting fields map to the coin-settings hash, other trade-setting fields to the trade-settings hash, and every other field to no key |
| `RedisDb.DefaultsHash` | app/db/services/redis_db.py:31-35 | the defaults hash holds exactly the dataclass's fields, each with its encoded default |
| `RedisDb.InitializeOne` | app/db/services/redis_db.py:29-31 | afterwards the hash exists; an existing one is left untouched and a missing one is created with the defaults |
| `RedisDb.Initialize` | app/db/services/redis_db.py:28-35 | afterwards both settings hashes exist, and a well-formed store stays well-formed |
| `RedisDb.InitializeIdempotent` | app/db/services/redis_db.py:28-35 | initializing twice is initializing once |
| `RedisDb.InitializeKeepsExisting` | app/db/services/redis_db.py:28-35 | when both hashes already exist nothing changes |
| `RedisDb.InitializeOneWritesDefaults` | app/db/services/redis_db.py:29-31 | after initializing a missing hash, each field reads back as its default number |
| `RedisDb.Get` | app/db/services/redis_db.py:57-64 | an unknown field is refused (its key is None); otherwise the stored value is read as a float |
| `RedisDb.ReadFloatValues` | app/db/services/redis_db.py:60-63 | a stored value that parses reads as its number, and a missing or unparseable one as 0.0 |
| `RedisDb.SetField` | app/db/services/redis_db.py:65-67 | an unknown field, or a value redis cannot encode, is refused with DataError |
| `RedisDb.ReadEncoded` | app/db/services/redis_db.py:60-67 | a number written by `set` is read back by `float()` as the same number |
| `RedisDb.SetThenGet` | app/db/services/redis_db.py:57-67 | a number stored with `set` is what `get` returns for that field |
| `RedisDb.DumpsAll` | app/db/services/redis_db.py:85 | every entry of the data is serialised under its own key, and no other key appears |
| `RedisDb.SaveCoins` | app/db/services/redis_db.py:76-86 | a key holding a plain string is refused with WRONGTYPE and the store is unchanged |
| `RedisDb.PruneKeepsDataKeys` | app/db/services/redis_db.py:77-83 | after the deletion step the coins hash holds only fields the new data names |
| `RedisDb.SaveCoinsExact` | app/db/services/redis_db.py:76-86 | after saving non-empty data the coins hash holds exactly the data's keys, each with the serialised record |
| `RedisDb.SaveCoinsEmpty` | app/db/services/redis_db.py:81-86 | saving no coins deletes every stored coin and then fails, as redis refuses an empty mapping |
| `RedisDb.SaveCoinsOthersUnchanged` | app/db/services/redis_db.py:76-86 | a save touches no key other than the coins hash |
| `RedisDb.GetCoins` | app/db/services/redis_db.py:72-74 | reading the coins fails exactly when the key holds a plain string |
| `RedisDb.SaveCoinsThenGet` | app/db/services/redis_db.py:72-86 | what `save_coins` stored is what `get_coins` reads, when `json.loads` inverts `json.dumps` |
| `RedisDb.SaveCoinsInfo` | app/db/services/redis_db.py:98-100 | the merge fails exactly for empty data or a key holding a plain string |
| `RedisDb.SaveCoinsInfoMerges` | app/db/services/redis_db.py:98-100 | every symbol already stored survives; those in the data take the new record, the others keep theirs |
| `RedisDb.LoadsRun` | app/db/services/redis_db.py:107 | stored text that is not the JSON of a run value raises ValueError |
| `RedisDb.GetIsRun` | app/db/services/redis_db.py:105-107 | OFF when nothing is stored for the user; the only errors are ValueError and WRONGTYPE |
| `RedisDb.SetIsRun` | app/db/services/redis_db.py:109-110 | storing a flag keeps a well-formed store well-formed |
| `RedisDb.IsRunKeyInjective` | app/db/services/redis_db.py:106-110 | different users have different flag keys |
| `RedisDb.SetThenGetIsRun` | app/db/services/redis_db.py:105-110 | a flag set for a user reads back for that user, and every other user's flag is unchanged |
| `RedisDb.GetAllIsRun` | app/db/services/redis_db.py:112-121 | the result maps exactly the ids of `is_run:<int>` keys, the suffix a sign and ASCII digits, whose flag reads, each to the flag `get_is_run` gives |
| `RedisDb.KeyUserIdOfFlagKey` | app/db/services/redis_db.py:113-117 | a user's own flag key matches the `is_run:*` pattern and its suffix reads back as the user's id |
| `RedisDb.SetThenGetAllIsRun` | app/db/services/redis_db.py:109-121 | after a flag is set, listing all flags reports that user with that flag |
| `RedisDb.GetMarkPriceCoin` | app/db/services/redis_db.py:130-138 | None exactly when no price is cached for the symbol; a cached text is read as `float()` of it, or 0.0 when `float()` refuses it; a price written to the hash reads back as its value (`RedisDb.MarkPriceRoundTrip`) |
| `RedisDb.MarkPriceRoundTrip` | app/db/services/redis_db.py:126-138 | a price text written to the prices hash is read back as `float()` of that text |
| `PostgresDb.ColOf` | app/db/models.py:13-29 | a keyword names at most the column whose name it is |
| `PostgresDb.ColOfName` | app/db/models.py:13-29 | every column of the users table is found by its own name, so the column names are distinct |
| `PostgresDb.InsertRowValid` | app/db/models.py:15-29 | inserting a well-typed row under a free id with a uid nobody holds keeps the primary key and the uid unique |
| `PostgresDb.RemoveRowValid` | app/db/models.py:15-29 | deleting a row keeps the table valid |
| `PostgresDb.ReplaceRowValid` | app/db/models.py:15-29 | replacing a row by a valid one with the same uid keeps the table valid |
| `PostgresDb.GetUser` | app/db/services/postgres_db.py:17-19 | the row with that id exactly when one is stored, and None otherwise |
| `PostgresDb.NewRow` | app/db/models.py:13-29 | a new row is well typed, keyed by its id, starts with a three-day subscription and has no uid |
| `PostgresDb.CreateNewUser` | app/db/services/postgres_db.py:88-98 | an existing user is returned unchanged; a new one is inserted under its id, with every other user kept, and a user without a username violates NOT NULL |
| `PostgresDb.CreateNewUserValid` | app/db/services/postgres_db.py:88-98 | registering a user keeps the table valid |
| `PostgresDb.CreateNewUserIdempotent` | app/db/services/postgres_db.py:89-92 | a second registration of the same user changes nothing and returns the same row |
| `PostgresDb.UpdateBybitUid` | app/db/services/postgres_db.py:21-43 | only the given user's row can change; a None uid clears the column |
| `PostgresDb.UpdateBybitUidSets` | app/db/services/postgres_db.py:27-43 | a non-null uid is stored exactly when the user exists, no other user holds it and the user has none yet |
| `PostgresDb.UpdateBybitUidNeverOverwrites` | app/db/services/postgres_db.py:37-39 | a uid once set is never replaced by another one |
| `PostgresDb.UpdateBybitUidValid` | app/db/services/postgres_db.py:21-43 | the uid update keeps uids unique and the table valid |
| `PostgresDb.KeyOfInjective` | app/db/services/postgres_db.py:45-49 | distinct keyword names stay distinct keys, so merging keyed dicts is merging the Python dicts |
| `PostgresDb.UpdateValues` | app/db/services/postgres_db.py:46-49 | the merged values hold every kwarg and every other `fields_dict` entry, and nothing else |
| `PostgresDb.UpdateUserFields` | app/db/services/postgres_db.py:45-61 | an unknown user leaves the table unchanged; the only errors are CompileError, exactly when a key names no column, DataError and IntegrityError |
| `PostgresDb.UpdatedRowColumn` | app/db/services/postgres_db.py:46-59 | each column of the updated row is the kwarg if given, else the `fields_dict` value if given, else the stored value |
| `PostgresDb.UpdateUserFieldsResult` | app/db/services/postgres_db.py:53-61 | a successful update stores the updated row under the id it names, after every type and constraint check passed |
| `PostgresDb.UpdateInPlace` | app/db/services/postgres_db.py:59-61 | an update that leaves the id alone rewrites the user's row in place |
| `PostgresDb.UpdateUserFieldsWrites` | app/db/services/postgres_db.py:45-61 | a successful update writes every given value, kwargs winning, and keeps the other columns and the other users |
| `PostgresDb.UpdateUserFieldsValid` | app/db/services/postgres_db.py:45-61 | a successful update keeps the table valid |
| `PostgresDb.ExtendSubscription` | app/db/services/postgres_db.py:63-71 | an unknown user changes nothing; a NULL end raises TypeError; otherwise only the user's end moves to `max(end, now)` plus the days; every other column of the user is kept |
| `PostgresDb.ExtendSubscriptionAdds` | app/db/services/postgres_db.py:63-71 | extending by `d1` and then `d2` days at the same moment is extending by `d1 + d2` days, for a non-negative `d1` |
| `PostgresDb.Unsubscribe` | app/db/services/postgres_db.py:74-82 | the user's subscription ends now, and nothing else changes |
| `PostgresDb.UnsubscribeThenExtend` | app/db/services/postgres_db.py:63-82 | after unsubscribing, an extension counts from the present |
| `PostgresDb.SubscriptionValid` | app/db/services/postgres_db.py:63-82 | both subscription changes keep the table valid |
| `DatetimeHelper.DaysInMonth` | app/telegram/utils/datetime_helper.py:14-21 | every month of the Gregorian calendar has 28 to 31 days |
| `DatetimeHelper.NextMonth` | app/telegram/utils/datetime_helper.py:16-19 | the month after `(y, m)` is a real month whose running index is one more, so December rolls to January of the next year |
| `DatetimeHelper.YearLength` | app/telegram/utils/datetime_helper.py:14-21 | a year has 365 days, and 366 exactly in a leap year |
| `DatetimeHelper.CalendarAnchors` | app/telegram/utils/datetime_helper.py:14 | the first of a month in UTC is anchored at the Unix epoch: 1970-01-01 is instant 0 and 2024-03-01 is 1709251200 |
| `DatetimeHelper.MonthLength` | app/telegram/utils/datetime_helper.py:14-21 | the next month begins exactly the month's number of days after the first of the month |
| `DatetimeHelper.Normalize` | app/telegram/utils/datetime_helper.py:10-12 | the loop keeps the running month index and ends with a month in 1..12, leaving a month already positive unchanged |
| `DatetimeHelper.GetMonthBounds` | app/telegram/utils/datetime_helper.py:4-30 | the window exists exactly when `datetime` can build the month and the next one, else ValueError; it ends one second before the next month and starts on the first, or at `min_start` when that is later |
| `DatetimeHelper.MonthAtRange` | app/telegram/utils/datetime_helper.py:7-12 | any non-negative `months_ago` lands in a real month; 0 is the current month and 12 the same month a year earlier |
| `DatetimeHelper.MonthBoundsLength` | app/telegram/utils/datetime_helper.py:14-21 | without `min_start` the window covers every second of the month and no other |
| `DatetimeHelper.MonthsTile` | app/telegram/utils/datetime_helper.py:4-30 | consecutive months tile the time line: the earlier window ends one second before the later one starts |
| `DatetimeHelper.MonthIndexUnique` | app/telegram/utils/datetime_helper.py:7-12 | a month is determined by its running index `year * 12 + month` |
| `DatetimeHelper.Clip` | app/telegram/utils/datetime_helper.py:36-40 | the clipped window keeps the end and starts at the later of its start and the user's first day |
| `DatetimeHelper.FilterMonths` | app/telegram/utils/datetime_helper.py:32-41 | exactly the months ending after the user's first day are kept, each clipped to start no earlier |
| `DatetimeHelper.FilterMonthsAppend` | app/telegram/utils/datetime_helper.py:32-41 | filtering keeps the order: it distributes over concatenation |
| `DatetimeHelper.FilterMonthsKeepsAll` | app/telegram/utils/datetime_helper.py:32-41 | months that all end after the user's first day are all kept, in order, clipped |
| `DatetimeHelper.SplitFrom` | app/telegram/utils/datetime_helper.py:52-67 | the loop cuts no chunk exactly when the current instant is past the window's end or `now` |
| `DatetimeHelper.SplitFromTiles` | app/telegram/utils/datetime_helper.py:52-67 | the chunks cut from an instant tile the seconds from it to the earlier of the window's end and `now` |
| `DatetimeHelper.SplitIntoWeeks` | app/telegram/utils/datetime_helper.py:44-69 | no chunks exactly when the window is empty or starts after `now`; otherwise the chunks tile the window up to `now`, each ending at most six days after it starts, each starting a second after the previous one ends |
| `DatetimeHelper.SplitIntoDays` | app/telegram/utils/datetime_helper.py:71-96 | the same tiling with chunks of at most one day less a second |
| `DatetimeHelper.TilesCover` | app/telegram/utils/datetime_helper.py:52-94 | every second of the tiled range lies in some chunk |
| `DatetimeHelper.TilesIncreasing` | app/telegram/utils/datetime_helper.py:52-94 | a later chunk ends no earlier than an earlier one |
| `StockHelper.PyAnd` | app/telegram/utils/stock_helper.py:42 | `api and secret` is truthy exactly when both operands are |
| `StockHelper.SeriesGet` | app/telegram/utils/stock_helper.py:49-53 | a permissions series is indexed by the keys of a dict; any missing key raises KeyError |
| `StockHelper.HasPermission` | app/telegram/utils/stock_helper.py:51-53 | the permission flag holds exactly when ContractTrade is `[Order, Position]`, Options is `[OptionsTrade]` and Derivatives is `[DerivativesTrade]`; the only error is KeyError |
| `StockHelper.CheckPermissions` | app/telegram/utils/stock_helper.py:41-60 | without both credentials every flag is false and the result `{}`; otherwise readonly holds exactly when `readOnly == 0` and permissions exactly when the three lists match; status is truthy exactly when readonly, permissions and both credentials hold; the only errors are KeyError and TypeError |
| `StockHelper.GetUserPositions` | app/telegram/utils/stock_helper.py:23-28 | the exchange's positions when both credentials are set, and `[]` otherwise |
| `StockHelper.FlattenAppend` | app/telegram/utils/stock_helper.py:37 | flattening distributes over concatenation, so it keeps the chunks' order |
| `StockHelper.FlattenContains` | app/telegram/utils/stock_helper.py:37 | every item of every per-chunk list is in the flattened result |
| `StockHelper.PnlResultFlattens` | app/telegram/utils/stock_helper.py:32-38 | the joined result is the order-preserving flattening of the per-chunk lists |
| `StockHelper.PnlSum` | app/telegram/utils/stock_helper.py:84 | the sum exists exactly when every `closedPnl` present converts with `float()`; otherwise ValueError or TypeError |
| `StockHelper.PnlSumSingle` | app/telegram/utils/stock_helper.py:84 | a record adds its closed profit as a float, and a record without `closedPnl` adds nothing |
| `StockHelper.PnlSumAppend` | app/telegram/utils/stock_helper.py:84 | the sum over two runs of records is the sum of their sums |
| `StockHelper.Totals` | app/telegram/utils/stock_helper.py:74-87 | the totals exist exactly when every reported month's profits convert |
| `StockHelper.TotalsKeys` | app/telegram/utils/stock_helper.py:76-85 | every key of the totals is the first week's start of a month with a non-empty result, and holds that month's sum |
| `StockHelper.TotalsCover` | app/telegram/utils/stock_helper.py:76-85 | every month with a non-empty result has an entry under its first week's start, holding its sum unless a later month shares that start |
| `StockHelper.MonthChunksAfter` | app/telegram/utils/stock_helper.py:68-71 | each month's first week starts no earlier than the user's first day |
| `StockHelper.ThreeMonths` | app/telegram/utils/stock_helper.py:69 | the three month windows exist exactly when each bound does, and are the current month and the two before it, in that order |
| `StockHelper.ThreeMonthPnl` | app/telegram/utils/stock_helper.py:65-87 | without both credentials the result is `{}`; a month bound that cannot be built or a user without a first day fails; otherwise the result is the totals of the three months, filtered to the user's membership and cut into weeks, over their joined weekly records, so every key is a reported month's first-week start no earlier than the user's first day, holding that month's profit sum |
| `StockHelper.ThreeMonthPnlCover` | app/telegram/utils/stock_helper.py:76-85 | every kept month with records appears under its first week's start with the sum of its profits, unless a later month starts at the same instant |
| `ParserCoins.ResultList` | app/telegram/parser_coins/utils.py:13 | the records are `result.list` of the reply exactly when it is a list under a dict under a dict |
| `ParserCoins.Column` | app/telegram/parser_coins/utils.py:15-17 | a column of the frame exists exactly when some record has the key, else KeyError; it holds each record's cell, NaN where the record lacks the key |
| `ParserCoins.FieldFloat` | app/telegram/parser_coins/utils.py:15-17 | a read value is `float()` of the named field; the only errors are KeyError, TypeError and ValueError |
| `ParserCoins.FloatsOf` | app/telegram/parser_coins/utils.py:15-17 | the conversion of a column succeeds exactly when every cell's field converts, giving one float per cell in order |
| `ParserCoins.KeepUsdt` | app/telegram/parser_coins/utils.py:20-22 | exactly the rows whose symbol is a string ending in USDT are kept, and none is invented |
| `ParserCoins.KeepUsdtAppend` | app/telegram/parser_coins/utils.py:21-22 | filtering distributes over concatenation, so the kept rows stay in order |
| `ParserCoins.IndexDict` | app/telegram/parser_coins/utils.py:20-24 | the dict by symbol exists exactly when the symbols are distinct, else ValueError, and then maps each symbol to its own row |
| `ParserCoins.ColumnsAgree` | app/telegram/parser_coins/utils.py:15-17 | reading the three fields column by column gives each record the fields its row-wise reading gives |
| `ParserCoins.Converted` | app/telegram/parser_coins/utils.py:13-18 | the converted frame has one row per record, each agreeing with the record's own reading; the only errors are KeyError, TypeError and ValueError |
| `ParserCoins.InstrumentTable` | app/telegram/parser_coins/utils.py:13-24 | every key of the instrument table ends in USDT |
| `ParserCoins.InstrumentInfo` | app/telegram/parser_coins/utils.py:6-24 | the table of the reply's records, every key ending in USDT; a reply without a record list fails |
| `ParserCoins.InstrumentTableConverts` | app/telegram/parser_coins/utils.py:15-17 | a table exists only when every record's fields convert, USDT or not |
| `ParserCoins.InstrumentTableKeys` | app/telegram/parser_coins/utils.py:13-24 | every entry is the qtyStep, minOrderQty and tickSize of a record with that symbol |
| `ParserCoins.InstrumentTableComplete` | app/telegram/parser_coins/utils.py:20-24 | every record with a USDT symbol has an entry |
| `ParserCoins.AsFloat` | app/telegram/parser_coins/utils.py:40 | a NaN cell stays NaN; any other cell converts exactly when `float()` accepts it, to that value |
| `ParserCoins.Percent` | app/telegram/parser_coins/utils.py:41 | the daily change is scaled to percent: a hundredth of the result is the fraction, and NaN stays NaN |
| `ParserCoins.Screen` | app/telegram/parser_coins/utils.py:39-44 | a row screens exactly when its mark price, change and turnover cells all convert to float, and then keeps the symbol, the converted mark price and turnover and the change times 100; a failing conversion raises its error, the mark price's first; Long holds exactly when the percent change is at least `long_percentage` (default 10) and the turnover above `volume_long` (default 30,000,000); Short exactly when it is at most `short_percentage` (default -10) and the turnover above `volume_short`; NaN passes no comparison |
| `ParserCoins.ScreenAll` | app/telegram/parser_coins/utils.py:38-44 | one screened ticker per kept row, in order |
| `ParserCoins.TickerRows` | app/telegram/parser_coins/utils.py:34-36 | selecting the four columns succeeds exactly when each is present in some record, else KeyError |
| `ParserCoins.AllTickers` | app/telegram/parser_coins/utils.py:27-47 | every ticker's symbol ends in USDT; the only errors are KeyError, TypeError and ValueError |
| `ParserCoins.TickerFromRecord` | app/telegram/parser_coins/utils.py:34-44 | every ticker is the screening of some record of the reply |
| `ParserCoins.RecordScreened` | app/telegram/parser_coins/utils.py:37-44 | every record of the reply with a USDT symbol appears among the tickers |
| `ParserCoins.LongShortExclusive` | app/telegram/parser_coins/utils.py:43-44 | with the long threshold above the short one, no ticker is flagged both Long and Short |
| `Websocket.Initial` | app/exchange/websocket/bybit_websocket.py:21-41 | a fresh manager has no socket, is neither running nor closing, and has no subscriptions, callbacks or mirrored data |
| `Websocket.SymbolList` | app/exchange/websocket/bybit_websocket.py:77-80 | a lone string symbol stands for a one-element list, a list for itself; anything else cannot be iterated as symbols |
| `Websocket.Topics` | app/exchange/websocket/bybit_websocket.py:76-83 | without a truthy symbol the topic template is the only topic; with one, the template is formatted once per symbol, in order |
| `Websocket.Register` | app/exchange/websocket/bybit_websocket.py:95-101 | every topic is bound to the new callback, every other topic keeps its callback, and no other key appears |
| `Websocket.Subscribe` | app/exchange/websocket/bybit_websocket.py:76-101 | the subscription frame is stored and its topics bound whether or not the socket is open; it is sent exactly when the socket is open |
| `Websocket.Keep` | app/exchange/websocket/bybit_websocket.py:314-321 | a stored frame survives exactly when its args name none of the unsubscribed topics, and survivors are unchanged |
| `Websocket.Unsubscribe` | app/exchange/websocket/bybit_websocket.py:288-326 | on an open socket the frame is sent, the topics' callbacks and data and every frame naming them are dropped, answer true; on a closed one nothing changes and the answer is false |
| `Websocket.SubscribeThenUnsubscribe` | app/exchange/websocket/bybit_websocket.py:76-101 | on an open socket, unsubscribing the topics just subscribed removes their callbacks and the stored frame, and restores every other topic's callback |
| `Websocket.Classify` | app/exchange/websocket/bybit_websocket.py:133-155 | a frame is skipped exactly when it is a pong, only logged exactly when it answers auth, subscribe or unsubscribe, and processed otherwise |
| `Websocket.LoopEnd` | app/exchange/websocket/bybit_websocket.py:166-174 | leaving the receive loop stops the manager and closes the socket; a reconnect is scheduled exactly when the client is not closing |
| `Websocket.Connect` | app/exchange/websocket/bybit_websocket.py:44-74 | a handshake failure drops socket and session and keeps the running flag and ping task; a failure while resending stored subscriptions drops socket and session but leaves the manager running with a new ping task; otherwise socket, session and ping task are up and the manager runs; only a full success leaves the socket open; registries are untouched |
| `Websocket.LateFailureReconnects` | app/exchange/websocket/bybit_websocket.py:56-74 | after a failure while resubscribing the manager runs on a closed socket, so a reconnect does nothing until the receive loop ends; that end stops it and schedules a reconnect unless the client is closing |
| `Websocket.Reconnect` | app/exchange/websocket/bybit_websocket.py:265-286 | nothing happens while closing or running; otherwise the socket is open afterwards exactly when the new connect fully succeeds, and the manager is running exactly when the handshake succeeded; the old ping task is cancelled, and replaced when the handshake succeeded |
| `Websocket.Close` | app/exchange/websocket/bybit_websocket.py:329-361 | close answers true and leaves the client closing, stopped, with no socket, session or ping task, registries untouched |
| `Websocket.ClosedStaysClosed` | app/exchange/websocket/bybit_websocket.py:171-174 | after close, a loop end schedules no reconnect, a reconnect changes nothing, and (un)subscribing keeps the closing flag |
| `Websocket.RegistriesKeepFlags` | app/exchange/websocket/bybit_websocket.py:288-326 | subscribing and unsubscribing never change the running or closing flags |
| `Websocket.DropPrice` | app/exchange/websocket/bybit_websocket.py:229-232 | filtering the levels of a price succeeds exactly when every level has a price to compare |
| `Websocket.DropPriceKeeps` | app/exchange/websocket/bybit_websocket.py:229-232 | the kept levels are exactly the input levels with another price |
| `Websocket.DropPriceCons` | app/exchange/websocket/bybit_websocket.py:229-232 | the first level is kept exactly when its price differs, and the rest is filtered alike |
| `Websocket.DropPriceAppend` | app/exchange/websocket/bybit_websocket.py:229-232 | the filter distributes over concatenation, so the kept levels keep their order |
| `Websocket.FindPrice` | app/exchange/websocket/bybit_websocket.py:239-243 | the index found is that of the first level with the entry's price; none is found only when no level has it |
| `Websocket.Upsert` | app/exchange/websocket/bybit_websocket.py:235-245 | a non-zero update replaces in place the first level of equal price, or is appended when no level has that price; the entry is in the result |
| `Websocket.ApplyEntry` | app/exchange/websocket/bybit_websocket.py:225-245 | size zero replaces an existing side by its levels with that price dropped (`Websocket.DropPrice`) and leaves a missing side missing; another size replaces the side, or an empty list when it is missing, by its upsert (`Websocket.Upsert`); a side that is no list raises TypeError, a missing side never makes a non-zero update fail; other keys are kept |
| `Websocket.ApplyEntries` | app/exchange/websocket/bybit_websocket.py:224-245 | applying one side's updates in order never touches the book's other keys and adds no key but the side |
| `Websocket.ApplySide` | app/exchange/websocket/bybit_websocket.py:224-245 | a side's updates that are no list raise TypeError; an empty list changes nothing; when nothing raised, the book is the last update applied by `Websocket.ApplyEntry` to the book all earlier updates left; other keys are never touched |
| `Websocket.ApplyEntriesSnoc` | app/exchange/websocket/bybit_websocket.py:224-245 | the updates are applied left to right: one more update at the end is applied to the book the earlier ones left, unless one of them raised, and an update that raises keeps the earlier book |
| `Websocket.ApplyEntriesLastWins` | app/exchange/websocket/bybit_websocket.py:226-245 | after updates that raised nothing, the last one is in force: with a non-zero size it is in its side, with size 0 no level of its side has its price |
| `Websocket.ApplyBoth` | app/exchange/websocket/bybit_websocket.py:219-245 | the bid side is updated first and then the ask side from the book the bids left; no other key of the book changes |
| `Websocket.Touch` | app/exchange/websocket/bybit_websocket.py:212-213 | a missing topic gets an empty dict, an existing one keeps its data, and no other topic changes |
| `Websocket.Delta` | app/exchange/websocket/bybit_websocket.py:219-245 | a delta changes only its own topic; when it completes, the book carries the delta's `u` and `seq` and is the stored book with the bid updates and then the ask updates applied |
| `Websocket.ProcessOrderbook` | app/exchange/websocket/bybit_websocket.py:211-245 | the topic is always present afterwards and no other topic changes; a snapshot replaces the book; a delta is merged into the existing or new empty book by `Websocket.Delta`; a message neither snapshot nor delta leaves the book as it was; a missing `type`, or a missing `data` of a snapshot or delta, raises KeyError |
| `Websocket.TickerDelta` | app/exchange/websocket/bybit_websocket.py:255-257 | a non-dict payload raises; an empty one changes nothing; a non-empty one succeeds exactly on a stored dict, overwriting its keys and keeping the others |
| `Websocket.ProcessTicker` | app/exchange/websocket/bybit_websocket.py:247-257 | the topic is always present afterwards and no other topic changes; a snapshot replaces the ticker; a delta merges as the payload dictates |
| `Websocket.Deliver` | app/exchange/websocket/bybit_websocket.py:186-190 | the callback receives the merged state as a snapshot exactly when the merge did not raise |
| `Websocket.ProcessMessage` | app/exchange/websocket/bybit_websocket.py:176-200 | a message without a truthy or registered topic goes unchanged to the default callback; a registered topic's callback gets it, merged for books and tickers; a delivery happens exactly when no exception is raised |
| `Websocket.Receive` | app/exchange/websocket/bybit_websocket.py:127-174 | skipped and logged frames change nothing; registries and the closing flag are never changed; a raising dispatch stops the loop and reconnects exactly when the client is not closing |
| `UserTrade.HaveBalance` | app/exchange/user_trade/user_trade.py:80-87 | a balance that is not a non-empty dict fails the gate; otherwise the gate passes exactly when available over total plus 1e-9 exceeds 0.45; the only exceptions are the float conversion's and a zero divisor |
| `UserTrade.HaveBalanceDefaultTotal` | app/exchange/user_trade/user_trade.py:83-85 | with no margin balance reported the total defaults to 1, so the gate is available above 0.45 times (1 + 1e-9) |
| `UserTrade.HaveBalanceMonotone` | app/exchange/user_trade/user_trade.py:83-85 | for a positive total, more available balance never turns a pass into a fail |
| `UserTrade.Sizes` | app/exchange/user_trade/user_trade.py:99 | the sizes are read exactly when every position's size converts, one per position in order |
| `UserTrade.HaveBothSide` | app/exchange/user_trade/user_trade.py:95-102 | a reply that is not a non-empty list counts as both sides open; otherwise the answer is true exactly when there are two positions and both sizes are non-zero |
| `UserTrade.CoinInTrade` | app/exchange/user_trade/user_trade.py:105-111 | a reply that is not a non-empty list counts as in trade; otherwise the answer is true exactly when some size is non-zero |
| `UserTrade.BothSidesInTrade` | app/exchange/user_trade/user_trade.py:95-111 | a coin with both sides open is in trade |
| `UserTrade.CoinInTradeSizes` | app/exchange/user_trade/user_trade.py:105-109 | one position with a non-zero size puts the coin in trade |
| `UserTrade.ColumnsCarried` | app/exchange/user_trade/user_trade.py:125 | a key is a column of the order frame exactly when some order carries it |
| `UserTrade.Row` | app/exchange/user_trade/user_trade.py:125-135 | each record of the frame has every column of the frame, holding the order's own value where it has the key and NaN where it lacks it |
| `UserTrade.FirstSelected` | app/exchange/user_trade/user_trade.py:133-136 | the result is the first record the filters keep, and {} exactly when none is kept |
| `UserTrade.GetOrder` | app/exchange/user_trade/user_trade.py:114-136 | a reply that is not a non-empty list gives {}; otherwise the lookup raises KeyError exactly when it filters on a column no order carries, and else returns the first order both filters keep as its frame record, NaN in the columns it lacks, or {} when none is kept (`UserTrade.FirstSelected`); a NaN cell equals no id and differs from every side |
| `UserTrade.GetOrderById` | app/exchange/user_trade/user_trade.py:125-136 | looking up an order by its own id returns its frame record when no earlier order carries that id |
| `UserTrade.GetOrderNaNStatus` | app/exchange/user_trade/user_trade.py:125-136 | an order lacking the status that another order of the list carries is returned with a NaN status |
| `UserTrade.PositionDueSide` | app/exchange/user_trade/user_trade.py:90-93 | the lookup succeeds exactly when every position is a dict with a side, and then returns the first position whose side equals the given one under Python's `==`, or {}; a NaN side equals none |
| `UserTrade.FirstOnSide` | app/exchange/user_trade/user_trade.py:92-93 | {} exactly when no position's side equals the given one under Python's `==`; otherwise a position whose side does, before which none does |
| `UserTrade.NaNSideFindsNone` | app/exchange/user_trade/user_trade.py:92-93 | a NaN side finds no position |
| `UserTrade.AfterFetchCoin` | app/exchange/user_trade/user_trade.py:237-265 | nothing is recorded without an order id, when the order is not found or its status is 'Cancelled', when no take-profit or stop-loss order of another side is open, or when no position of its side exists; when the order is found with a status other than 'Cancelled' (NaN included), such an order is open with an id and a position exists, that position and that order's id are recorded, as the hedge's second leg for a hedge and as main leg otherwise |
| `UserTrade.OpenTakeProfitFound` | app/exchange/user_trade/user_trade.py:246 | looking for the open orders against a buy finds the open sell-side take-profit order |
| `UserTrade.AfterFetchCoinNaNStatus` | app/exchange/user_trade/user_trade.py:237-261 | a placed order found with a NaN status is not taken as cancelled: with an open take-profit order against it and a position on its side, the position and that order's id are recorded |
| `UserTrade.AfterFetchCoinValid` | app/exchange/user_trade/user_trade.py:256-261 | recording a filled order keeps the hedge manager valid |
| `UserTrade.AfterHedgeKeepsMain` | app/exchange/user_trade/user_trade.py:258-259 | a hedge fill never changes any coin's main leg |
| `UserTrade.PyInt` | app/exchange/user_trade/user_trade.py:224-227 | the integer cast keeps an integer as is, truncates a float, reads a string of a sign and ASCII digits, and fails only with ValueError or TypeError |
| `UserTrade.FloatCell` | app/exchange/user_trade/user_trade.py:224-226 | `astype(float)` keeps a NaN or None cell NaN, and otherwise succeeds exactly when `float()` does, with its value |
| `UserTrade.IntCell` | app/exchange/user_trade/user_trade.py:224-227 | `astype(int)` refuses a NaN cell with ValueError and casts any other cell as `int()` does on a sign and ASCII digits |
| `UserTrade.CastColumn` | app/exchange/user_trade/user_trade.py:224-228 | a column cast succeeds exactly when every cell's cast does, giving each cell's value in row order; a failure is some cell's exception |
| `UserTrade.KeyOf` | app/exchange/user_trade/user_trade.py:220-230 | a row's key exists exactly when its size, entry price and index cells cast, and is its symbol cell with those three casts |
| `UserTrade.KeysOf` | app/exchange/user_trade/user_trade.py:220-230 | KeyError exactly when no position carries one of the four selected columns; otherwise the column-by-column casts succeed exactly when every row's key exists, giving those keys one per position in order |
| `UserTrade.RecordsMissingSize` | app/exchange/user_trade/user_trade.py:220-223 | a position lacking the size that another position carries has a NaN size cell in the frame |
| `UserTrade.MissingSizeKeys` | app/exchange/user_trade/user_trade.py:224-230 | a row with a NaN size keeps that NaN through the float cast and still has a key; the row with every cell casts its size, price and index |
| `UserTrade.KeysOfMissingSize` | app/exchange/user_trade/user_trade.py:220-230 | such a position is keyed with a NaN size and the comparison goes on |
| `UserTrade.Project` | app/exchange/user_trade/user_trade.py:219 | cutting a record to the five columns keeps them, with its symbol and is_main |
| `UserTrade.Stale` | app/exchange/user_trade/user_trade.py:229-233 | the result is exactly the local records whose key the exchange does not hold, cut to the five columns; a NaN part of an exchange key matches no local value |
| `UserTrade.DeletePositions` | app/exchange/user_trade/user_trade.py:214-233 | an empty exchange list raises IndexError; a falsy first position or no local legs give the single empty record; otherwise the result is the comparison's, which when it succeeds is the stale local records |
| `UserTrade.DeleteAgainst` | app/exchange/user_trade/user_trade.py:219-233 | KeyError exactly when a local record lacks one of the five columns or no exchange position carries one of the four; otherwise a failed cast's ValueError or TypeError, or the stale local records |
| `UserTrade.DeletePositionsEmptyExchange` | app/exchange/user_trade/user_trade.py:217 | with local legs and an empty exchange list the code as written raises instead of flagging them |
| `UserTrade.DeletePositionsFixed` | app/exchange/user_trade/user_trade.py:214-233 | the corrected comparison agrees with the code whenever the exchange list is non-empty and never raises IndexError |
| `UserTrade.DeletePositionsFixedEmptyExchange` | app/exchange/user_trade/user_trade.py:214-233 | with the correction an empty exchange list flags every local leg |
| `UserTrade.AllToDictHasColumns` | app/exchange/user_trade/user_trade.py:215-219 | every record of the hedge manager carries the five columns read by the comparison |
| `UserTrade.RemoveOne` | app/exchange/user_trade/user_trade.py:197-205 | a record without a truthy string symbol changes nothing; otherwise is_main (default true) picks the main or second leg to remove; key uniqueness is kept |
| `UserTrade.RemoveStale` | app/exchange/user_trade/user_trade.py:197-205 | removing the stale records one by one keeps the keys of the manager unique |
| `UserTrade.RemoveOneValid` | app/exchange/user_trade/user_trade.py:197-205 | handling one stale record keeps the hedge manager valid |
| `UserTrade.RemoveStaleValid` | app/exchange/user_trade/user_trade.py:197-205 | handling all stale records keeps the hedge manager valid |
| `UserTrade.RemoveStaleNoNewMain` | app/exchange/user_trade/user_trade.py:197-205 | removal never creates a main leg for a coin that had none |
| `UserTrade.RemoveStaleClearsMain` | app/exchange/user_trade/user_trade.py:197-205 | after the loop no main leg is left for a coin some main record named |
| `UserTrade.EntryListsMain` | app/exchange/user_trade/user_trade.py:215 | an entry's records include its main leg's record |
| `UserTrade.MainRecordListed` | app/exchange/user_trade/user_trade.py:215 | every main leg held by the manager has its record among the manager's records |
| `UserTrade.CheckRound` | app/exchange/user_trade/user_trade.py:192-212 | a round keeps the keys unique; the loop goes on exactly when the comparison succeeds, and a stopping round changes nothing |
| `UserTrade.CheckRoundStopsOnEmptyExchange` | app/exchange/user_trade/user_trade.py:192-217 | as written, an empty exchange list stops the monitoring loop with every local leg left in place |
| `UserTrade.CheckRoundFixed` | app/exchange/user_trade/user_trade.py:192-212 | the corrected round keeps the keys unique and goes on exactly when the corrected comparison succeeds |
| `UserTrade.CheckRoundFixedClearsMain` | app/exchange/user_trade/user_trade.py:192-212 | with the correction, an empty exchange list keeps the loop going and clears every main leg |
| `UserTrade.TargetSide` | app/exchange/user_trade/user_trade.py:295 | for a positive price and a percentage of at most 100 the target lies at or above the price going up and at or below it going down, never below zero |
| `UserTrade.EntryAmount` | app/exchange/user_trade/user_trade.py:290-293 | the amount fails exactly on a zero quantity step and is otherwise at least the minimum order quantity |
| `UserTrade.EntryAmountBounds` | app/exchange/user_trade/user_trade.py:290-293 | for a non-negative raw amount and positive step the amount is the minimum quantity or the raw amount rounded down onto the step grid |
| `UserTrade.RawAmountNonNegative` | app/exchange/user_trade/user_trade.py:289 | non-negative sizing inputs give a non-negative raw amount |
| `UserTrade.EntryOrder` | app/exchange/user_trade/user_trade.py:270-304 | a coin in trade places nothing; with no cached price the coin is given up with TypeError; a missing balance dict or a non-positive exchange price places nothing; past these gates an order is planned exactly when the margin balance parses and the quantity and tick steps are non-zero; a planned order is on the coin's side, sized from the margin balance and rounded, with the rounded take profit |
| `UserTrade.EntryOrderBounds` | app/exchange/user_trade/user_trade.py:288-296 | the entry amount is the minimum quantity or the sized amount rounded down to the step, and the take profit is within one tick below its target |
| `UserTrade.HedgeOrder` | app/exchange/user_trade/user_trade.py:154-174 | a zero price places nothing; a missing main leg raises; a hedge buys exactly when the main leg is short, for its size, with the rounded stop loss |
| `UserTrade.HedgeOrderBounds` | app/exchange/user_trade/user_trade.py:164-166 | the hedge takes the side opposite the main leg, with the stop loss below the price for a buy and within one tick below its target above the price for a sell |
| `Orders.IdxOf` | app/exchange/user_trade/orders.py:13-15 | the index enum accepts exactly the values 1 and 2 (as int, float or bool), gives back the member with that value, and rejects everything else with ValueError |
| `Orders.IdxValues` | app/exchange/user_trade/orders.py:13-15 | each member is found again from its stored value, the two values differ, and they are 1 and 2 |
| `Orders.MainToDict` | app/exchange/user_trade/orders.py:47-50 | a main leg's dict has exactly one key per field, each holding that field's value, the index as its int value |
| `Orders.SecondaryToDict` | app/exchange/user_trade/orders.py:63-66 | a second leg's dict has exactly one key per field, each holding that field's value, the index as its int value |
| `Orders.MainFromDict` | app/exchange/user_trade/orders.py:52-56 | parsing succeeds exactly on a dict with known keys, every required field, and an index that converts; a bad index is a ValueError, anything else a TypeError |
| `Orders.SecondaryFromDict` | app/exchange/user_trade/orders.py:68-72 | parsing succeeds exactly on a dict with known keys, every field, and an index that converts; a bad index is a ValueError, anything else a TypeError |
| `Orders.MainRoundTrip` | app/exchange/user_trade/orders.py:47-56 | a main leg parsed back from its own dict form is the same leg |
| `Orders.SecondaryRoundTrip` | app/exchange/user_trade/orders.py:63-72 | a second leg parsed back from its own dict form is the same leg |
| `Orders.HedgeToDict` | app/exchange/user_trade/orders.py:80-88 | an entry's dict holds the coin and a key for each leg exactly when that leg is present, with the leg's dict form, and no other key |
| `Orders.HedgeFromDict` | app/exchange/user_trade/orders.py:90-99 | a parsed entry keeps the stored coin and has a leg exactly when the stored dict holds a truthy value for it |
| `Orders.HedgeRoundTrip` | app/exchange/user_trade/orders.py:80-99 | an entry parsed back from its own dict form is the same entry |
| `Orders.Save` | app/exchange/user_trade/orders.py:119-124 | saving never changes the entries; a None symbol raises DataError and writes nothing; a known coin's field is set to its entry's dict form, an unknown coin's field deleted, every other field untouched |
| `Orders.SaveMirrors` | app/exchange/user_trade/orders.py:119-124 | after a change confined to one coin, saving that coin keeps the stored hash a mirror of the entries |
| `Orders.ChangeNonEmpty` | app/exchange/user_trade/orders.py:237-253 | a change confined to one coin whose new entry has a leg keeps every entry non-empty |
| `Orders.CommitValid` | app/exchange/user_trade/orders.py:119-124 | changing only one coin's entry, to one with a leg or to none, and saving it keeps the manager valid |
| `Orders.Leverage` | app/exchange/user_trade/orders.py:171 | the leverage divisor is never zero |
| `Orders.Read` | app/exchange/user_trade/orders.py:163-172 | reading a fill succeeds exactly when its index converts; a missing index reads as 0 and raises ValueError; the amount is the position value over the leverage |
| `Orders.TrackingFor` | app/exchange/user_trade/orders.py:179-182 | the hedge trigger lies at or below a long entry and at or above a short one |
| `Orders.PutMain` | app/exchange/user_trade/orders.py:175-197 | the coin's entry afterwards holds the new main leg and its old second leg, and no other coin changes; only a None symbol raises |
| `Orders.SetMain` | app/exchange/user_trade/orders.py:158-197 | an index that does not convert raises ValueError and changes nothing; otherwise the main leg is put as PutMain says |
| `Orders.SetMainValid` | app/exchange/user_trade/orders.py:158-197 | setting a main leg keeps the manager valid, whatever is raised |
| `Orders.PutSecondary` | app/exchange/user_trade/orders.py:216-228 | a coin without an entry changes nothing; otherwise its second leg is replaced, its main leg kept, and no other coin changes |
| `Orders.SetSecondary` | app/exchange/user_trade/orders.py:200-228 | an index that does not convert raises ValueError and changes nothing, even for an unknown coin; otherwise the second leg is put as PutSecondary says |
| `Orders.SetSecondaryValid` | app/exchange/user_trade/orders.py:200-228 | setting a second leg keeps the manager valid, whatever is raised |
| `Orders.SetSecondaryKeepsMain` | app/exchange/user_trade/orders.py:200-228 | setting a second leg leaves the main leg of every coin as it was |
| `Orders.RemoveMain` | app/exchange/user_trade/orders.py:237-244 | an unknown coin changes nothing and returns None; otherwise the old main leg is returned, the entry keeps only its second leg or goes when it has none, and no other coin changes |
| `Orders.RemoveSecondary` | app/exchange/user_trade/orders.py:246-253 | an unknown coin changes nothing and returns None; otherwise the old second leg is returned, the entry keeps only its main leg or goes when it has none, and no other coin changes |
| `Orders.RemoveAll` | app/exchange/user_trade/orders.py:255-259 | an unknown coin changes nothing; otherwise the entry is returned and removed, and no other coin changes |
| `Orders.RemoveValid` | app/exchange/user_trade/orders.py:237-259 | each of the three removals keeps the manager valid |
| `Orders.RemoveLastLeg` | app/exchange/user_trade/orders.py:237-243 | removing the only leg of an entry removes the entry and its stored field |
| `Orders.GetMain` | app/exchange/user_trade/orders.py:280-283 | a coin has a main leg exactly when it has an entry holding one, and that leg is returned |
| `Orders.GetSecond` | app/exchange/user_trade/orders.py:286-289 | a coin has a second leg exactly when it has an entry holding one, and that leg is returned |
| `Orders.AllCoins` | app/exchange/user_trade/orders.py:292-293 | the coins listed are exactly the symbols with an entry, one per entry |
| `Orders.HasAnyLeg` | app/exchange/user_trade/orders.py:295-302 | in a valid manager a coin has an entry exactly when it has a main or a second leg |
| `Orders.GetTrackingPrice` | app/exchange/user_trade/orders.py:132-135 | without a main leg the tracking price is None; with one it is that leg's |
| `Orders.ShouldCreateHedge` | app/exchange/user_trade/orders.py:137-155 | no main leg, an existing second leg or a falsy tracking price never trigger; past those, a missing cached price or a tracking price that is not a number raises TypeError, and that is the only exception; a trigger means a long at or below, or a short at or above, a numeric tracking price |
| `Orders.PutMainThenHedge` | app/exchange/user_trade/orders.py:137-193 | once a main leg is set on a coin without a hedge, the trigger never fires at a zero tracking price, raises TypeError when no price is cached, and otherwise fires exactly when the cached price has crossed the computed tracking price |
| `Orders.EntryRecords` | app/exchange/user_trade/orders.py:306-318 | an entry contributes one record per leg it holds, each carrying the record columns |
| `Orders.AllToDict` | app/exchange/user_trade/orders.py:304-319 | every record carries the symbol, is_main and the leg columns |
| `Orders.AllToDictAppend` | app/exchange/user_trade/orders.py:304-319 | the records of two runs of entries are those of each in order, one per leg |
| `Orders.MainRecordFields` | app/exchange/user_trade/orders.py:307-318 | a main leg's record is its dict form tagged with its symbol and is_main true, and a second leg's record follows with is_main false |
| `Orders.Load` | app/exchange/user_trade/orders.py:111-116 | loading reads at most one entry per stored field, and all of them when no parse fails |
| `Orders.LoadStored` | app/exchange/user_trade/orders.py:111-129 | loading the hash written from a manager's entries gives those entries back |
| `Orders.Written` | app/exchange/user_trade/orders.py:127-128 | the bulk mapping holds exactly the coins with an entry, each mapped to its entry's dict form |
| `Orders.SaveAll` | app/exchange/user_trade/orders.py:127-129 | an empty mapping or a None symbol raises DataError and writes nothing; otherwise every entry's field is written and stale fields are kept |

## Left out

- Network and socket I/O are not modelled; their results are parameters. This covers the
  aiohttp sessions and session lock, `_handle_connection_error`, `ws_connect` and
  `send_str`, the websocket ping loop, the resubscription sends after a connect, and the
  authentication frame. Whether connecting or a resubscription send raises is
  `Websocket.Connect`'s outcome parameter.
- `BybitRequester.close` is not modelled: it awaits a bool.
- HMAC-SHA256, `uuid4`, `json.dumps`/`json.loads`, `str()` and float `repr` are passed in as
  functions or values, because they are foreign code. Stored frames and hash fields hold the
  value before serialisation.
- The trade bot's background loops are modelled only through the decisions they make:
  scheduling, sleeps, random staggers and task cancellation are concurrency, not logic.
  This covers `check_running`, `check_settings`, the `check_hedge` loop, the
  `check_positions` loop and `start_trade`. One round of `check_positions` is
  `UserTrade.CheckRound`, and one coin of `check_hedge` is `Orders.ShouldCreateHedge`
  followed by `UserTrade.HaveBothSide` and `UserTrade.HedgeOrder`.
- IEEE-754 floats are modelled as exact reals, so rounding error and overflow are not
  modelled. `round_step_size` computes in `Decimal`, which the reals model exactly.
- `float()` of a string accepts optional sign, digits and one decimal point. Exponents,
  `inf`, `nan`, surrounding whitespace and underscores are not accepted by the model.
- `int()` of a string is modelled as an optional sign and ASCII digits only. Surrounding
  whitespace, underscores between digits and non-ASCII decimal digits, which Python also
  accepts, are refused; the members that read integers this way are listed below.
- pandas is modelled by sequences and maps. A record lacking a column that another record
  carries gets a NaN cell there. The coin screener reads that cell as null, since it only
  converts it. The order and position frames of the trading bot keep it as a NaN cell,
  truthy and equal to nothing. When several cells fail a cast, the model raises the first
  failing cell's exception. Which exception pandas reports is not modelled.
- The redis readers `get_all_trade_settings`, `get_all_coin_settings`, `get_all_coins_info`
  and `get_coin_info` are not modelled: they are plain reads that do no conversion. Nor is
  `save_mark_price_coins`, a single HSET. Its effect on a price is stated by
  `RedisDb.MarkPriceRoundTrip`.
- The `buy not in {True, False}` check of `place_order` is not modelled, because `buy` is
  a bool in the model.
- Datetime overflow past year 9999 is not modelled.
- A profit-and-loss record that is not a dict is treated as having no `closedPnl`.
- Exceptions raised inside a websocket callback are not modelled: the client logs them and
  carries on, so they change no state.
- A websocket symbol argument that is neither a string nor a list is a TypeError in the
  model. The code would iterate any iterable.
- `get_all_users` and `get_bybit_uid` of the postgres service are not modelled: they are
  plain reads.
- The SQLAlchemy `User` table's `to_dict` and `__repr__` are not modelled: they are
  formatting.
- `close_all_order_user` is not modelled: it is a single pass-through request.
- Dead or unfinished code is not modelled: `sync_position_with_db`, the commented-out
  update methods, and `get_tp_order`/`get_sl_order`, which no caller uses.
- The other middlewares, the Telegram handlers and keyboards, the polling loop,
  configuration and logging are not modelled: they are glue.
- The extra call on codes 10001/110043 is kept in `Retry.Retrier` as written.
  `Retry.ValidateNeverRepeats` shows that it can never be reached.
- Websocket.ApplyEntries: states only which keys of the book it may change. That it is the
  left-to-right fold of `Websocket.ApplyEntry` is stated by `Websocket.ApplyEntriesSnoc`.
- Requester.PageItems: a `list` that is a dict raises TypeError in the model, where Python
  would extend the records by the dict's keys; the model's JSON objects keep no key order.
- RedisDb.LoadsRun: reads back only the exact texts `set_is_run` writes. Other JSON spellings
  of the same string, with spaces around it or escapes inside it, raise ValueError in the
  model, while `json.loads` would accept them.
- Orders.Read: a position whose `symbol` is not a string is keyed by None in the model.
  Python keeps that value itself as the dict key.
- Requester.MethodVerb: letter case is mapped for ASCII letters only. Python's `upper()`
  also maps other letters to ASCII ones (`'poſt'.upper() == 'POST'`); such spellings raise
  ValueError in the model.
- UserTrade.AfterFetchCoin: when the open order found has a NaN `orderId` cell, the model
  records nothing. That happens when it lacks the id another open order carries. Python
  would store NaN as the leg's order id, but the model's JSON values have no NaN.
- UserTrade.DeleteAgainst: a local record lacking one of the five columns is a KeyError in
  the model. pandas raises so only when no local record carries the column, and reads NaN
  otherwise. The manager's records always carry all five (`UserTrade.AllToDictHasColumns`),
  so no reachable input differs.
- UserTrade.DeletePositions: the same column rule for the local records, through
  `UserTrade.DeleteAgainst`.
- Orders.Load: states only the count of entries read. Its content is stated by
  `Orders.LoadStored` for a hash the manager wrote.
- UserTrade.PyInt: a string that `int()` accepts with surrounding whitespace, underscores
  between digits or non-ASCII decimal digits (`' 5 '`, `'1_000'`) fails with ValueError in
  the model. The exchange sends `positionIdx` as an integer, so strings rarely reach it.
- UserTrade.IntCell: the same `int()` syntax gap, since it casts a non-NaN cell through
  `UserTrade.PyInt`.
- RedisDb.GetAllIsRun: a key whose suffix `int()` accepts only through that wider syntax
  (`is_run: 5`, `is_run:1_0`) is listed by Python and skipped by the model. `set_is_run`
  writes the suffix as `str()` of an integer, which the model reads back
  (`RedisDb.KeyUserIdOfFlagKey`).
- ParserCoins.ResultList: refuses every `list` that is not a list with TypeError. Python's
  `pd.DataFrame` builds a frame from a dict, raises KeyError on `symbol` for None's empty
  frame, and raises ValueError for a string. Only the exception kind differs; the callers'
  contracts allow all three.

## Findings

| source | as written | input that shows it | evidently intended | confidence | as-written member | corrected member |
|---|---|---|---|---|---|---|
| app/exchange/bybit_async/bybit_async.py:116-128 | the stop test compares the announced `nextPageCursor` with the previous cursor after its `%` were rewritten to `:` | an exchange that answers every page with `nextPageCursor` `a%3D`: the previous cursor is stored as `a:3D`, so the test never matches and the loop requests the same page forever | stop when the exchange repeats the cursor it sent, comparing the cursors as sent | not executed | `Requester.StuckServerNeverFinishes` | `Requester.StuckServerStopsWhenCorrected` |
| app/exchange/user_trade/user_trade.py:214-218 | `result_api[0]` is read before the emptiness checks | local legs present and the exchange reporting no open positions (an empty list): IndexError, which ends the `check_positions` loop with every closed leg still recorded | an empty exchange list means every local leg is closed and must be removed | not executed | `UserTrade.CheckRoundStopsOnEmptyExchange` | `UserTrade.CheckRoundFixedClearsMain` |
