# A verified model of the picpay-nodejs core

This project models the logic core of a small payments back end written in
TypeScript, and proves properties of that model. The back end has five
parts:

- a hand-written HTTP framework: a middleware chain walked through a `next`
  continuation, a router with `:name` path parameters, and a JSON error
  handler;
- a document store with Mongo-like filters, per-collection id counters and
  a snapshot file;
- a FIFO mutex that serialises the store's writes;
- a retrying notification sender;
- the validating entities `Wallet`, `User`, `Transfer` and `Notification`.

There is one Dafny module per source file:

| file | module | models |
|---|---|---|
| `wrappers.dfy` | `Wrappers` | `Option`, `Result` (a value or a thrown message), `Outcome` |
| `js_text.dfy` | `JsText` | the `\s`, `\d` and `\w` classes, `trim()` being empty, a `Date` versus any other value |
| `filter.dfy` | `Filters` | `parseFilter`, `applyCondition`, `evaluateOperator` |
| `database.dfy` | `Store` | class `Database`, with the file as a ghost field |
| `http.dfy` | `Http` | requests, responses, errors, step outcomes, the tagged step kinds |
| `router.dfy` | `Routing` | pattern compilation, regex matching, `extractParams`, class `Router` and its router step |
| `dispatcher.dfy` | `Dispatch` | class `MyExpress`: `use`, `get/post/put/delete`, `handleRequest`, `executeMiddleware`, `fallbackHandler` |
| `json.dfy` | `Json` | the `JSON.stringify` of a string, which the error handler's body relies on, with its inverse |
| `error_handler.dfy` | `ErrorResponses` | `errorHandler` and `send` |
| `mutex.dfy` | `Mutex` | class `SimpleMutex` as a lock flag and a waiter queue |
| `retry.dfy` | `Retry` | `RetryDecorator.sendNotification` and its recursive `attempt` |
| `wallet.dfy`, `user.dfy`, `transfer.dfy`, `notification.dfy` | `Wallets`, `Users`, `Transfers`, `Notifications` | the entity classes |

**How the source's form is kept.**
- Code that changes state in place is modelled with classes and `modifies`
  clauses:
  - the store's `data` and `idCounters`;
  - the router's `routes` and the application's `middlewares`;
  - the mutex's flag and queue;
  - each entity's fields, assigned through validating setters that return
    `Fail(message)` where the source throws.
- Each entity constructor is a `static method New` that runs the setters in
  the source's order. It is proved equal to a pure `Admit` function, and
  `Admit` states every error case in that order.
- `handleRequest` is a loop over the middleware list with a cursor and a
  carried error. It is proved equal to the recursive `Walk`, and the
  properties of the walk are lemmas about `Walk`.
- Code that only computes is modelled with datatypes, functions and lemmas:
  the filter evaluator, route matching, the retry recursion and the error
  handler.

**Ids that stop being unique.**
- Ids are meant to be unique within a collection: each insert takes the
  collection's counter as the id and increments it
  (`src/utils/Database.ts:119-123`). The code breaks this:
  - `delete` on an absent collection installs `[]` without a counter
    (`src/utils/Database.ts:166-168`);
  - a later `insert` then assigns `undefined++`, which is NaN, and keeps no
    counter.
- The model reproduces this (`Store.Database.Insert`). The id-freshness
  invariant `WellKeyed` is then proved only for collections that have a
  counter.

## Model

| member | source | states |
|---|---|---|
| Filters.EmptyFilterAcceptsAll | src/utils/parseFilter.ts:31-36 | A `null`/`undefined` filter and the empty object `{}` accept every item. |
| Filters.KeysAreConjunctive | src/utils/parseFilter.ts:40-62 | A filter object accepts iff every key's test is `true`. Otherwise the answer, `false` or an error, is that of the first key that is not `true`, and every key before it held. |
| Filters.SingleKey | src/utils/parseFilter.ts:41-61 | An object with one key is decided by that key alone. |
| Filters.OrIsDisjunctive | src/utils/parseFilter.ts:45-48 | `$or` rejects iff every sub-filter rejects, so `$or: []` rejects. Otherwise its answer is that of the first sub-filter that does not reject. |
| Filters.AndIsConjunctive | src/utils/parseFilter.ts:50-53 | `$and` accepts iff every sub-filter accepts, so `$and: []` accepts. Otherwise its answer is that of the first sub-filter that does not accept. |
| Filters.LogicalWithoutErrors | src/utils/parseFilter.ts:45-53 | When no sub-filter fails, `$or` is "some accepts" and `$and` is "all accept". |
| Filters.NotNegates | src/utils/parseFilter.ts:55-56 | `{$not: g}` accepts exactly what `g` rejects, rejects exactly what `g` accepts, and fails exactly when `g` fails. |
| Filters.DoubleNegation | src/utils/parseFilter.ts:55-56 | `{$not: {$not: g}}` evaluates exactly as `g`, errors included. |
| Filters.LiteralIsStrictEquality | src/utils/parseFilter.ts:72-74 | A bare literal is `===`: it matches a present, equal field. It never matches when the literal is an array or NaN. |
| Filters.OperatorsAreConjunctive | src/utils/parseFilter.ts:68-71 | An operator map holds iff every listed operator holds, so `{}` holds. Otherwise its answer is that of the first operator that does not hold. |
| Filters.UnsupportedOperatorWhenReached | src/utils/parseFilter.ts:67-110 | An unknown operator makes the map fail with `Unsupported operator: <op>` when evaluation reaches it, that is, when every operator before it held. |
| Filters.ErrorMeansUnsupportedReached | src/utils/parseFilter.ts:67-110 | The converse: a failing operator map reached an unsupported operator, every operator before it having held, and the error names that operator. With `UnsupportedOperatorWhenReached`, the map fails exactly when evaluation reaches an unsupported operator. |
| Filters.NeNegatesEq | src/utils/parseFilter.ts:87-90 | `$eq` and `$ne` never fail, and each is the negation of the other. |
| Filters.IntegerComparisons | src/utils/parseFilter.ts:91-98 | On an integer field against an integer, `$gt/$gte/$lt/$lte` are the integer order, so `$gt`/`$lte` and `$lt`/`$gte` are complementary. |
| Filters.AbsentFieldIsIncomparable | src/utils/parseFilter.ts:91-98 | On an absent field, all four ordering operators are `false`. |
| Filters.CodeUnits | src/utils/parseFilter.ts:91-98 | A character below U+10000 is one code unit, itself and not a surrogate. Any other character is a high surrogate followed by a low surrogate. |
| Filters.SurrogatesDecode | src/utils/parseFilter.ts:91-98 | The surrogate pair of a character above U+FFFF gives back its code point. |
| Filters.Utf16 | src/utils/parseFilter.ts:91-98 | A string has at least as many code units as characters. |
| Filters.CodeUnitsInjective | src/utils/parseFilter.ts:91-98 | Two characters with the same code units are the same character. |
| Filters.Utf16Injective | src/utils/parseFilter.ts:91-98 | Two strings with the same code units are the same string. |
| Filters.UnitsLessTrichotomy | src/utils/parseFilter.ts:91-98 | The lexicographic order on code-unit sequences is a strict total order. |
| Filters.StrLessTrichotomy | src/utils/parseFilter.ts:91-98 | The string order `<`, on UTF-16 code units, is a strict total order on strings. |
| Filters.AstralBeforeHighBmp | src/utils/parseFilter.ts:91-98 | The order is by code unit, not by code point: `"\u{10000}" < "\uFFFF"` holds and the reverse does not. |
| Filters.StringComparisons | src/utils/parseFilter.ts:91-98 | On a string field against a string, the ordering operators are the lexicographic order of the UTF-16 code units, with `$lte`/`$gte` including equality. |
| Filters.LessThan | src/utils/parseFilter.ts:91-98 | An absent field or NaN on either side gives `undefined`. Two strings compare by code unit, and two integers by the integer order. |
| Filters.LessThanIsAsymmetric | src/utils/parseFilter.ts:91-98 | `x < y` and `y < x` never both hold, and when `x < y` holds, `y < x` is a definite `false`. |
| Filters.StrictEquals | src/utils/parseFilter.ts:73-73 | `===` only holds between a present field and an equal literal. On integers, strings and booleans it is exactly equality. |
| Filters.Includes | src/utils/parseFilter.ts:99-106 | `includes` only finds a present value that is in the list. Unlike `===`, NaN finds NaN. |
| Filters.EvalOperator | src/utils/parseFilter.ts:78-110 | `evaluateOperator` throws exactly for an operator outside the eight, with `Unsupported operator: <op>`. The results of the eight are stated by `NeNegatesEq`, `IntegerComparisons`, `AbsentFieldIsIncomparable`, `StringComparisons` and `InAndNin`. |
| Filters.EvalOperators | src/utils/parseFilter.ts:68-71 | The `every` over an operator map: an error it raises is `Unsupported operator: <op>` for an `op` outside the eight. Its short-circuit order is `OperatorsAreConjunctive`. |
| Filters.ApplyCondition | src/utils/parseFilter.ts:67-75 | A literal never throws. An operator map throws only `Unsupported operator: <op>` for an `op` outside the eight. The literal case is `LiteralIsStrictEquality`. |
| Filters.Eval | src/utils/parseFilter.ts:30-62 | `parseFilter(f)(item)`. Its answers are stated by `EmptyFilterAcceptsAll`, `KeysAreConjunctive` and `SingleKey`, and its errors by `FilterErrorsAreUnsupported`. |
| Filters.EvalEntries | src/utils/parseFilter.ts:41-61 | The `every` over a filter object's keys, stated by `KeysAreConjunctive` and `EntriesErrorsAreUnsupported`. |
| Filters.EvalEntry | src/utils/parseFilter.ts:42-60 | The `switch` on one key, stated case by case by `OrIsDisjunctive`, `AndIsConjunctive`, `NotNegates` and `LiteralIsStrictEquality`, and its errors by `EntryErrorsAreUnsupported`. |
| Filters.EvalAny | src/utils/parseFilter.ts:45-48 | The `some` of `$or`, stated by `OrIsDisjunctive` and `AnyErrorsAreUnsupported`. |
| Filters.EvalAll | src/utils/parseFilter.ts:50-53 | The `every` of `$and`, stated by `AndIsConjunctive` and `AllErrorsAreUnsupported`. |
| Filters.FilterErrorsAreUnsupported | src/utils/parseFilter.ts:30-110 | The only error a filter raises is `Unsupported operator: <op>`, for an `op` outside the eight. |
| Filters.EntriesErrorsAreUnsupported | src/utils/parseFilter.ts:41-61 | The same for the keys of one filter object. |
| Filters.EntryErrorsAreUnsupported | src/utils/parseFilter.ts:42-60 | The same for one key: `$or`, `$and` and `$not` only pass on their sub-filters' errors, and a field condition fails only on an operator. |
| Filters.AnyErrorsAreUnsupported | src/utils/parseFilter.ts:45-48 | The same for the sub-filters of `$or`. |
| Filters.AllErrorsAreUnsupported | src/utils/parseFilter.ts:50-53 | The same for the sub-filters of `$and`. |
| Filters.InAndNin | src/utils/parseFilter.ts:99-106 | With a list operand, `$in` is membership of the field's value and `$nin` is its complement. With any other operand both are `false`. |
| Store.Select | src/utils/Database.ts:145-145 | `filter` with the parsed filter, or its negation. It succeeds iff every record evaluates without error, and every kept record evaluated to the wanted answer. Which error a failure carries is stated by `SelectErrorIsFirst`. |
| Store.HydrateAll | src/utils/Database.ts:151-153 | `map(fromDto)`: it succeeds iff every record hydrates. The result then has the same length, and element i is the hydration of record i. Which error a failure carries is stated by `HydrateErrorIsFirst`. |
| Store.SelectErrorIsFirst | src/utils/Database.ts:98-99 | A failing `filter` fails with the error of the first record whose test throws, and every record before it was tested without error. |
| Store.HydrateErrorIsFirst | src/utils/Database.ts:103-105 | A failing `map(fromDto)` fails with the error of the first record that does not hydrate, and every record before it hydrated. |
| Store.Hydrate | src/utils/Database.ts:182-195 | No records need no factory. Otherwise a missing factory fails with `No constructor registered for collection: <c>`, and a registered one hydrates every record. |
| Store.MergeEach | src/utils/Database.ts:146-148 | `Object.assign` on each record: same count, and each record's keys become its own keys plus the update's keys. An update key takes the update's value, and every other key keeps the record's. |
| Store.MergeMatching | src/utils/Database.ts:145-148 | The collection after merging into the matches keeps its length. A record the filter rejects is unchanged. A record it accepts is `Object.assign(record, updates)`: the keys of both, with the update's values winning. |
| Store.Database.Save | src/utils/Database.ts:71-82 | A successful write replaces the file with the current data and counters. A failed write leaves the file as it was. |
| Store.Database.constructor | src/utils/Database.ts:46-58 | With no file: empty state, and the empty snapshot is written if the write succeeds. With an unreadable file: empty state, file untouched. Otherwise the file's data and counters are adopted, with counters defaulting to `{}`. |
| Store.Database.RegisterEntityConstructor | src/utils/Database.ts:84-90 | Installs or replaces exactly the factory of the collection. |
| Store.Database.Find | src/utils/Database.ts:92-110 | An unknown collection gives `[]`. An evaluation error is the result. Otherwise the result is the hydration of the accepted records in stored order. |
| Store.Database.Insert | src/utils/Database.ts:112-135 | A new collection gets counter 1 and id 1. Otherwise the id is the counter, which then increases by one; a collection without a counter gets NaN and keeps none. Exactly the record with that id is appended. The snapshot is rewritten. Other collections keep their id invariant. |
| Store.Database.Update | src/utils/Database.ts:137-159 | Matching records get the fields merged in place; the others and the length are unchanged. The result is the merged matches, hydrated. An absent collection gives `[]`. An evaluation error changes nothing. Updates without `id` keep every collection's id invariant. |
| Store.Database.Delete | src/utils/Database.ts:161-180 | Keeps exactly the rejected records, in order, and returns old length minus new. An absent collection gives 0 and becomes `[]` without a counter. An evaluation error changes nothing. The id invariant is kept. |
| Store.SelectPartitions | src/utils/Database.ts:165-169 | Selecting with a filter and with its negation succeed together, and together they hold each record exactly as often as the collection. |
| Store.SelectIsSubsequence | src/utils/Database.ts:99-99 | A selection keeps the stored order. |
| Store.SelectIsComplete | src/utils/Database.ts:99-99 | A selection contains every record whose test gave the wanted answer. |
| Store.DeleteCountIsMatchCount | src/utils/Database.ts:165-172 | The count `delete` returns is the number of records the filter accepts. |
| Store.UpdatedAreMergedMatches | src/utils/Database.ts:145-153 | The records `update` returns are, in order, the merged records standing where the filter matched. |
| Store.InsertKeepsIdsFresh | src/utils/Database.ts:119-124 | Appending a record with the counter's id keeps the ids distinct and below the incremented counter. |
| Store.SelectKeepsIds | src/utils/Database.ts:166-168 | Filtering a collection keeps its ids distinct and below its counter. |
| Store.MergeKeepsIds | src/utils/Database.ts:146-148 | Merging updates that do not set `id` keeps every id. |
| Routing.Compile | src/framework/Router.ts:33-36 | A path without `:` compiles to its own text as one literal, since `replace` finds nothing to replace. The round trip and the names are `CompileRoundTrip` and `CompileNamesAreMaximal`. |
| Routing.CompileRoundTrip | src/framework/Router.ts:33-36 | Compiling loses nothing: the pattern renders back to the path. |
| Routing.CompileNamesAreMaximal | src/framework/Router.ts:33-36 | Each parameter name is a non-empty run of word characters not followed by another word character, as `:(\w+)` captures it. |
| Routing.CompileRoute | src/framework/Router.ts:31-39 | The recorded names are the pattern's parameters in order, and the pattern renders back to the path. |
| Routing.Match | src/framework/Router.ts:35-37 | A successful match yields captures that fill the pattern to the pathname. There is one capture per parameter, each non-empty and slash-free. |
| Routing.Fill | src/framework/Router.ts:35-37 | Filling a pattern without parameters gives its own text. |
| Routing.Fits | src/framework/Router.ts:35-37 | The reference reading of the anchored regex `^...$`: one non-empty slash-free capture per parameter, filling the pattern to exactly the pathname. A pattern without parameters fits exactly its own text. `MatchIffFits` ties the matcher to it. |
| Routing.TryLengths | src/framework/Router.ts:35-37 | The backtracking of one `([^/]+)` group, longest capture first: a result it gives fits the pattern. |
| Routing.MatchComplete | src/framework/Router.ts:35-37 | Whenever some choice of captures fills the pattern to the pathname, the match succeeds. |
| Routing.MatchIffFits | src/framework/Router.ts:35-37 | The anchored regex matches iff the literal pieces appear verbatim and each parameter stands for a non-empty slash-free part. |
| Routing.FromEntries | src/framework/Router.ts:65-65 | `Object.fromEntries`: the keys are exactly those of the pairs. |
| Routing.FromEntriesLastWins | src/framework/Router.ts:65-65 | A key maps to the value of its last pair. |
| Routing.ExtractParams | src/framework/Router.ts:78-90 | There are as many names as captured groups, and the i-th name gets the i-th group, a later equal name overriding. |
| Routing.SelectRoute | src/framework/Router.ts:59-61 | The first route, in registration order over all the router's routes, whose pattern matches the pathname and whose method is the request's; none when no route does. |
| Routing.Routed | src/framework/Router.ts:64-65 | The handler's request has one capture per recorded name, `params` mapping the i-th name to the i-th capture with the last duplicate winning (what `ExtractParams` computes), and `query` built from the query pairs, the last value for a key winning. Method, pathname and query pairs are kept. |
| Routing.Dispatch | src/framework/Router.ts:50-75 | With no route: `next()` with no error and the request unchanged. With a route: params and query attached, the handler's outcome passed on, and a throw turned into `next(error)` with that error. |
| Routing.DispatchNeverThrows | src/framework/Router.ts:67-71 | Given a URL that parses, a router step never throws: a handler's throw is passed to `next`. |
| Routing.Router.constructor | src/framework/Router.ts:29-29 | A new router has no routes. |
| Routing.Router.AddRoute | src/framework/Router.ts:31-40 | Appends exactly one compiled route. |
| Routing.Router.CreateRouterMiddleware | src/framework/Router.ts:42-50 | Appends exactly one compiled route and returns the router step. |
| Dispatch.Fallback | src/framework/MyExpress.ts:63-75 | A carried error gives 500 `Internal Server Error: <message>`; none gives 404 `Not Found`. |
| Dispatch.RouterDispatch | src/framework/Router.ts:67-71 | Given a URL that parses, the router step over valid routes never throws. |
| Dispatch.Runs | src/framework/MyExpress.ts:86-96 | A step runs iff its kind agrees with the carried error: an error handler only with an error, any other step only without one. Otherwise `next(error)` forwards the error. |
| Dispatch.Execute | src/framework/MyExpress.ts:84-92 | Normal and error-handling steps leave the request as they got it; only the router step attaches params. |
| Dispatch.Passed | src/framework/MyExpress.ts:95-99 | After a step that did not stop, the carried error is the one it threw or the one it passed to `next`. |
| Dispatch.Walk | src/framework/MyExpress.ts:46-61 | Each step is reached at most once, in order from the cursor. The first is reached with the given error and request. A step runs iff its kind agrees with the carried error, and then does what it does. |
| Dispatch.WalkIsChained | src/framework/MyExpress.ts:50-58 | Only the last step reached may stop. Each step is reached with the error and request the previous one handed on: a skipped step forwards the error unchanged, a thrown error replaces it. |
| Dispatch.WalkEnds | src/framework/MyExpress.ts:51-60 | A walk that stops answers with the stopping step's response. Otherwise it reached every remaining step and answers with the fallback for the error carried off the end. |
| Dispatch.ErrorReachesHandlerUnchanged | src/framework/MyExpress.ts:85-96 | A carried error passes over the non-handler steps unchanged, none of them running, and reaches the next error handler with the request unchanged; that handler runs. |
| Dispatch.ErrorStopsAtHandler | src/framework/MyExpress.ts:85-96 | If that error handler stops on the error, its response is the walk's response. |
| Dispatch.HandlersIdleWithoutError | src/framework/MyExpress.ts:90-96 | From a cursor with no error carried, each error handler in a run of them is reached and passed over, and none of them runs. |
| Dispatch.MyExpress.constructor | src/framework/MyExpress.ts:18-19 | A new application has no middleware and a router without routes. |
| Dispatch.MyExpress.Use | src/framework/MyExpress.ts:21-23 | Appends exactly the step. |
| Dispatch.MyExpress.Get | src/framework/MyExpress.ts:25-27 | Registers a `GET` route and appends the router step. |
| Dispatch.MyExpress.Post | src/framework/MyExpress.ts:29-31 | Registers a `POST` route and appends the router step. |
| Dispatch.MyExpress.Put | src/framework/MyExpress.ts:33-35 | Registers a `PUT` route and appends the router step. |
| Dispatch.MyExpress.Delete | src/framework/MyExpress.ts:37-39 | Registers a `DELETE` route and appends the router step. |
| Dispatch.MyExpress.HandleRequest | src/framework/MyExpress.ts:46-61 | The cursor loop's response and step count are those of the walk from step 0 with no error. No step is reached twice. An empty chain answers 404. |
| Json.EscapeChar | src/framework/middlewares/errorHandler.ts:27-27 | One escaped character is never empty and contains no control character. |
| Json.Escape | src/framework/middlewares/errorHandler.ts:27-27 | The text between the quotes contains no control character. |
| Json.UnescapeEscapeChar | src/framework/middlewares/errorHandler.ts:27-27 | Reading an escaped character gives that character back in front of whatever follows. |
| Json.UnescapeEscape | src/framework/middlewares/errorHandler.ts:27-27 | Reading back what `JSON.stringify` wrote gives the original string. |
| Json.MessageObjectRoundTrip | src/framework/middlewares/errorHandler.ts:27-27 | The body `{"message":"..."}` reads back to exactly its message. |
| ErrorResponses.Send | src/framework/middlewares/errorHandler.ts:25-28 | The given status, `Content-Type: application/json`, and a body that reads back to the message. |
| ErrorResponses.HandleError | src/framework/middlewares/errorHandler.ts:7-23 | No error: `next()`. An `HttpError`: a JSON response with its status and message. Any other error: 500 with message `Internal Server Error`. With an error, `next` is not called. |
| ErrorResponses.ErrorHandlerStep | src/framework/middlewares/errorHandler.ts:7-12 | `errorHandler` takes four parameters, so it is an error-handling step. |
| ErrorResponses.PlainErrorsLookAlike | src/framework/middlewares/errorHandler.ts:19-22 | Errors other than `HttpError` get the same answer whatever their message. |
| ErrorResponses.CarriedErrorIsAnswered | src/framework/middlewares/errorHandler.ts:17-22 | An error thrown or passed before the installed error handler, with no other handler between, ends the walk with that handler's answer to the same error. |
| Mutex.LockStep | src/utils/SimpleMutex.ts:21-28 | A free lock is granted at once with the queue unchanged. A held lock appends the waiter at the back. The lock is held afterwards; "a waiting task implies held" is kept. |
| Mutex.UnlockStep | src/utils/SimpleMutex.ts:33-45 | With waiters, the oldest is resumed, removed from the front, and the lock stays held. With none, the lock becomes free. The invariant is kept. |
| Mutex.RunOps | src/utils/SimpleMutex.ts:21-45 | Any sequence of `lock`/`unlock` calls keeps "a waiting task implies held". |
| Mutex.FirstInFirstOut | src/utils/SimpleMutex.ts:21-45 | The waiters resumed, followed by those still waiting, are exactly those waiting at the start followed by those that queued, in order. |
| Mutex.AtMostOneHolder | src/utils/SimpleMutex.ts:21-45 | When only a holder unlocks, acquisitions minus releases is the change in "held", so at most one task holds the lock. |
| Mutex.SimpleMutex.constructor | src/utils/SimpleMutex.ts:10-16 | A new mutex is free and its queue is empty. |
| Mutex.SimpleMutex.Lock | src/utils/SimpleMutex.ts:21-28 | Does exactly `LockStep` on the fields. |
| Mutex.SimpleMutex.Unlock | src/utils/SimpleMutex.ts:33-45 | Does exactly `UnlockStep` on the fields and returns the waiter resumed. |
| Mutex.SimpleMutex.RunExclusive | src/utils/SimpleMutex.ts:50-59 | On a free lock, the callback's result or error is returned unchanged, and the lock is released either way. With nobody waiting, the lock ends free. On a held lock, the caller waits and nothing runs yet. |
| Retry.Allowed | src/utils/mailing/RetryDecorator.ts:31-38 | The number of calls `attempts` allows: `attempts` when it is at least 1, otherwise 1. |
| Retry.Warnings | src/utils/mailing/RetryDecorator.ts:26-30 | One warning per failed call. Its entries, numbered and with their messages, are stated by `WarningsAreNumbered`. |
| Retry.Attempt | src/utils/mailing/RetryDecorator.ts:22-40 | Between 1 and the allowed number of calls, all with the same `(to, message)`. Every call but the last failed. A failed last call means the attempts ran out. It never rejects. |
| Retry.AttemptLog | src/utils/mailing/RetryDecorator.ts:26-38 | One warning per failed call, numbered from `attempts - attemptCount + 1`. When the last call failed too, the give-up error follows. |
| Retry.SendNotification | src/utils/mailing/RetryDecorator.ts:21-43 | At least one and at most `max(attempts, 1)` calls, all with `(to, message)`. The promise always fulfils. |
| Retry.WarningAt | src/utils/mailing/RetryDecorator.ts:26-30 | Warning k of a run is numbered `first + k` and carries the message of the call it follows. |
| Retry.WarningsAreNumbered | src/utils/mailing/RetryDecorator.ts:26-30 | The i-th log warning is numbered i+1 and carries the message of the failed call i. |
| Retry.StopsAtFirstSuccess | src/utils/mailing/RetryDecorator.ts:22-34 | If the first k calls fail and call k+1 succeeds within the attempts, exactly k+1 calls are made and k warnings logged. |
| Retry.ExhaustsOnFailure | src/utils/mailing/RetryDecorator.ts:31-38 | If every call fails, exactly `max(attempts, 1)` calls are made, and the log ends with the give-up error. It still fulfils. |
| Wallets.Admit | src/modules/wallets/Wallet.ts:18-49 | `id` and `balance` default to 0. A zero user id fails with `User ID is required`, then a negative balance fails with `Balance cannot be negative`. Otherwise the wallet is exactly the given fields. |
| Wallets.Credited | src/modules/wallets/Wallet.ts:51-56 | A non-positive amount fails with `Credit amount must be positive`. Otherwise a non-negative balance grows by the amount. |
| Wallets.Debited | src/modules/wallets/Wallet.ts:58-66 | A non-positive amount fails with `Debit amount must be positive`. An amount above the balance fails with `Insufficient balance`. Otherwise the balance shrinks by the amount. |
| Wallets.BalanceStaysNonNegative | src/modules/wallets/Wallet.ts:44-66 | A non-negative balance stays non-negative under every credit and debit. |
| Wallets.DebitSucceedsIffCovered | src/modules/wallets/Wallet.ts:58-66 | A debit succeeds exactly when `0 < amount <= balance`. |
| Wallets.DebitUndoesCredit | src/modules/wallets/Wallet.ts:51-66 | Debiting what was just credited restores the balance. |
| Wallets.DtoRoundTrip | src/modules/wallets/Wallet.ts:68-78 | Building a wallet from a valid wallet's dto gives back the same id, user id and balance. |
| Wallets.Wallet.ToDto | src/modules/wallets/Wallet.ts:68-74 | The dto holds exactly the three fields. |
| Wallets.Wallet.SetUserId | src/modules/wallets/Wallet.ts:34-39 | A zero id fails with `User ID is required` and changes nothing. Otherwise it is stored. |
| Wallets.Wallet.SetBalance | src/modules/wallets/Wallet.ts:44-49 | A negative balance fails with `Balance cannot be negative` and changes nothing. Otherwise it is stored. |
| Wallets.Wallet.Credit | src/modules/wallets/Wallet.ts:51-56 | The new balance is `Credited(old balance, amount)`. A failure leaves the balance unchanged. A valid wallet stays valid. |
| Wallets.Wallet.Debit | src/modules/wallets/Wallet.ts:58-66 | The new balance is `Debited(old balance, amount)`. A failure leaves the balance unchanged. A valid wallet stays valid. |
| Wallets.Wallet.New | src/modules/wallets/Wallet.ts:18-22 | Running the setters in order succeeds iff `Admit` does, with the same fields or the same error. The wallet is valid. |
| Wallets.Wallet.FromDto | src/modules/wallets/Wallet.ts:76-78 | `new Wallet(dto)`: a valid dto gives a wallet whose dto is the same; an invalid one fails with the message of the first setter that rejects it (`Admit`'s error). |
| Users.IsValidCpfCnpj | src/modules/users/User.ts:120-124 | A value that passes is 14 characters long, a CPF, or 18, a CNPJ. The mask itself is stated by `FormatFitsMask` and `FitsMaskIsFormatted`. |
| Users.FormatFitsMask | src/modules/users/User.ts:120-124 | Any digits of the right count, written into the CPF or CNPJ mask, pass the check. |
| Users.FitsMaskIsFormatted | src/modules/users/User.ts:120-124 | A string that passes the check is its own digits written into the mask, so the check accepts exactly the formatted numbers. |
| Users.MasksHaveNoDigits | src/modules/users/User.ts:120-124 | The literal characters of both masks are not digits. |
| Users.IsValidEmail | src/modules/users/User.ts:126-129 | A value that passes contains `@` and has at least five characters, as in `a@b.c`. Its exact shape is `EmailRegexMeansShape`. |
| Users.IsValidType | src/modules/users/User.ts:131-133 | Only the five-letter `payer` and `payee` pass, so an empty type never does. |
| Users.EmailRegexMeansShape | src/modules/users/User.ts:126-129 | The email regex accepts exactly the strings with no whitespace and exactly one `@`, something before it, and after it a `.` that is neither the first nor the last character. Both directions are stated. |
| Users.HashIsNotBlank | src/modules/users/User.ts:112-118 | A `salt:hash` string is never blank. |
| Users.Admit | src/modules/users/User.ts:25-39 | `id` defaults to 0. The first failing check, in the order fullName, cpfCnpj, email, password, type, gives its own message: empty type `User type is required`, other invalid type `Invalid type; must be 'payer' or 'payee'`. Success iff all pass, storing the hash. |
| Users.DtoRoundTrip | src/modules/users/User.ts:135-148 | Building a user from a valid user's dto keeps id, fullName, cpfCnpj, email and type; the password is hashed again. |
| Users.User.ToDto | src/modules/users/User.ts:135-144 | The dto holds exactly the fields. |
| Users.User.SetFullName | src/modules/users/User.ts:51-56 | An empty name fails with `Full name is required` and changes nothing. Otherwise it is stored. |
| Users.User.SetCpfCnpj | src/modules/users/User.ts:61-66 | A value failing both masks fails with `Invalid CPF/CNPJ format` and changes nothing. Otherwise it is stored. |
| Users.User.SetEmail | src/modules/users/User.ts:71-76 | A value failing the regex fails with `Invalid email format` and changes nothing. Otherwise it is stored. |
| Users.User.SetPassword | src/modules/users/User.ts:81-86 | An empty or all-whitespace password fails with `Password is required` and changes nothing. Otherwise its hash is stored. |
| Users.User.SetKind | src/modules/users/User.ts:91-99 | An empty type fails with `User type is required`, any other invalid one with `Invalid type; must be 'payer' or 'payee'`, and nothing changes. `payer`/`payee` is stored. |
| Users.User.New | src/modules/users/User.ts:25-39 | Running the setters in order succeeds iff `Admit` does, with the same fields or the same error. The user is valid. |
| Users.User.FromDto | src/modules/users/User.ts:146-148 | `new User(dto)`: it succeeds exactly when `Admit` accepts the dto, and otherwise fails with `Admit`'s message, that of the first setter that rejects it. A valid dto gives a user equal to it except for the re-hashed password. |
| Transfers.Admit | src/modules/transfers/Transfer.ts:22-34 | `id` defaults to 0 and `date` to now. The first failing check, in the order payerId, payeeId, amount, date, gives its own message. Success iff all pass, with exactly the given fields. |
| Transfers.DtoRoundTrip | src/modules/transfers/Transfer.ts:83-95 | Building a transfer from a valid transfer's dto gives it back unchanged, whatever the clock says. |
| Transfers.Transfer.ToDto | src/modules/transfers/Transfer.ts:83-91 | The dto holds exactly the fields. |
| Transfers.Transfer.SetPayerId | src/modules/transfers/Transfer.ts:46-51 | A zero id fails with `Payer ID is required` and changes nothing. Otherwise it is stored. |
| Transfers.Transfer.SetPayeeId | src/modules/transfers/Transfer.ts:56-61 | A zero id fails with `Payee ID is required` and changes nothing. Otherwise it is stored. |
| Transfers.Transfer.SetAmount | src/modules/transfers/Transfer.ts:66-71 | A non-positive amount fails with `Amount must be greater than zero` and changes nothing. Otherwise it is stored. |
| Transfers.Transfer.SetDate | src/modules/transfers/Transfer.ts:76-81 | A value that is not a `Date` fails with `Invalid date format` and changes nothing. Otherwise it is stored. |
| Transfers.Transfer.New | src/modules/transfers/Transfer.ts:22-34 | Running the setters in order succeeds iff `Admit` does, with the same fields or the same error. The transfer is valid. |
| Transfers.Transfer.FromDto | src/modules/transfers/Transfer.ts:93-95 | `new Transfer(dto)`: a valid dto gives a transfer whose dto is the same; an invalid one fails with the message of the first setter that rejects it (`Admit`'s error). |
| Notifications.Admit | src/modules/notifications/Notification.ts:20-30 | `id` defaults to 0 and `date` to now. The first failing check, in the order userId, message (blank after trim), date, gives its own message. Success iff all pass, with exactly the given fields. |
| Notifications.DtoRoundTrip | src/modules/notifications/Notification.ts:69-80 | Building a notification from a valid notification's dto gives it back unchanged, whatever the clock says. |
| Notifications.Notification.ToDto | src/modules/notifications/Notification.ts:69-76 | The dto holds exactly the fields. |
| Notifications.Notification.SetUserId | src/modules/notifications/Notification.ts:42-47 | A zero id fails with `User ID is required` and changes nothing. Otherwise it is stored. |
| Notifications.Notification.SetMessage | src/modules/notifications/Notification.ts:52-57 | An empty or all-whitespace message fails with `Message is required` and changes nothing. Otherwise it is stored. |
| Notifications.Notification.SetDate | src/modules/notifications/Notification.ts:62-67 | A value that is not a `Date` fails with `Invalid date format` and changes nothing. Otherwise it is stored. |
| Notifications.Notification.New | src/modules/notifications/Notification.ts:20-30 | Running the setters in order succeeds iff `Admit` does, with the same fields or the same error. The notification is valid. |
| Notifications.Notification.FromDto | src/modules/notifications/Notification.ts:78-80 | `new Notification(dto)`: a valid dto gives a notification whose dto is the same; an invalid one fails with the message of the first setter that rejects it (`Admit`'s error). |

## Left out

**Store (`Database.ts`)**
- File I/O and the JSON text of the snapshot file (`fs.access`, `readFile`, `writeFile`, `JSON.parse`/`JSON.stringify`). The file is the ghost field `file`, whether a write succeeds is a parameter, and a load failure reads as an unreadable file.
  - A file that parses but lacks `data` is not modelled.
  - The snapshot's lossless round trip is not modelled. In particular, a `Date` read back is a string, so an entity hydrated from a reloaded snapshot would no longer hold a `Date`.
- The `Database.default` singleton, `ensureInitialized` and the memoised initialisation promise. The constructor runs the initialisation at once.
- Logging, in every module.
- Concurrency: every `await` interleaving, and the mutex's role inside the store. Each store operation is atomic, and `Mutex` is modelled on its own as a state machine.
- `Store.Database.Insert`: the item's `id` assignment is modelled as the returned id and the stored record. The entity object itself is not modelled. `undefined++` is stored as `VNaN`, and the counter stays absent rather than becoming NaN.

**Filters (`parseFilter.ts`)**
- JavaScript's cross-type coercion in `<`, `>`, `<=` and `>=`, and IEEE-754 numbers. Values are integers, NaN, strings, booleans and lists.
  - Integers and booleans compare numerically, and strings compare to strings by UTF-16 code unit (`Filters.StrLess`).
  - Every other mix is treated as incomparable (`false`).
- The `{field: null}` filter, which throws a TypeError in the source; only non-null literals are modelled.
- `Object.keys` order is taken as given by the order of the entries.
- The model's filters are a larger domain than JavaScript objects. A key may repeat in `Keys` or in `Operators`, and a `Field` may be named `$or`, `$and` or `$not`, which no object literal gives to the source's `switch`. Every property is proved for all filters, those included.

**Router and dispatcher (`Router.ts`, `MyExpress.ts`)**
- URL parsing (`new URL`, `searchParams`, percent-decoding). The request carries its pathname and its ordered query pairs.
- `Routing.DispatchNeverThrows`: holds only for URLs that parse. `new URL` in `Router.ts:56` is outside the `try`, so a request target or `Host` header that does not parse makes the router step throw, which `MyExpress.ts:97-99` turns into the carried error and a 500. The model has no unparsed URL.
- `Dispatch.RouterDispatch`: the same gap. Its "never throws" holds only for URLs that parse, and the throw from `new URL` is not modelled.
- The regex engine. Patterns are pieces matched by a backtracking matcher, with the same greedy choice of captures as `([^/]+)`. Paths whose literal parts contain regex metacharacters are outside the model, since the source does not escape them.
- Arity reflection (`Function.length`). Each step carries an explicit normal, error-handling or router tag.
- Re-entrant `next`: a step that calls `next` more than once, or that throws after calling `next`. Each step is modelled as ending in exactly one of "call `next` (with or without an error)", "throw" or "stop".
- Falsy thrown values are not modelled: a thrown value is always an `HttpError` or another `Error`.
- Mutations of the request by steps other than the router step.
- The response object's streaming API, and `listen`/`createServer`. A response is a status, an optional Content-Type and a body.
- The `HttpError` and `BadRequestError` classes are not part of this model beyond their status and message.

**Error handler (`errorHandler.ts`)**
- `JSON.stringify` of a string that contains lone surrogate halves.
- `ErrorResponses.HandleError`: the no-error branch is stated, but the walk never reaches it, because error handlers run only with an error.

**Mutex (`SimpleMutex.ts`)**
- The promises and their resumption. A waiter is an id, and `unlock` reports which waiter it resumes.
- `Mutex.SimpleMutex.RunExclusive`: for a caller that has to wait, the later run of its callback is not modelled. That run is a separate resumption event.

**Retry decorator (`RetryDecorator.ts`)**
- The delay timer between attempts.
- The wrapped email service. It is a parameter: a sequence of call outcomes that covers the allowed attempts.
- `attempts` that is not an integer is not modelled.

**Entities**
- IEEE-754 numbers: ids, amounts and balances are integers, a "falsy" id is 0, and NaN amounts are not modelled.
- The clock is the parameter `now`, and `Date` internals are opaque.
- Password hashing (PBKDF2 with a random salt) and `isValidPassword`. The hash is a parameter required to have the `salt:hash` shape. Because `fromDto` hashes the stored hash again, a reloaded user's password is not the stored one (`Users.DtoRoundTrip`).
- CPF/CNPJ check digits are not validated, as in the source, which checks the mask only.
- The services, repositories, controllers, modules, `app.ts`, the JSON body middleware, `EmailService.ts`, `AuthorizationService.ts` and `Logger.ts` are not part of this model.
