# apiserver_demos core, modelled in Dafny

This project models three parts of a small Go API server.

- **The user-list service** (`ListUser`, file `service.dfy`, module `Service`). It fetches users from a query. It then starts one worker per user, which generates a short id and stores an enriched record in a shared map keyed by user id. A one-slot error channel and a "finished" channel race in a `select`. When the finished case wins, the list is rebuilt in query order from the captured id list.
- **The error-code table** (file `errno.dfy`, module `Errno`). It holds the `Errno` values `OK`, `InternalServerError`, `ErrBind` and `ErrUserNotFound`, and the five-digit scheme their codes follow: 1 digit of service level, 2 of module, 2 of error number.
- **The user-creation handler** (file `create.dfy`, module `UserCreate`). It validates a bound request. The model gives the sequence of `SendResponse` calls it makes.

## How the concurrency is modelled

The goroutines, the `WaitGroup` and the mutex are replaced by explicit inputs:

- `outcomes[i]` is what `GenShortId` returned for user `i`: `ShortId(s)` or `ShortIdError(e)`.
- `schedule` is the order in which the workers run. It is any permutation of the users' positions (`IsSchedule`). Each map insertion is atomic.
- `preferError` is the `select`'s choice, used only when both cases are ready.

The error channel is a class, `ErrChan`. It has a buffer of one slot, plus the values of senders that found the slot full and are waiting. A waiting sender never reaches its deferred `wg.Done`, so the "finished" case is ready exactly when nobody is waiting. As a result:

- with no failure, the list comes back;
- with two or more failures, the first reported error comes back;
- with exactly one failure, either is possible. When the ids are unique, the list then holds nil at the failed user's position. When another user with the same id succeeded, that position shows the other user's record instead.

So a call does not always fail as a whole when a worker fails: with exactly one failure, a list with a missing entry can come back.

The `errno` package that `create.go` imports (demo06) is not part of this model. It is taken to hold the same values as demo05's `code.go`. `errno.New` and `SendResponse` are not part of this model either, so a response is recorded as its `(error, data)` arguments.

## Model

| member | source | states |
|---|---|---|
| `Errno.Decompose` | demo05/pkg/errno/code.go:4-6 | splits a code into level, module and error number; module and number each have two digits, and composing them gives the code back |
| `Errno.ComposeDecompose` | demo05/pkg/errno/code.go:4-6 | a code built from a level and two-digit module and error numbers splits back into exactly those fields |
| `Errno.ComposeInjective` | demo05/pkg/errno/code.go:4-6 | two codes of the scheme are equal exactly when their level, module and number are equal |
| `Errno.TableEntries` | demo05/pkg/errno/code.go:8-13 | OK is 0 with message "OK"; InternalServerError is 10001, ErrBind 10002, ErrUserNotFound 20102 |
| `Errno.CodesDistinct` | demo05/pkg/errno/code.go:8-13 | the four codes are pairwise distinct |
| `Errno.ErrorsFollowScheme` | demo05/pkg/errno/code.go:4-13 | every non-OK code has a level of 1 or 2, a two-digit module and a two-digit number, and is level*10000 + module*100 + number |
| `Errno.ErrorLevels` | demo05/pkg/errno/code.go:4-13 | InternalServerError and ErrBind are system level, module 00; ErrUserNotFound is user level, module 01, number 02 |
| `UserCreate.Create` | demo06/handler/user/create.go:14-52 | one or two responses; the last is a success exactly when binding worked and the username is non-empty; two are sent exactly when the username is non-empty and the password is empty; data is attached exactly to the success |
| `UserCreate.BindFailureAnswersErrBind` | demo06/handler/user/create.go:17-20 | a bind failure sends one response, carrying ErrBind, and nothing else |
| `UserCreate.EmptyUsernameStops` | demo06/handler/user/create.go:37-40 | an empty username sends only the wrapped ErrUserNotFound, also when the password is empty |
| `UserCreate.EmptyPasswordSendsTwice` | demo06/handler/user/create.go:42-51 | a non-empty username with an empty password sends the "password is empty" error and then a success carrying the username |
| `UserCreate.CompleteRequestSucceeds` | demo06/handler/user/create.go:46-51 | a request with both fields filled gets one success whose username is the request's |
| `UserCreate.MetaIsOnlyLogged` | demo06/handler/user/create.go:22-33 | the URL parameter, the query value and the Content-Type header never change the responses |
| `UserCreate.CreateWithReturn` | demo06/handler/user/create.go:42-44 | the corrected handler always sends exactly one response; it is a success carrying the username exactly when both fields are filled |
| `UserCreate.CorrectedKeepsFirstResponse` | demo06/handler/user/create.go:42-44 | the corrected handler's one response is the first response of the handler as written |
| `Service.CaptureOrder` | demo07/service/service.go:25-29 | the captured ids have the users' length, and position i holds user i's id |
| `Service.Step` | demo07/service/service.go:51-68 | a failed worker leaves the table unchanged; a successful one adds exactly the key of its user, holding the user's id, name, password and "Hello " + short id, and changes no other key |
| `Service.UserList.Put` | demo07/service/service.go:58-68 | the table afterwards is the old one with the one entry set |
| `Service.ErrChan.Send` | demo07/service/service.go:41-54 | a send is delivered exactly when the one-slot buffer was empty; otherwise the sender waits; the values sent are kept in order |
| `Service.ErrChan.Receive` | demo07/service/service.go:81-84 | the received error is the buffered one; the first waiting sender, if any, moves into the slot and the others keep waiting in order; otherwise the channel is empty; the channel invariant is kept |
| `Service.Worker` | demo07/service/service.go:48-69 | the table changes as Step says; a failure is sent on the error channel; the worker's Done runs unless it waits on a full channel |
| `Service.RunWorkers` | demo07/service/service.go:44-77 | after every worker has run in the given order, the table is Table of that order, the channel holds the errors in reporting order, and the WaitGroup counter is the number of waiting senders |
| `Service.LastWrite` | demo07/service/service.go:46-70 | finds the last worker in the order that stores under a key: it stores there and no later one does; none is found only when no worker stores there |
| `Service.TableIsLastWrite` | demo07/service/service.go:46-70 | a key is in the table exactly when some successful worker has that id, and then it holds the record of the last one to run; with duplicate ids the last insertion wins |
| `Service.Reassemble` | demo07/service/service.go:88-90 | the rebuilt list has one entry per captured id, in the same order, each the table lookup of that id, nil on a miss |
| `Service.OrderPreserved` | demo07/service/service.go:46-92 | with unique ids, position i of the list holds user i's own enriched record, or nil if its worker failed, for every completion order |
| `Service.OrderIndependent` | demo07/service/service.go:46-90 | with unique ids, any two completion orders give the same list |
| `Service.SharedIdSharesEntry` | demo07/service/service.go:61-90 | users that share an id show the same entry at each of their positions: the record of the last worker with that id to succeed, or nil when none succeeded |
| `Service.FailuresAnyOrder` | demo07/service/service.go:46-56 | in any completion order, exactly one error is reported per failing user |
| `Service.ErrorCountPermutation` | demo07/service/service.go:46-56 | two orderings of the same workers report the same number of errors |
| `Service.NoFailuresAllSucceed` | demo07/service/service.go:51-56 | no user fails exactly when every worker produced a short id |
| `Service.ListUser` | demo07/service/service.go:16-93 | count is passed through on every path; a query error returns (nil, count, err); otherwise an error comes back exactly when two or more users fail, or one fails and the select picks the error; that error is the first one reported; otherwise the list is the table looked up in input order; with unique ids, slot i is user i's record or nil for the failed user; no users give an empty list and no error |

## Left out

- Goroutines, `sync.WaitGroup` and `sync.Mutex`: replaced by a completion order, atomic inserts and a count of pending workers. Interleavings inside one worker do not change any outcome.
- `util.GenShortId`: a foreign call. Its result per user is an input.
- `model.ListUser`, the database query: a foreign call. Its result is an input, `QueryResult`. The username, offset and limit it receives are therefore not modelled.
- `time.Format` of `CreatedAt`/`UpdatedAt`: the timestamps are their formatted text, copied unchanged.
- Workers that keep running after the error case wins: their later inserts cannot be observed, so the model stops at the select.
- The capacity hint of the `IdMap` allocation: it has no effect on behaviour.
- `gin.Context`, `c.Bind` and content-type parsing: binding is an input (`Bind`), and the URL parameter, query and header are an input that is only logged.
- The JSON encoding done by `SendResponse`, and `errno.New`'s wrapping: their bodies are not part of this model. A response is its `(error, data)` arguments.
- All logging calls.
- The request-logging middleware (demo08/router/middleware/logging.go): request and response interception, wall-clock latency, regular expressions and JSON decoding are I/O and library plumbing.
- Server start-up and the health-ping retry loop (demo01/main.go): network I/O and sleeping.
- The `Get` and `Delete` handlers (demo09/handler/user): they only forward to database calls that are not part of this model.

## Findings

| source | as written | input that shows it | evidently intended | confidence | as-written member | corrected member |
|---|---|---|---|---|---|---|
| demo06/handler/user/create.go:42-44 | after sending the "password is empty" error there is no `return`, so the handler goes on to send a success response too | a bound request with username "a" and an empty password: two responses, the error then a success for "a" (`EmptyPasswordSendsTwice`) | reject the request with the password error alone, as the username check does | high, not executed | `UserCreate.Create` | `UserCreate.CreateWithReturn` |
