# crud-app: a verified model of the update builder and the HTTP status decisions

The service exposes create, read, update and delete operations on one entity, a *service*
(a row with an id, a name, a description and a timestamp), over HTTP under `/services`.
Most of the program is plumbing around PostgreSQL and HTTP. This project models, in Dafny,
the two parts of it that carry logic of their own:

* **The partial UPDATE builder** (`Services.Update` in the data-access layer). An
  `UpdateService` has three optional fields. The builder lists one `column=$k` assignment per
  supplied field, in the fixed order `service_name`, `description`, `service_time`, numbering
  the placeholders from `$1`; it collects the values as arguments in the same order, then adds
  `WHERE id = $n` with the next number and binds the id last. It is modelled as an imperative
  method (`Repository.Update`) that grows its `setVals` and `args` sequences and its `argId`
  counter as the source does, proved equal to a declarative reference (`UpdateStatement` over
  `PresentFields`). Executing the statement is a function parameter, an opaque sink whose error
  `Update` returns unchanged.
* **The HTTP layer's decisions**. `getIdFromRequest` parses the path variable with
  `strconv.ParseInt(s, 10, 64)` and refuses 0. `strconv`'s digit loop is modelled as a
  recursive fold with Go's overflow tests (`StrConv.ScanDigits`) and proved against the plain
  value of the digit string. Each handler's chain of early returns becomes a pure function from
  what happened (id parse, body read and decode, the business layer's reply, JSON encoding) to
  a response: its status, its body and the business-layer call it made, if any.

Files: `wrappers.dfy` (Option, Result), `goint.dfy` (`int64` bounds), `decimal.dfy` (digit
strings and `%d`), `strconv.dfy` (`ParseUint`/`ParseInt`), `domain.dfy` (entities, errors,
`errors.Is`), `repository.dfy` (data-access layer), `handler.dfy` (HTTP layer).

## Model

| member | source | states |
|---|---|---|
| Repository.Update | psql/handler/service.go:65-91 | the statement handed to `Exec` is exactly the reference UPDATE for the supplied fields and the id, and the error returned is `Exec`'s |
| Repository.PresentFieldsSpec | psql/handler/service.go:70-84 | a column is assigned iff the input supplies it, once, with the supplied value, and assignments follow the fixed column order |
| Repository.UpdateBindsPlaceholders | psql/handler/service.go:68-88 | the k-th assignment uses `$k` and argument k-1 is that column's supplied value; there are (fields + 1) arguments, the last is the id, and the WHERE placeholder number is the argument count |
| Repository.EmptyUpdateStatement | psql/handler/service.go:85-88 | with no field supplied the statement is `UPDATE service SET  WHERE id = $1` with the id as its only argument |
| Repository.NameOnlyUpdateStatement | psql/handler/service.go:70-88 | a name-only update sets `service_name=$1` alone and binds the id to `$2` |
| Repository.FullUpdateStatement | psql/handler/service.go:70-88 | a full update sets the three columns in order at `$1`..`$3` and binds the id to `$4` |
| Repository.SelectOrdered | psql/handler/service.go:70-84 | the selected fields keep the order of the column list |
| Repository.SelectSound | psql/handler/service.go:70-84 | every selected field is a listed column carrying the value the input gives it |
| Repository.SelectComplete | psql/handler/service.go:70-84 | every listed column the input supplies is selected |
| Repository.NotFoundFromNoRows | psql/handler/service.go:32-35 | an error that is or wraps `sql.ErrNoRows` becomes `ErrServiceNotFound`; any other error and nil pass unchanged; no result is a no-rows error |
| Repository.GetByID | psql/handler/service.go:28-36 | the scanned row is returned; the result is a not-found error iff the scan error is a no-rows or not-found error; nil stays nil |
| Repository.Delete | psql/handler/service.go:56-63 | success iff `Exec` reported no error, whatever the number of rows affected; a no-rows error never escapes |
| Decimal.Format | psql/handler/service.go:71 | `%d` of a number is a non-empty digit string with no leading zero (except for 0 itself) |
| Decimal.FormatRoundTrip | psql/handler/service.go:86 | reading back a `%d`-printed placeholder number gives the number |
| Decimal.FormatInjective | psql/handler/service.go:68-86 | distinct placeholder numbers print as distinct texts |
| StrConv.ScanDigitsOfDigits | server/handler.go:171 | the digit fold returns the digits' value when it fits in a `uint64` and a range error otherwise |
| StrConv.ScanDigitsRejectsNonDigit | server/handler.go:171 | the digit fold fails on any non-digit |
| StrConv.ParseUintMeaning | server/handler.go:171 | `ParseUint` accepts exactly the non-empty digit strings whose value fits in a `uint64`, returning that value |
| StrConv.ParseIntMeaning | server/handler.go:171-176 | `ParseInt` accepts exactly the signed literals whose value is in the `int64` range, returning that value; a literal out of range is a range error |
| Handler.IdFromRequest | server/handler.go:169-181 | an id is accepted iff the text is a literal with a non-zero `int64` value, and is that value; the zero error is given iff the literal's value is 0 |
| Handler.RoutedId | server/handler.go:169-181 | for a `[0-9]+` path variable the id is accepted iff its value is in 1..2^63-1, and is then that value (so positive); value 0 (e.g. `000`) is the zero error; a larger value is a range error |
| Handler.FormattedIdRoundTrip | server/handler.go:169-181 | a positive id printed with `%d` is read back as itself |
| Handler.SignedIdsParse | server/handler.go:169-181 | without the route pattern, `-n` and `+n` would be accepted as -n and n |
| Handler.CreateService | server/handler.go:48-72 | 400 iff the body was not read and decoded, and then no service call; otherwise `Create` is called with the decoded service, 200 iff it succeeds, else 500; never 404 |
| Handler.GetServiceByID | server/handler.go:74-102 | 400 iff the id is refused, and then no call; otherwise `GetByID(id)` is called; 404 iff its error is a not-found error; 200 with the service as JSON iff no error and encoding succeeds |
| Handler.GetAllServices | server/handler.go:104-121 | `GetAll` is always called; 200 with the list iff no error and encoding succeeds, otherwise 500 |
| Handler.DeleteService | server/handler.go:123-137 | 400 iff the id is refused, and then no call; otherwise `Delete(id)` is called, 200 iff it succeeds; never 404 |
| Handler.UpdateService | server/handler.go:139-167 | 400 iff the id is refused or the body was not read and decoded, and then no call; otherwise `Update(id, input)` is called, 200 iff it succeeds; never 404 |
| Handler.RoutedBadRequest | server/handler.go:41-43 | for a routed id, get and delete, and update when its body was read and decoded, answer 400 iff its value is 0 or exceeds 2^63-1 (update also answers 400 for an unreadable or malformed body, whatever the id) |
| Handler.HandlerCodes | server/handler.go:48-167 | the codes each handler writes: create, delete and update 200, 400 or 500; get by id also 404; list only 200 or 500 |
| Handler.MissingRowIsNotFound | server/handler.go:74-91 | a no-rows scan error, bare or wrapped, reaches the client as 404 |
| Handler.DeleteOutcomes | server/handler.go:123-137 | deleting answers 200 whenever `Exec` reports no error, even if no row was deleted, and 500 when it reports no-rows |

## Left out

- `Create`, `GetAll` and the row scanning of `GetByID`: the SQL they send is constant and their results come from PostgreSQL and pgx; the model takes the scan outcome and `Exec`'s result as given.
- Whether pgx's own no-rows error is recognised as `sql.ErrNoRows` depends on the pgx version; the model takes the store's error as given.
- The business layer (service/service.go) is a pass-through; its one act, stamping `time.Now()` on create, needs a clock and is not modelled.
- Process start-up (cmd/main.go), the connection pool (psql/database/psql.go) and request logging (server/middleware.go): I/O and wall-clock time only.
- JSON encoding and decoding, reading the body, and gorilla/mux routing are library code: only their outcomes are modelled (`Decoded`, the `marshals` parameter, and the `[0-9]+` route as `IsDigits`).
- The `log` calls, response headers (`Content-Type`), the trailing newline `http.Error` adds, and the double `WriteHeader` on a parse failure: `getIdFromRequest` writes 400 and its caller writes 400 again.
- The text of a `strconv.NumError` is not modelled: the body of a refused id is the id error itself (`IdErrorText`).
- `ParseInt`'s clamped return value on a range error is not modelled: `getIdFromRequest` discards it.
- StrConv.ParseIntMeaning: for a text that is not a literal it states only that parsing fails, not whether Go reports a syntax or a range error (a digit run that overflows before the first non-digit gives a range error); `getIdFromRequest` treats both alike.
- Request contexts and cancellation, and the concurrency of the HTTP server and the pool.
- `errors.Is` compares errors by value here, where Go compares the sentinel pointers; only the two sentinels are ever used as targets.
- The code builds and executes the UPDATE even when no field is supplied (an empty SET list); the model states this behaviour (`EmptyUpdateStatement`) rather than rejecting such an update.
