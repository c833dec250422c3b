# shortURL: the short-link service, modelled in Dafny

This project models the core of a URL shortener written in Go. Clients submit a long link.
The service validates it with an anchored regular expression. It then draws random 10-symbol
codes until it finds one the storage does not know, and stores the record (code, long link,
Unix second). A 3-second timer bounds that search. A code is read back after a guard on its
length in bytes. Two storage backends exist:

- an in-memory map;
- a PostgreSQL adapter that runs every call in its own transaction, with a deferred rollback.

Service errors become gRPC statuses and HTTP statuses.

Modules, one per core file, plus shared types:

- `Domain` (`domain.dfy`): the record types `URLData` and `URLLong`, the error kinds, and Go's
  `len` on strings (`Utf8Len`, the UTF-8 byte count).
- `Validator` (`validator.dfy`): the pattern `^(https?://)?[a-zA-Z0-9\-\.]+\.[a-zA-Z]{2,}(:[0-9]+)?(/.*)?$`
  under RE2 rules, in two forms:
  - `MatchesPattern`, an existential over split points;
  - `CheckLink`, a deterministic recognizer.

  The two are proved equivalent.
- `Generator` (`generator.dfy`): the alphabet constants and the code-building loop.
- `InMemory` (`inmemory.dfy`): the map backend, a class over a `map`.
- `StoragePort` (`storage_port.dfy`): the storage interface the service calls. It stands for
  either backend or a test double: a map of entries, a lookup fault per code and one outcome for
  every add. Every call on it is logged. A fault given for a code holds for every lookup of that
  code, so faults that come and go are not covered.
- `Postgres` (`postgres.dfy`): the transactional backend. The database is a scripted object
  whose step outcomes are inputs and whose steps are recorded in a trace.
- `Service` (`service.dfy`): `CreateUrl` and `GetUrl` of the coordination service.
- `Delivery` (`delivery.dfy`): the gRPC and HTTP error mappings, and the HTTP handlers.

How the model represents the environment:

- **Timer and generator.** They are one oracle, `gen: seq<Candidate>`. It holds the codes and
  timestamps the loop would draw before the timer fires. The timer is seen as expired at the
  loop's `|gen|`-th check and never earlier.
- **Clock and random source.** They are parameters of the generator: `now`, and `rng(seed, k)`,
  the k-th draw of a source seeded with `seed`.
- **Class methods.** Each is proved against a specification function of the old state. For
  example, `CreateReply`, `CreateCalls` and `CreateEntries` give the reply, the storage calls
  and the final entries of `CreateUrl`. The lemmas state the properties of those functions.
- **The loop of `CreateUrl`.** It is the method `DrawCode`, which `CreateUrl` calls between
  validating the link and calling `AddUrl`. The loop's statements are unchanged.

## Model

| member | source | states |
|---|---|---|
| Domain.Error.Text | internal/app/domain/errors.go:5-10 | a foreign error's text is its own message, and no sentinel's text is empty |
| Domain.SentinelTextsDistinct | internal/app/domain/errors.go:5-10 | two different sentinels have different texts |
| Domain.NewURLData | internal/app/domain/url_data.go:9-17 | the record carries the given code, long link and timestamp |
| Domain.Utf8Len | internal/app/service/url_service.go:63 | Go's `len`: the byte count is at least the number of characters, and equals it for ASCII text |
| Validator.HostSpan | internal/app/service/check_link_service.go:5 | the greedy run of `[a-zA-Z0-9\-\.]` at the start of the text: all host characters, and the next character (if any) is not one |
| Validator.DigitSpan | internal/app/service/check_link_service.go:5 | the greedy run of `[0-9]` after `:`: all digits, maximal |
| Validator.LastDot | internal/app/service/check_link_service.go:5 | the index of the last `.` of the host run (the `\.` before the top-level label), `-1` exactly when there is none |
| Validator.SchemeLen | internal/app/service/check_link_service.go:5 | the length consumed by `(https?://)?` is one the group allows |
| Validator.CheckLink | internal/app/service/check_link_service.go:7-15 | the recognizer: it strips the longest scheme and accepts when the rest is a host run split at its last dot into host and letter label, an optional port and a path; it has no contract of its own, and `CheckLinkIsPattern` states what it decides |
| Validator.CheckLinkIsPattern | internal/app/service/check_link_service.go:5-15 | `CheckLink(link)` holds exactly when the anchored pattern matches `link` (both directions); the error branch of `MatchString` is unreachable for this constant pattern |
| Validator.RestOkComplete | internal/app/service/check_link_service.go:5 | every split of the text after the scheme into host, `.`, label, port and path is accepted by the recognizer |
| Validator.RestOkSound | internal/app/service/check_link_service.go:5 | whatever the recognizer accepts has such a split |
| Validator.SchemeUnique | internal/app/service/check_link_service.go:5 | a match can only start its host where the longest scheme ends, which is why the greedy scheme is exact |
| Validator.MatchFromParts | internal/app/service/check_link_service.go:5 | any scheme, host, label, port and path that fit their groups assemble into a matching link |
| Validator.AcceptedHasDot | internal/app/service/check_link_service.go:5 | every accepted link contains a `.` |
| Validator.AcceptedHasNoNewline | internal/app/service/check_link_service.go:5 | no accepted link contains `\n`, not even in the path, since RE2's `.` excludes it |
| Validator.RestNoNewline | internal/app/service/check_link_service.go:5 | the text the recognizer accepts after the scheme has no newline |
| Validator.AcceptsBareHost | internal/app/service/check_link_service_test.go:17-21 | `example.com` is accepted |
| Validator.AcceptsHttpScheme | internal/app/service/check_link_service_test.go:22-26 | `http://example.com` is accepted |
| Validator.AcceptsPath | internal/app/service/check_link_service_test.go:27-31 | `http://example.com/123123/c/123` is accepted |
| Validator.AcceptsQueryInPath | internal/app/service/check_link_service_test.go:32-36 | a query after a `/` is accepted |
| Validator.AcceptsPlusInQuery | internal/app/service/check_link_service_test.go:37-41 | a query containing `+` after a `/` is accepted |
| Validator.AcceptsYoutubePath | internal/app/service/check_link_service.go:5 | any path (a `/` then anything but a newline) after `https://www.youtube.com` is accepted |
| Validator.RejectsEmpty | internal/app/service/check_link_service_test.go:57-61 | `""` is rejected |
| Validator.RejectsMissingHost | internal/app/service/check_link_service_test.go:42-46 | `http://` is rejected |
| Validator.RejectsUnsupportedScheme | internal/app/service/check_link_service_test.go:47-51 | `ftp://example.com` is rejected |
| Validator.RejectsAfterLabel | internal/app/service/check_link_service.go:5 | for any scheme group, host run and letter label, a following character that is neither a host character, `:` nor `/` makes the link invalid |
| Validator.SchemeLenBeforeHost | internal/app/service/check_link_service.go:5 | when a run of at least four host characters ends at a character that is neither a host character nor `:`, the recognizer strips exactly the scheme written before the run |
| Validator.RejectsAfterExample | internal/app/service/check_link_service_test.go:52-66 | `http://example.com` followed by a tail whose first character is neither a host character, `:` nor `/` is rejected |
| Validator.RejectsQueryWithoutPath | internal/app/service/check_link_service_test.go:52-56 | `http://example.com?param=` is rejected: `?` may appear only inside the `/...` suffix |
| Validator.RejectsWhitespace | internal/app/service/check_link_service_test.go:62-66 | an embedded space is rejected |
| Validator.RejectsNewlineInPath | internal/app/service/check_link_service_test.go:67-71 | a `\n` inside the path is rejected |
| Validator.RejectsNoDot | internal/app/service/url_service_test.go:150-171 | `httpgooglecom` is rejected, because it has no dot |
| Generator.GenerateShortLink | internal/app/service/generate_service.go:28-44 | the timestamp returned is the clock reading that seeds the source; the code is `Length` = 10 alphabet symbols, the k-th being `chars[Intn(63)]` of the k-th draw |
| Generator.GenerateTwice | internal/app/service/generate_service.go:33-41 | two calls in the same Unix second return the same code |
| Generator.CharsAt | internal/app/service/generate_service.go:10-16 | the concatenated alphabet has 63 symbols, laid out lowercase, uppercase, digits, `_` |
| Generator.AlphabetIsCodeChars | internal/app/service/generate_service.go:10-16 | the 63 symbols are pairwise distinct, and a character is in the alphabet exactly when it is a letter, a digit or `_` |
| Generator.CodeOfShape | internal/app/service/generate_service.go:39-41 | every code has 10 symbols, all from the alphabet, so it is 10 bytes long |
| InMemory.UrlStorage.constructor | internal/app/repository/inmemory/url_storage.go:15-20 | a new storage is empty |
| InMemory.UrlStorage.AddUrl | internal/app/repository/inmemory/url_storage.go:22-28 | always returns nil, and writes the entry for the code, overwriting any previous one |
| InMemory.UrlStorage.GetUrl | internal/app/repository/inmemory/url_storage.go:30-40 | returns the stored value, or the zero value with `ErrorLinkNotFound`; the map is not modified |
| InMemory.AddThenFind | internal/app/repository/inmemory/url_storage.go:26-39 | after adding a record, its code reads back as the record's `URLLong` |
| InMemory.AddKeepsOthers | internal/app/repository/inmemory/url_storage.go:26 | adding a record leaves the lookup of every other code unchanged |
| InMemory.LastWriteWins | internal/app/repository/inmemory/url_storage.go:26 | of two adds to the same code, the second wins |
| InMemory.AddThenGet | internal/app/repository/inmemory/url_storage_test.go:40-73 | new storage, then add, then get: the added code is found and an absent one is not |
| StoragePort.Reply | internal/app/domain/url_storage_iface.go:5-8 | a code with a reported fault answers that fault; otherwise a stored code answers its value with no error and any other code is not found; every failure carries the zero `URLLong` |
| StoragePort.Store.constructor | internal/app/domain/url_storage_iface.go:5-8 | a storage starts with the given entries and faults, and an empty call log |
| StoragePort.Store.GetUrl | internal/app/domain/url_storage_iface.go:7 | answers a lookup as `Reply` does, logs it, and leaves the entries unchanged |
| StoragePort.Store.AddUrl | internal/app/domain/url_storage_iface.go:6 | returns the storage's add outcome, logs the call, and writes the entry only when the add succeeds |
| StoragePort.FaultFreeIsInMemory | internal/app/repository/inmemory/url_storage.go:30-40 | a storage that reports no faults answers lookups exactly like the in-memory backend |
| Postgres.Pool.constructor | internal/app/domain/conn_pool_iface.go:9-11 | a database starts with the given step outcomes and an empty trace |
| Postgres.Pool.Begin | internal/app/domain/conn_pool_iface.go:10 | `Begin` returns its scripted outcome and is recorded |
| Postgres.Pool.Exec | internal/app/repository/postgresql/url_storage.go:27 | the INSERT returns its scripted outcome and is recorded with the record it carries |
| Postgres.Pool.QueryRowScan | internal/app/repository/postgresql/url_storage.go:48 | the SELECT and Scan return the scripted row or error and are recorded with the code |
| Postgres.Pool.Commit | internal/app/repository/postgresql/url_storage.go:32-56 | `Commit` returns its scripted outcome and is recorded |
| Postgres.Pool.Rollback | internal/app/repository/postgresql/url_storage.go:25-45 | `Rollback` returns its scripted outcome and is recorded |
| Postgres.UrlStorage.constructor | internal/app/repository/postgresql/url_storage.go:14-18 | the storage keeps the pool it is given |
| Postgres.UrlStorage.AddUrl | internal/app/repository/postgresql/url_storage.go:20-38 | returns the error of the first failing step (Begin, then INSERT, then Commit). Its trace is Begin alone after a failed Begin; otherwise Begin, INSERT, Commit (only if the INSERT succeeded), then Rollback |
| Postgres.UrlStorage.GetUrl | internal/app/repository/postgresql/url_storage.go:40-62 | returns the scanned row after a successful Commit; a failure returns the zero `URLLong`, and a missing row becomes `ErrorLinkNotFound`. Its trace is Begin alone after a failed Begin; otherwise Begin, the query, Commit (only if a row was scanned), then Rollback |
| Postgres.Count | internal/app/repository/postgresql/url_storage.go:25-45 | how often a step appears in a trace; zero exactly when it does not appear |
| Postgres.CountAppend | internal/app/repository/postgresql/url_storage.go:25-45 | counts add up over concatenated traces |
| Postgres.TracesBracketed | internal/app/repository/postgresql/url_storage.go:20-62 | every trace of both calls follows the protocol: one Begin, first; after a successful Begin, exactly one Rollback, last, and at most one Commit, just before it |
| Postgres.BeginFailure | internal/app/repository/postgresql/url_storage.go:21-44 | a failed Begin is returned as it is (with the zero `URLLong` from `GetUrl`) and no statement, Commit or Rollback follows |
| Postgres.RollbackAlways | internal/app/repository/postgresql/url_storage.go:25-45 | after a successful Begin, Rollback runs exactly once, as the last step, on every path; its outcome changes neither result |
| Postgres.CommitOnlyAfterStatement | internal/app/repository/postgresql/url_storage.go:27-59 | Commit is attempted exactly when Begin and the statement (the INSERT, or the scan of a row) succeeded |
| Postgres.ExecFailure | internal/app/repository/postgresql/url_storage.go:27-30 | an INSERT failure is returned, and Commit is skipped |
| Postgres.CommitFailure | internal/app/repository/postgresql/url_storage.go:32-59 | a Commit failure is returned; `GetUrl` then returns the zero `URLLong` though a row was scanned |
| Postgres.ScanFailure | internal/app/repository/postgresql/url_storage.go:48-54 | `ErrNoRows` becomes `ErrorLinkNotFound`; any other scan error is returned unchanged; the value is the zero `URLLong` and Commit is skipped |
| Postgres.FullSuccess | internal/app/repository/postgresql/url_storage.go:37-61 | full success: `AddUrl` returns nil and `GetUrl` returns the scanned row |
| Postgres.SuccessIff | internal/app/repository/postgresql/url_storage.go:20-62 | `AddUrl` succeeds exactly when Begin, INSERT and Commit all succeed; `GetUrl` succeeds exactly when a row was scanned and committed |
| Service.Scan | internal/app/service/url_service.go:35-52 | the loop ends at the first iteration that does not retry. That iteration claims a non-empty free code or aborts with its lookup error. The loop times out exactly when every iteration before the timer retries |
| Service.UrlService.constructor | internal/app/service/url_service.go:17-22 | the service keeps the storage it is given |
| Service.UrlService.CreateUrl | internal/app/service/url_service.go:24-59 | the reply, the storage calls made and the final entries are those of `CreateReply`, `CreateCalls` and `CreateEntries` for the storage's old state |
| Service.UrlService.DrawCode | internal/app/service/url_service.go:30-52 | the loop of `CreateUrl`, ended as `Scan` says. A timeout returns `ErrorGenerateTimeout` after every lookup. A lookup error is returned after the lookups up to it. A claimed candidate is returned as `NewURLData(short, long, now)` of its own generation. The entries do not change |
| Service.UrlService.GetUrl | internal/app/service/url_service.go:61-73 | the reply is `GetReply` of the storage's state; a code over 10 bytes makes no storage call; the entries do not change |
| Service.ScanSkips | internal/app/service/url_service.go:35-52 | iterations that retry do not change where the loop ends |
| Service.CollisionRetries | internal/app/service/url_service.go:42-51 | a lookup that finds the code (nil error) never ends the loop |
| Service.CreateEnds | internal/app/service/url_service.go:35-58 | for a valid link, the reply, calls and entries in each of the three ways the loop can end |
| Service.CreateTimedOut | internal/app/service/url_service.go:37-38 | a timed-out call returns `("", ErrorGenerateTimeout)`, makes only lookups, and stores nothing |
| Service.CreateFailed | internal/app/service/url_service.go:44-45 | a call ended by a lookup error returns it with `""`, makes only lookups, and stores nothing |
| Service.CreateFound | internal/app/service/url_service.go:43-58 | a call that claims a candidate adds `NewURLData(short, long, now)` of that generation once, and returns the code or the add error |
| Service.InvalidLinkRejected | internal/app/service/url_service.go:26-28 | an invalid link yields `("", ErrorInvalidLink)` with no generation and no storage call |
| Service.FirstFreeCandidateStored | internal/app/service/url_service.go:40-58 | take the first non-empty candidate whose lookup reports not-found, after only collisions and empty codes reported not found. It is added with its own timestamp, after exactly the lookups up to it, and returned with nil error |
| Service.CreatedCodeIsFresh | internal/app/service/url_service.go:42-58 | a successful call returns a non-empty generated code that the storage reported as not found. If the storage held no fault for that code, it was not stored before. Its record was added exactly once, last, and is now stored |
| Service.TimeoutIffAllRetried | internal/app/service/url_service.go:35-52 | the loop times out exactly when every candidate collided, or was empty and reported not found; a timeout yields `("", ErrorGenerateTimeout)`, makes no `AddUrl` call, and stores nothing |
| Service.LookupErrorReturned | internal/app/service/url_service.go:44-45 | a lookup error other than not-found is returned verbatim with `""`, and `AddUrl` is never called |
| Service.AddFailureNotRetried | internal/app/service/url_service.go:54-56 | an `AddUrl` failure is returned verbatim with `""` after its single attempt (the last call), and nothing is stored |
| Service.AddOnlyForClaimedCode | internal/app/service/url_service.go:30-51 | `AddUrl` is called exactly when a candidate was claimed; no call adds an empty code, and no empty code is ever stored |
| Service.GetGuardsThenPassesThrough | internal/app/service/url_service.go:61-73 | a code over 10 bytes yields `("", ErrorInvalidShort)`; otherwise the reply is the stored long link with nil error, or `""` with the storage's error unchanged |
| Service.Utf8LenUniform | internal/app/service/url_service.go:63 | the byte length of characters of one UTF-8 width is that width times their number |
| Service.CyrillicCodeRejected | internal/app/service/url_service.go:63-65 | a 6-character Cyrillic code is 12 bytes and is rejected, although it has fewer than 10 characters |
| Service.CreateThenGet | internal/app/service/url_service.go:54-72 | a created code within the byte limit, with no storage fault for it, reads back as the long link it was created for |
| Service.GeneratedCodeReadsBack | internal/app/service/generate_service.go:39-43 | with the real generator, every created code passes the byte guard, so it reads back as its long link unless the storage reports a lookup fault for that code |
| Delivery.GRPCError | internal/app/delivery/grpc/helpers/error_conventer.go:9-22 | the gRPC code is `Canceled` exactly for a timeout, `NotFound` exactly for not-found, `InvalidArgument` exactly for an invalid short or long link, and `Internal` otherwise; the message is always `"Error: "` followed by the error's text |
| Delivery.HTTPError | internal/app/delivery/http/helpers/error_converter.go:10-28 | the status is 404 exactly for not-found, 400 exactly for a decode failure or an invalid short or long link, and 500 exactly for a timeout or any foreign error; the body carries the error's text |
| Delivery.TransportsAgree | internal/app/delivery/http/helpers/error_converter.go:14-26 | the two mappings agree: not-found on both; a gRPC invalid argument is an HTTP 400, and the only other 400 is the HTTP-only decode failure; all else is an HTTP 500 |
| Delivery.ForeignErrorsAreServerFailures | internal/app/delivery/grpc/helpers/error_conventer.go:19-20 | a foreign error such as a database shutdown is a 500 and an `Internal` status carrying its own text |
| Delivery.UrlHandler.constructor | internal/app/delivery/http/handler/url_handler.go:15-19 | the handler keeps the service it is given |
| Delivery.UrlHandler.CreateUrl | internal/app/delivery/http/handler/url_handler.go:21-35 | a body that fails to decode answers 400 with `ErrorInvalidDecode` and makes no service call; otherwise the call log and entries are those of the service's `CreateUrl`, a service error goes through `HTTPError`, and success answers 200 with the code |
| Delivery.UrlHandler.GetUrl | internal/app/delivery/http/handler/url_handler.go:37-47 | a service error goes through `HTTPError`; success answers 302 with the long link; the entries are unchanged, and the log gains one lookup unless the code is over 10 bytes |

## Left out

- Concurrency is left out and the model is sequential. This covers the generator's `sync.Mutex`, the in-memory `sync.RWMutex`, and the check-then-insert race between concurrent creators.
- Real time and `math/rand` are not modelled. The 3-second timer and the generator together become the `gen` oracle. The clock reading and the seeded source become the parameters `now` and `rng`.
- The PRNG arithmetic is not modelled: `rng` is any function of the seed and the draw index into `[0, 63)`.
- `context.Context` arguments are dropped; nothing in the core reads them.
- `timer.Stop()` is dropped: it only releases the timer.
- SQL text, relational semantics and transaction isolation are not modelled. Each step's outcome is an input. The INSERT step records the `URLData` it carries, and the query step records the code it looks up.
- The pool and its transaction are one object, `Postgres.Pool`, with one trace. One script gives the outcomes of all calls made on a pool.
- Go's `defer tx.Rollback(ctx)` is written as an explicit Rollback before each return that follows a successful Begin. Go evaluates the returned values before deferred calls run, so the results are the same.
- `Postgres.UrlStorage.GetUrl`: a scan that fails after writing some fields is not modelled separately. The source returns a fresh zero `URLLong` on every scan failure, so the scanned fields never escape.
- StoragePort.Store: a lookup's fault is fixed per code for the whole call (`failing`), so a code that is looked up twice in one `CreateUrl` gets the same answer both times. A transient fault on a later lookup of a code that earlier answered not-found or found (a failed `Begin`, say) is not modelled, and neither is a fault that goes away. `LookupErrorReturned` covers only faults that hold for every lookup of the code.
- The pgx connection pool wrapper (`conn_pool.go`) is not part of this model: it only forwards `Begin`.
- `NewUrlService` only stores its arguments; it is `Service.UrlService.constructor`. `NewGenerateLinkService` takes no arguments and only allocates the generator's mutex; it has no counterpart, because the generator is a parameter and concurrency is left out.
- A Dafny `string` cannot hold invalid UTF-8, so `Utf8Len` measures only well-formed text. Go strings may hold any bytes.
- The text of `ErrorInvalidShort`: its declaration is not part of this model. The text used, "invalid short link", is a placeholder. The gRPC message and the HTTP error body of an `InvalidShort` reply carry it.
- The regular-expression error branch of `CheckLink` is modelled as dead: the pattern is a valid constant, so `MatchString` never fails.
- The gRPC handlers (`url_server.go`), the gin routing and the server start-up in `cmd/shortURL/main.go` are I/O glue. They are not modelled beyond the HTTP handlers' decode-to-400 rule and the error mappings.
- JSON decoding is not modelled: the decoded `URLLong`, or its absence, is the handler's input. The JSON encoding of gin's error object is not modelled either: the body carries the error's text.
