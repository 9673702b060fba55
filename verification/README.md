# php-ext-h2o core in Dafny

This project models the two pieces of logic in php-ext-h2o, a PHP extension that runs an h2o HTTP server on libuv.

**The option binding of ext/h2o.c.** `h2o_server_run()` reads an optional PHP array. It reads `port`, `host`, `response_body`, `tls_cert` and `tls_key`, in that order, starting from the defaults `0.0.0.0`, 8080, `"OK\n"` and no TLS. It raises a `TypeError` or `ValueError` on the first bad value, and a `ValueError` when only one of certificate and key is given. The server is run only after every check passes. Every string duplicated with `estrdup` is freed with `efree` on every exit path.

**The server lifecycle of ext/h2o_server.c.** `php_h2o_server_run` sets up the config, the loop, the h2o context and an optional TLS context. It then sets up the SIGINT watcher and the listening socket, binds and listens, and serves until stopped. Every failure after the loop exists goes through `php_h2o_cleanup`, which releases what its flags say is set up and zeroes the flags. The module also covers the accept callback, the close callback and the request handler.

Layout:

- `wrappers.dfy`, module `Wrappers`: `Option` and `Result`.
- `server_options.dfy`, module `ServerConfig`: the option record of ext/h2o_server.h.
- `php_options.dfy`, module `PhpOptions`: the validation as a pure function `ReadOptions` over a map from key to zval type. Beside it are:
  - a declarative reference (`Acceptable`, `Checks`, `FirstError`);
  - the lemmas tying the two together.
- `h2o_ext.dfy`, module `H2oExt`: the binding written step by step.
  - Class `Heap` is the request heap behind `estrdup` and `efree`. Its ghost set `live` holds the blocks allocated and not yet freed.
  - The methods are proved to compute exactly `ReadOptions`.
  - The reading methods free their copies on failure and hand them to the caller on success. `H2oServerRun` ends every path with `live` as it began, and `efree` of a block that is not live is refused. So each copy is freed exactly once.
- `teardown_ledger.dfy`, module `TeardownLedger`: the events a run produces and a ledger that replays them.
  - The ledger counts acquire, release, initialise and close, and flags misuse.
  - `RunEvents(tls, o)` gives the events of a run, for any outcome `o` of the foreign calls.
  - The module also models the client records of the accept callback.
- `h2o_server.dfy`, module `H2oServer`: class `Server`.
  - Its fields are the static flags, the closing state of the two handles and `gruntime`. Two ghost fields hold the event trace and the client records.
  - Each method appends to the trace exactly the events the ledger module gives it. The ledger lemmas are therefore facts about these methods.

Foreign calls into libuv, h2o and OpenSSL are modelled by their outcome. Each outcome is a field of the `Foreign` parameter (`uv_loop_init`, `SSL_CTX_new`, the two `SSL_CTX_use_*` loads, `uv_signal_init`, `uv_tcp_init`, `uv_ip4_addr`, `uv_tcp_bind`, `uv_listen`). Two more fields say whether SIGINT arrives while the loop serves, and which accept callbacks the serving loop runs.

Four facts about the code shape the model:

- `php_h2o_cleanup` disposes the config unconditionally, so cleanup is not idempotent: a second cleanup disposes it again (`CleanupTwiceDisposesConfigTwice`).
- Cleanup releases the context, the config, the TLS context and the loop, in that order. This is not the reverse of the acquisition order (`CleanupOrder`).
- TLS setup has three steps that can fail, and no cipher-list step: create the context, load the certificate chain, load the key.
- `estrdup(ZSTR_VAL(s))` copies a PHP string up to its first NUL. The recorded body length is `strlen` of that copy, which is the string's own length exactly when it holds no NUL (`CString`, `BodyReplacesDefault`).

## Model

| member | source | states |
|---|---|---|
| PhpOptions.CString | ext/h2o.c:31-32 | The C copy of a PHP string is the prefix before its first NUL. It holds no NUL, and it is cut exactly at a NUL when shorter. |
| PhpOptions.NoNulCopiedWhole | ext/h2o.c:31-32 | A string without NUL is copied whole. |
| PhpOptions.DefaultsWhenNothingGiven | ext/h2o.c:51-63 | No array, or an array whose values are all null, is accepted. The record is host "0.0.0.0", port 8080, body "OK\n" of length 3, and no certificate or key. |
| PhpOptions.PortMustBeInt | ext/h2o.c:66-72 | A present non-null port that is not an integer raises the port type error, so the server is never run. |
| PhpOptions.PortRange | ext/h2o.c:73-78 | An integer port raises the range error exactly when it is outside 1..65535. Inside the range, the outcome is that of the array without the port, with the port stored unchanged. |
| PhpOptions.StringOptionOutcomes | ext/h2o.c:16-36 | A missing or null string option succeeds with nothing. A non-string value is exactly the type error naming the key. A string yields its C copy. |
| PhpOptions.ReadOptionsFields | ext/h2o.c:51-114 | An accepted record holds each given value (as its C copy for strings) and the default for each absent or null one. Its body length is the length of its body: 3 for the default, `strlen` of the copy otherwise. |
| PhpOptions.AcceptedBodyLength | ext/h2o.c:51-111 | With or without an options array, every accepted record's body length is the length of its body. |
| PhpOptions.BodyReplacesDefault | ext/h2o.c:108-111 | A supplied body replaces the default. Its recorded length is the length of the copy, which is the body and its own length when it holds no NUL. |
| PhpOptions.TlsPairing | ext/h2o.c:113-123 | An accepted record has both certificate and key or neither. Once the reads pass, exactly one of the two given raises the pairing error. |
| PhpOptions.AcceptsExactly | ext/h2o.c:65-123 | The validation accepts exactly the arrays that pass every check: port, the four string types, pairing. |
| PhpOptions.StringKeysTyped | ext/h2o.c:65-101 | The reads of the array succeed exactly when the port is acceptable and each string option is absent, null or a string. Certificate and key are then read exactly when given. |
| PhpOptions.ErrorIsFirstFailingCheck | ext/h2o.c:65-123 | Validation fails exactly when some check fails. The error raised is the first failing check in the order port, host, response_body, tls_cert, tls_key, pairing. |
| H2oExt.Heap.Estrdup | ext/h2o.c:32 | Returns a fresh block holding the C copy of the string. Exactly that block is added to the live set. |
| H2oExt.Heap.Efree | ext/h2o.c:133-136 | Frees a live block; freeing NULL does nothing. A block that is not live (a double free) cannot be passed. |
| H2oExt.Strlen | ext/h2o.c:110 | Counts the characters before the first NUL: no NUL among them, and a NUL right after when shorter than the string. |
| H2oExt.ReadStrOption | ext/h2o.c:16-36 | The outcome is exactly `StrOption`. A failure allocates nothing and leaves the heap unchanged. A success allocates one fresh block holding the copy when the value is a string, and nothing otherwise. |
| H2oExt.ReadOptionsArray | ext/h2o.c:65-102 | Raises exactly the error of the reference reads, with no copy left live. A success leaves live exactly four distinct fresh copies (NULLs aside) holding what the reference reads give. |
| H2oExt.ReadStringOptions | ext/h2o.c:81-101 | The four string reads: the same result as the reference. A failure at read k frees the copies of the earlier reads, so nothing new stays live. |
| H2oExt.ReadTlsOptions | ext/h2o.c:90-101 | Reads certificate and key after host and body. A failure frees the host and body copies (and the certificate copy); a success leaves the earlier copies untouched. |
| H2oExt.CheckOptions | ext/h2o.c:63-123 | Succeeds exactly when `ReadOptions` accepts, with the record `ReadOptions` gives and the copies owned by the caller. A failure raises `ReadOptions`' error with every copy already freed. |
| H2oExt.FreeCopies | ext/h2o.c:133-136 | Freeing the four copies leaves the live set as it was before they were made. |
| H2oExt.H2oServerRun | ext/h2o.c:38-139 | A rejected array raises exactly `ReadOptions`' error and never touches the server. Otherwise the server runs once with the accepted record, storing a body with its own length, and the call returns false exactly when the run fails. The client records end as `Run` leaves them: once the loop was initialised, none is left allocated. On every path the heap's live set ends as it began. |
| H2oServer.Server.constructor | ext/h2o_server.c:18-34 | The static state at load: every flag zero, no TLS context, an empty trace. |
| H2oServer.Server.Cleanup | ext/h2o_server.c:166-187 | Appends exactly the releases the flags call for, with the config disposed unconditionally. When the loop was initialised, the drain frees every client record. It leaves all four flags zero and no TLS context. |
| H2oServer.Server.SetupSsl | ext/h2o_server.c:126-164 | Returns 0 exactly when the context is created and both loads succeed. A created context is stored (and in the trace) even when a load fails. |
| H2oServer.Server.CloseHandles | ext/h2o_server.c:272-277 | Closes each handle that is initialised and not already closing, and marks it closing. |
| H2oServer.Server.OnSigint | ext/h2o_server.c:110-124 | The guarded closes, then the stop. |
| H2oServer.Server.ServeUntilStopped | ext/h2o_server.c:269-277 | The serving loop runs the accept callback once per attempt, then the SIGINT handler if it runs, then the guarded closes after the loop returns, as `ServeEvents`. The new client records are exactly `AcceptedAll` of the attempts. The listener ends closing, and so does the watcher when it was set up. |
| H2oServer.Server.AcceptConnections | ext/h2o_server.c:84-108 | Running the accept callback for each attempt in order appends exactly the records `AcceptedAll` gives, and changes nothing else. |
| H2oServer.Server.ListenAndServe | ext/h2o_server.c:234-281 | From `uv_signal_init` on: succeeds exactly when tcp init, address, bind and listen succeed. It appends the handle events and then cleanup, leaving every flag zero; connections are accepted only when it serves. |
| H2oServer.Server.BindAndServe | ext/h2o_server.c:246-281 | From a successful `uv_tcp_init` on: succeeds exactly when address, bind and listen succeed, serving only then. It appends the listener's events and then cleanup. After serving, the listener is closing, and so is the watcher when it was set up. |
| H2oServer.Server.Run | ext/h2o_server.c:189-281 | Returns SUCCESS exactly when `RunSucceeds`, appends exactly `RunEvents`, leaves every flag zero and no TLS context, and stores the body and its length for the handler. Connections are accepted only on a successful run. Once the loop was initialised, no client record is left allocated. |
| H2oServer.Server.OnConnection | ext/h2o_server.c:84-108 | A non-zero status or failed `malloc` adds no record. A failed accept adds one record pending its close callback; a successful one adds one record held by the protocol layer. |
| H2oServer.Server.OnClientClose | ext/h2o_server.c:79-82 | Frees one outstanding record: the count of outstanding records drops by exactly one. |
| H2oServer.Server.OnReq | ext/h2o_server.c:58-77 | Status 200, reason "OK", one `content-type: text/plain` header appended, the first `response_body_len` characters of the body sent, and 0 returned. |
| TeardownLedger.CleanupReleasesHeld | ext/h2o_server.c:166-187 | When the flags match what is held, cleanup replays without misuse and releases everything held, each once. |
| TeardownLedger.CleanupDisposesConfigOnce | ext/h2o_server.c:173 | One cleanup disposes the config exactly once, whatever the flags. |
| TeardownLedger.CleanupTwiceDisposesConfigTwice | ext/h2o_server.c:173 | A second cleanup disposes the config a second time, a release of something no longer held. Cleanup is not idempotent. |
| TeardownLedger.CleanupOrder | ext/h2o_server.c:166-184 | Release order: context before config, config before TLS context, TLS context before loop. The loop is drained right before it is closed. |
| TeardownLedger.ClosedAtMostOnce | ext/h2o_server.c:117-122 | Across the SIGINT handler's closes and the post-run closes (lines 272-277), each handle is closed at most once, exactly when initialised and not already closing. The second round does nothing. |
| TeardownLedger.RunLedger | ext/h2o_server.c:189-281 | Every run replays without misuse and ends holding no resource. It has acquired exactly `AcquiredBy` and initialised exactly `InitialisedBy`, and only `Leftover` handles stay open. |
| TeardownLedger.RunReleasesEachOnce | ext/h2o_server.c:189-281 | On every path each resource is acquired at most once, exactly when in `AcquiredBy`, and released exactly as often as acquired. |
| TeardownLedger.RunClosesHandlesOnce | ext/h2o_server.c:234-277 | Each handle is initialised at most once. It is closed once exactly when initialised and the run succeeded; a setup failure after `uv_signal_init` or `uv_tcp_init` reaches cleanup without closing it. |
| TeardownLedger.LoopInitFailure | ext/h2o_server.c:212-217 | A failed loop init returns FAILURE and only acquires and disposes the config. |
| TeardownLedger.ServesOnlyOnSuccess | ext/h2o_server.c:226-270 | The loop serves exactly when the run succeeds. Any TLS, tcp init, address, bind or listen failure cleans up without serving. |
| TeardownLedger.DrainsBeforeLoopClose | ext/h2o_server.c:180-183 | Once the loop was initialised, every run ends with the drain followed by the loop close. |
| TeardownLedger.TlsFailureFreesContext | ext/h2o_server.c:226-231 | A TLS context created before a failed certificate or key load is freed, exactly once, by cleanup. |
| TeardownLedger.CloseCallbacksLeaveProtocolRecords | ext/h2o_server.c:101-102 | Once the pending close callbacks have run, the only records still allocated are those the protocol layer holds. |
| TeardownLedger.DrainFreesEvery | ext/h2o_server.c:180-182 | A completed drain leaves no client record allocated. This follows from libuv's rule, built into `Drained`, that a `UV_RUN_DEFAULT` run returns only once no handle is active. |
| TeardownLedger.FailedAcceptsLeaveNothing | ext/h2o_server.c:89-104 | Any number of accept calls with a non-zero status, no memory or a failed accept leave no record allocated once the close callbacks have run. |
| TeardownLedger.FreeingReleasesOne | ext/h2o_server.c:79-82 | The close callback frees exactly one record. |

## Left out

- libuv, h2o and OpenSSL internals (loop, sockets, `h2o_accept`, handshakes) are opaque steps whose success is a parameter. So are the `OPENSSL_init_ssl` call, `SSL_CTX_set_options` and the NPN/ALPN registration (ext/h2o_server.c:128-161).
- The serving `uv_run` (ext/h2o_server.c:270) is one `Serve` event. Signal delivery is a parameter saying whether the SIGINT handler runs before the loop returns. `signal(SIGPIPE, SIG_IGN)` (line 203) is not modelled.
- The serving `uv_run` keeps the listener active, so in the code it returns only through the `uv_stop` of `php_h2o_on_sigint` (line 123). The model also admits outcomes where the loop returns without the handler having run (`sigintBeforeReturn` false, or `uv_signal_init` failed); in the code these never return. In particular, when `uv_signal_init` failed and the rest of setup succeeds, the code serves forever while `Run` returns SUCCESS. These extra outcomes do not affect the ledger lemmas.
- The draining `uv_run` in cleanup is one `Drain` event. It frees every client record: first the pending close callbacks run, then the connections the protocol layer holds close. The model does not capture that this drain blocks until those peers close. `h2o_context_dispose` runs before the drain and is not modelled beyond its release event.
- Handles left open by a setup failure are stated as `Leftover`. On a failure after `uv_signal_init` succeeded, the drain waits on the active SIGINT watcher. It returns only after SIGINT runs `php_h2o_on_sigint`, which still sees the flags that were set (they are cleared at ext/h2o_server.c:185-186). It closes the watcher, and the listener too when `uv_tcp_init` succeeded (`gserver_initialized` is set only at line 246). The model does not capture this late close. If `uv_signal_init` failed but `uv_tcp_init` succeeded, the listener is never closed and `uv_loop_close` fails; the model does not capture that failure either.
- Connections that close while the loop serves are `OnClientClose` calls, not interleaved with the accepts of a run.
- `h2o_config_register_host`, `_path` and `h2o_create_handler` are part of the config acquisition. Setting `gaccept_ctx.ctx` and `.hosts` is not modelled.
- Warnings (`php_error_docref`), `php_printf`, `PHP_H2O_LOG` and `php_h2o_dump_req` are output only and not modelled.
- PHP module registration, argument parsing (a non-array argument is refused by the parameter parsing at ext/h2o.c:58-61, before any option is read), and zval and hashtable mechanics are not modelled. A value's type is its zval tag, and `Other` stands for every rejected type.
- The `int` flags are `bool`s. Pointers are `CPtr`, an address on the request heap. The TLS context is a flag for "non-NULL".
- `uv_ip4_addr` is a parameter: the model does not parse the host string.
- Strings are `seq<char>`, one `char` per byte of the PHP or C string, so `|body|` is the body's `strlen` in bytes. No encoding is modelled.
- H2oExt.ReadStrOption: modelled for the calls the binding makes, whose `*out` is always still NULL. An untouched output is returned as NULL rather than as the caller's old value.
- H2oExt.Heap: the live blocks are a set with fresh addresses rather than a multiset. With double free refused, every count is 0 or 1, so the two say the same.
- H2oServer.Server.OnReq: requires the stored length to fit the stored body. `H2oServerRun` proves that the server then holds a body with its own length, so the requirement holds for every run the binding starts.
- ext/h2o_server.h is the `ServerOptions` datatype only; sample.c is not part of this model.
