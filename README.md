# Drop-connection middleware, modelled in Dafny

The repository is one Traefik middleware (`drop_connection.go`). It is built from
one configuration string `"start-end"`. For each request it runs the next handler
against a buffering writer. Then it checks the status that handler produced:

- if the status lies **outside** the inclusive range `[start, end]`, it replays
  that status and the buffered body onto the real writer;
- if the status lies inside the range, or the range is switched off, it hijacks
  the client connection and closes it, with no HTTP response at all;
- if the connection cannot be hijacked or closed, it writes status 500 instead.

The model has five modules:

- `Wrappers` (`wrappers.dfy`): `Option` and `Result`, for Go's `(value, error)` returns.
- `Strings` (`strings.dfy`): Go's `strings.Split` on a one-character separator, with `Join` as its inverse.
- `Strconv` (`strconv.dfy`): Go's `strconv.Atoi` on a 64-bit platform, with `Itoa` as its inverse.
  Atoi accepts an optional `+` or `-` and one or more ASCII digits. It scans the digits left to right:
  the first non-digit is a syntax error, and passing 2^64 - 1 is a range error at once.
  The result must then fit in an int64.
- `DropConnection` (`drop_connection.dfy`): the middleware itself.
  - `New` is a function returning a `Result`.
  - The capture writer `responseWriter` is a class, `ResponseWriter`, with a status field and a byte buffer that its methods update.
  - `resetConn` and `ServeHTTP` are methods. They return the sequence of `Action`s that reach the real writer or its connection: `SendHeader`, `SendBody`, `Hijack`, `Close`.
  - `ServeHTTP` is proved equal to the specification function `Served`. The lemmas about what one request can lead to are stated on `Served`.
- `DropConnectionScenarios` (`scenarios.dfy`): the situations the repository's tests exercise.

Abstractions:

- The next handler is a sequence of the calls it makes on its writer: `WriteHeader(code)` or `Write(p)`.
  `RunNext` plays them against a fresh `ResponseWriter`.
- The real writer is `Plain`, which is not an `http.Hijacker`, or `Hijackable(hijackOk, closeOk)`.
  The two flags say whether `Hijack` and the subsequent `conn.Close` succeed.

On these points the code's behaviour is easy to misread; the model follows the code:

- The gate is on only when both bounds are non-zero (drop_connection.go:76). There is no separate "enabled" flag.
  So `"0-599"` parses, but every request is still dropped. An empty configuration drops every request and never runs the next handler.
- Neither `start <= end` nor any upper bound is checked. `"599-300"` gives a handler whose range is empty, so it replays every response.
- A recorded status of 0 counts as "never set" and becomes 200 (drop_connection.go:84-86).
  This includes a next handler that explicitly calls `WriteHeader(0)`.
- When the hijack succeeds but `Close` fails, the code still calls `WriteHeader(500)` on the writer whose connection it has taken.
  The model records that call, so the trace is `Hijack, Close, SendHeader(500)`.
- The repository's inside-range test runs against a recorder that cannot be hijacked. The code therefore writes 500 there, and `InsideRangeDrops` states 500.
  That test also checks for status 200 (drop_connection_test.go:103-105); the model does not follow that check.

## Model

| member | source | states |
|---|---|---|
| `Strings.Split` | drop_connection.go:42 | splitting on `-` gives one more piece than there are dashes, and no piece contains a dash |
| `Strings.JoinSplit` | drop_connection.go:42 | splitting loses nothing: joining the pieces with the separator rebuilds the input |
| `Strings.SplitNoSeparator` | drop_connection.go:42 | a string without the separator splits into itself alone |
| `Strings.SplitPair` | drop_connection.go:42-46 | `a-b`, where neither part has a dash, splits into exactly `[a, b]`, in that order |
| `Strconv.Atoi` | drop_connection.go:48-58 | a parsed value lies in the int64 range, and is non-negative when the text has no `-` |
| `Strconv.ScanDigits` | drop_connection.go:48 | the digit scan yields the decimal value of the digits, or a range error exactly when that value exceeds 2^64 - 1 |
| `Strconv.ScanNonDigit` | drop_connection.go:48 | a non-digit anywhere in the rest of the input makes the scan fail |
| `Strconv.AtoiDigits` | drop_connection.go:54 | a digit string parses to its value when that is at most 2^63 - 1, otherwise gives a range error; a leading `+` changes nothing |
| `Strconv.AtoiMalformed` | drop_connection.go:48-58 | text that is not an optional sign followed by one or more digits is rejected |
| `Strconv.ItoaValue` | drop_connection.go:48 | the printed form of a number is a non-empty digit string whose value is that number |
| `Strconv.ItoaAtoi` | drop_connection.go:48 | round trip: every non-negative int64, printed in decimal, parses back to itself |
| `DropConnection.New` | drop_connection.go:37-70 | the empty string gives bounds 0 and 0; a non-empty string is a mapping error exactly when it does not have one dash; parsed bounds are never negative |
| `DropConnection.NewTokens` | drop_connection.go:48-68 | for `a-b`: a bad first token is reported whatever the second is; a bad second token is reported otherwise; success exactly when both parse, with the bounds in the order written and no swap |
| `DropConnection.NewItoa` | drop_connection.go:37-70 | round trip: any two int64 bounds printed as `start-end` build a handler with exactly those bounds |
| `DropConnection.NewSplitsOnce` | drop_connection.go:42-68 | a non-empty configuration that succeeds is two tokens around one dash, and the bounds are those tokens parsed |
| `DropConnection.ResponseWriter.constructor` | drop_connection.go:78 | a fresh capture writer has no status (0), an empty buffer, and wraps the real writer |
| `DropConnection.ResponseWriter.WriteHeader` | drop_connection.go:133-135 | the status is overwritten by the argument and the buffer is unchanged |
| `DropConnection.ResponseWriter.Write` | drop_connection.go:137-139 | the bytes are appended to the buffer; it reports all of them written and no error; the status is unchanged |
| `DropConnection.LastWriteHeaderWins` | drop_connection.go:133-135 | the recorded status is the argument of the last `WriteHeader`, whatever is written after it |
| `DropConnection.NoWriteHeaderMeansOK` | drop_connection.go:82-86 | if the next handler never sets a status, the recorded status is 0 and the status used for the decision is 200 |
| `DropConnection.CapturedAppend` | drop_connection.go:137-139 | the buffered body is the writes concatenated in order: two runs of calls buffer their two bodies one after the other |
| `DropConnection.RunNext` | drop_connection.go:78-80 | after the next handler has run against a fresh capture writer, the writer holds its last status and all of its bytes |
| `DropConnection.ResetConn` | drop_connection.go:107-124 | succeeds exactly for a writer that hijacks and closes; otherwise reports not-a-hijacker, a hijack failure or a close failure; it only ever hijacks and closes, and closes only right after a hijack |
| `DropConnection.ServeHTTP` | drop_connection.go:74-105 | the calls reaching the real writer are exactly those of `Served`: the effective status and the whole buffer when the gate is on and the status is outside the range, otherwise the reset followed by a 500 if it failed |
| `DropConnection.OutcomeCharacterised` | drop_connection.go:74-124 | the calls reaching the real writer always read as one of: captured status and body replayed (exactly when the gate is on and the status is outside the range), connection closed (exactly when hijack and close both succeed), or a trailing 500 (otherwise) |
| `DropConnection.ReplayOrDrop` | drop_connection.go:88-104 | a body is sent exactly when the response is replayed, and never on a connection that was hijacked |
| `DropConnection.DisabledAlwaysDrops` | drop_connection.go:76-104 | with either bound zero, what reaches the real writer does not depend on the next handler, and no body is sent |
| `DropConnectionScenarios.EmptyConfigDrops` | drop_connection_test.go:25-48 | an empty configuration builds a handler with a zero range; every request is then dropped with no body, and an unhijackable writer gets a 500 |
| `DropConnectionScenarios.OutsideRangeReplays` | drop_connection_test.go:50-78 | `300-599` builds the range 300..599, and a next handler writing only "It works!" gets status 200 and that body replayed |
| `DropConnectionScenarios.InsideRangeDrops` | drop_connection_test.go:80-108 | `100-599` builds the range 100..599; the same next handler's response is dropped with no body, and an unhijackable writer gets a 500 |
| `DropConnectionScenarios.NonNumericStartRejected` | drop_connection.go:48-52 | `abc-599` fails construction with a syntax error on the first token |

## Left out

- `CreateConfig`, the `name` field, `context.Context` and `*http.Request` carry no behaviour here and are not modelled.
- `responseWriter.Hijack` (drop_connection.go:141-147) delegates to the wrapped writer. The model never hijacks through the capture writer, and the real writer's ability to hijack is the `Writer` datatype.
- The `net.Conn` and `bufio.ReadWriter` returned by `Hijack` are not modelled. Closing the connection is the `Close` action, and its success is a flag.
- `log.Println` on a failed replay write (drop_connection.go:93-95) is a side effect only. The model records the single write attempt; whether it failed changes nothing else.
- Headers other than the status, and net/http's own checks on the real writer, are not modelled. Examples are the panic on a status outside 100..999 and ignoring `WriteHeader` on a hijacked connection.
- `bytes.Buffer` growing past available memory (`ErrTooLarge` panic) is not modelled; the buffer is an unbounded sequence.
- Concurrency between requests and the host's timeouts are not modelled. Each request is one sequential run, and nothing is shared between requests.
- The text of the error messages is not modelled. `ConfigError` keeps which check failed and, for a token, the `NumError` kind.
