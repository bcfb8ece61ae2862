# teamspeak-prometheus ServerQuery stack, modelled in Dafny

This project models the Go core of the TeamSpeak 3 Prometheus exporter and
proves properties of that model. The core has these parts:

- **The escape codec** (`internal/ts3/protocol.go`). Two fixed replacement tables.
  `Escape` writes each of the eleven reserved characters as a backslash and a
  code letter. `Unescape` reverses this in one left-to-right pass.
- **The response parser** (`internal/ts3/parser.go`). `ParseResponse` turns a
  body into records. Items are separated by `|` and tokens by spaces. Each
  token is split at its first `=` and both halves are unescaped.
- **The ServerQuery client** (`internal/ts3/client.go`).
  - `Execute` writes a command and reads lines up to the `error id=...`
    terminator.
  - The TCP part of `connect` reads two banner lines and logs in.
  - `NewClient` defaults the protocol to TCP.
  - `Close` releases resources in a fixed order.
- **The per-server session pool** (`internal/ts3/pool.go`). A FIFO queue of
  idle sessions plus a slot counter, with `Get`, `Put`, `Discard` and `Close`.
- **The collector's sequential decisions** (`internal/collector/collector.go`):
  - the pool key of a server and the pools built at construction;
  - `collectServer`'s `serverlist` step, its put-back-or-discard decision and
    its filter on virtual-server ids;
  - `collectVirtualServer`'s `use` / `serverinfo` / `clientlist` sequence and
    its `broken` flag;
  - the query-client filter and the 33-entry player label vector.

Files:

| file | module | models |
|---|---|---|
| `errors.dfy` | `Errors` | `Option`, `Result` (Go's `(T, error)`), and the errors the stack produces |
| `gostrings.dfy` | `GoStrings` | the Go `strings`/`fmt` operations the core relies on: `Split`, `Join`, `SplitN(…, 2)` as `CutFirst`, `HasPrefix`, `TrimSpace`, `%d` |
| `protocol.dfy` | `Ts3Protocol` | `Escape`, `Unescape` and their tables |
| `parser.dfy` | `Ts3Parser` | `ParseResponse`, as a method with the Go loops proved against the function `Parse` |
| `client.dfy` | `Ts3Client` | the `Client` class: `Execute`, its read loop, `connect`'s TCP handshake, `Close`, `NewClient` |
| `pool.dfy` | `Ts3Pool` | the `Pool` class: `NewPool`, `Get`, `Put`, `Discard`, `Close` |
| `collector.dfy` | `Collector` | pool keys, `NewTS3Collector`'s pools loop, `collectServer`, `collectVirtualServer`, samples and labels |

How the model stands in for the outside world:

- A client's channel is the list of results its `ReadString('\n')` calls
  will return, each a line or an I/O failure. A failure on every write is a
  field. An exhausted list reads as a closed stream.
- Dialing is a parameter (`dialed`) that holds the resulting channel or an
  error.
- A pool is generic in what a session is. Calling its factory is foreign
  code, so `Get` receives what that call would return.
- In the collector, a session's answers are a script: the outcome of each
  command it executes, in order. A virtual-server task is such a script
  together with the factory result for its `Get`.
- The goroutines run one after another, in listing order.

## Model

| member | source | states |
|---|---|---|
| `Ts3Protocol.TablesInverse` | internal/ts3/protocol.go:7-33 | The two tables pair up exactly: a character escapes to code `d` if and only if `d` unescapes to that character. |
| `Ts3Protocol.Escape` | internal/ts3/protocol.go:7-19 | The escaped length is the input length plus the number of reserved characters in it. |
| `Ts3Protocol.Unescape` | internal/ts3/protocol.go:21-33 | Unescaping never lengthens its input. |
| `Ts3Protocol.UnescapeEscape` | internal/ts3/protocol.go:35-43 | `Unescape(Escape(s)) == s` for every string. |
| `Ts3Protocol.EscapeWellEscaped` | internal/ts3/protocol.go:7-19 | `Escape` only produces well-escaped text: every backslash starts a known token and no reserved character stands alone. |
| `Ts3Protocol.EscapeUnescape` | internal/ts3/protocol.go:35-43 | On well-escaped text `Escape(Unescape(t)) == t`. So `Escape` is a bijection onto the well-escaped texts. |
| `Ts3Protocol.WellEscapedHasNoRawReserved` | internal/ts3/protocol.go:7-19 | No position of well-escaped text holds a raw space, pipe or control character. |
| `Ts3Protocol.EscapeHasNoRawSeparators` | internal/ts3/protocol.go:7-19 | `Escape(s)` holds no raw space, pipe, `\a`, `\b`, `\f`, `\n`, `\r`, `\t` or `\v`. |
| `Ts3Protocol.EscapeKeepsUnreserved` | internal/ts3/protocol.go:7-19 | A character that is neither reserved nor a code letter (such as `=`) occurs in `Escape(s)` if and only if it occurs in `s`. |
| `Ts3Protocol.EscapeIdentity` | internal/ts3/protocol.go:7-19 | A string without reserved characters is its own escape. |
| `Ts3Protocol.UnescapeIdentity` | internal/ts3/protocol.go:21-33 | A string without backslashes is its own unescape. |
| `Ts3Protocol.UnescapeUnknownToken` | internal/ts3/protocol.go:21-33 | A backslash followed by a letter outside the table passes through literally, with that letter. |
| `Ts3Protocol.UnescapeSinglePass` | internal/ts3/protocol.go:21-33 | The scan never re-reads its output: `\\s` unescapes to `\s`. A lone `\` and `\x` are kept as they are. |
| `GoStrings.Split` | internal/ts3/parser.go:16 | `strings.Split` yields one more part than there are separators, and no part holds the separator. |
| `GoStrings.JoinSplit` | internal/ts3/parser.go:16 | Joining the parts of a split with the separator gives back the input. |
| `GoStrings.SplitNoSeparator` | internal/ts3/parser.go:16 | A string without the separator splits into itself alone. |
| `GoStrings.SplitConcat` | internal/ts3/parser.go:20 | Splitting `a + sep + b` gives the parts of `a` followed by the parts of `b`. |
| `GoStrings.SplitJoin` | internal/ts3/parser.go:20 | Parts without the separator, joined and split again, come back unchanged. |
| `GoStrings.CutFirst` | internal/ts3/parser.go:27 | `SplitN(s, "=", 2)`: the head holds no separator. Without a separator the head is the whole string; with one, `s` is head + separator + tail. |
| `GoStrings.TrimSpace` | internal/ts3/client.go:204 | The trimmed line is empty, or starts and ends with a character that is not white space. |
| `GoStrings.TrimSpaceNewline` | internal/ts3/client.go:199-204 | A line read with its trailing newline trims back to the line, when the line itself has no outer white space. |
| `GoStrings.NatToString` | internal/ts3/client.go:33 | `%d` of a natural number is a non-empty string of decimal digits. |
| `GoStrings.NatToStringValue` | internal/ts3/client.go:33 | The digits `%d` writes denote the number. |
| `GoStrings.IntToString` | internal/ts3/client.go:33 | `%d` of an integer is non-empty and starts with `-` exactly when the integer is negative. |
| `GoStrings.IntToStringInjective` | internal/collector/collector.go:110-113 | Different ports are written as different strings. |
| `Ts3Parser.ParseResponse` | internal/ts3/parser.go:8-38 | The Go loops compute `Parse`: no records for the empty body, otherwise one record per pipe-separated item. |
| `Ts3Parser.ParseItemFields` | internal/ts3/parser.go:18-34 | The inner loop computes the record of one item: tokens read left to right, empty ones skipped. |
| `Ts3Parser.ParseCount` | internal/ts3/parser.go:9-35 | The empty body yields no records. Any other body yields one record more than it has pipe separators. |
| `Ts3Parser.ParseOrder` | internal/ts3/parser.go:16-35 | Records come out in item order. A trailing pipe yields a trailing empty record. |
| `Ts3Parser.BlankItemIsEmpty` | internal/ts3/parser.go:20-35 | An item made only of spaces, including the empty item, yields an empty record. |
| `Ts3Parser.ExtraSpacesIgnored` | internal/ts3/parser.go:20-24 | A run of two spaces parses like a single one: empty tokens contribute no key. |
| `Ts3Parser.ParseItemConcat` | internal/ts3/parser.go:20-34 | The fields on both sides of a space are merged, and the right side wins on a repeated key. |
| `Ts3Parser.FieldsConcat` | internal/ts3/parser.go:21-34 | Reading two token lists in turn gives the first's fields overridden by the second's. |
| `Ts3Parser.CutAtFirst` | internal/ts3/parser.go:27 | A token is cut at its first separator, whatever follows. |
| `Ts3Parser.FieldSplit` | internal/ts3/parser.go:27-32 | `k=v` with no `=` in `k` gives `(Unescape(k), Unescape(v))`. A bare flag gives `(Unescape(flag), "")`. |
| `Ts3Parser.FieldKeepsLaterEquals` | internal/ts3/parser.go:27-32 | `a=b=c` gives key `a` and value `b=c`. |
| `Ts3Parser.FieldsDomain` | internal/ts3/parser.go:21-33 | A key is in the record if and only if some non-empty token carries it. |
| `Ts3Parser.FieldsLastWins` | internal/ts3/parser.go:33 | With a repeated key, the record holds the value of the last token that carries it. |
| `Ts3Parser.FieldOfEncoded` | internal/ts3/parser.go:27-32 | An escaped field `Escape(k)=Escape(v)` is a non-empty token with no raw space or pipe, and it reads back as `(k, v)`. |
| `Ts3Parser.FieldsOfEncoded` | internal/ts3/parser.go:20-34 | A list of escaped fields reads back as the record those fields denote. |
| `Ts3Parser.ParseEncodedItem` | internal/ts3/parser.go:16-35 | Round trip: fields whose names hold no `=`, escaped and written as one item, parse to exactly one record with those fields. |
| `Ts3Parser.ParseEncodedField` | internal/ts3/parser.go:16-33 | `ParseResponse(Escape(k) + "=" + Escape(v))` is exactly `[{k: v}]` when `k` holds no `=`. |
| `Ts3Client.CloseOrderReleasesHeld` | internal/ts3/client.go:168-180 | Teardown releases exactly the held resources, each once: SSH session, then SSH client, then connection. |
| `Ts3Client.Client.Close` | internal/ts3/client.go:168-180 | `Close` appends the teardown sequence of the held resources to the release log. |
| `Ts3Client.LastValueIsLast` | internal/ts3/client.go:208-217 | The extracted value is `""` when no word has the prefix. Otherwise it is the rest of the last word that has it. |
| `Ts3Client.StatusFields` | internal/ts3/client.go:208-217 | The word loop of the terminator yields the last `id=` value and the last `msg=` value. |
| `Ts3Client.StatusMeaning` | internal/ts3/client.go:219-224 | A terminator means success if and only if its id is exactly `"0"`, and success returns the body. Otherwise the error carries the id and the unescaped message. |
| `Ts3Client.TerminatorOutcome` | internal/ts3/client.go:205-224 | The line `error id=<id> msg=<msg>` is a terminator. It yields the body when `id` is `"0"`, and `ServerError(id, Unescape(msg))` otherwise. |
| `Ts3Client.DataPrefix` | internal/ts3/client.go:199-230 | It counts the data lines at the head of the input. The next read, if any, is a failure or a terminator. |
| `Ts3Client.BuildAfterText` | internal/ts3/client.go:227-230 | Once the builder holds text, each further line is appended after a newline. |
| `Ts3Client.BuildFromEmpty` | internal/ts3/client.go:227-230 | The body is the data lines joined by newlines, with leading empty lines dropped. |
| `Ts3Client.ScanData` | internal/ts3/client.go:193-230 | Reading runs over a prefix of data lines, accumulating them, without stopping. |
| `Ts3Client.ScanFraming` | internal/ts3/client.go:193-231 | Reading stops at the first read failure, returned as an I/O failure with its reason, or at the first terminator. On success the body comes from the data lines only, never from the terminator, and later reads stay unread. |
| `Ts3Client.StopAt` | internal/ts3/client.go:199-225 | A read failure or a terminator ends the read at once. |
| `Ts3Client.Client.ReadResponse` | internal/ts3/client.go:193-231 | The read loop of `Execute` computes the framing function `Scan`: the outcome and what is left unread. |
| `Ts3Client.Client.Execute` | internal/ts3/client.go:183-232 | A write failure returns at once and reads nothing. Otherwise exactly `cmd + "\n"` is written, and then one response is read. |
| `Ts3Client.LoginCommandParses` | internal/ts3/client.go:153 | The login command splits into exactly three words, and the last two unescape to the user name and the password. |
| `Ts3Client.HandshakeOutcome` | internal/ts3/client.go:118-156 | The handshake succeeds if and only if banner line 1 arrives, the login is written and its reply succeeds; line 2's failure is ignored. Only the login command is ever written. A failed handshake closes the client. A missing first banner line gives the EOF failure, and an unreadable one gives its read failure unchanged. Any failure after a first line that was read is the login's, wrapped as `login failed`. |
| `Ts3Client.Client.constructor` | internal/ts3/client.go:34-40 | A client holds its address, credentials and protocol, and the resources that protocol uses. Nothing has been written or released yet. |
| `Ts3Client.Client.Connect` | internal/ts3/client.go:117-164 | Only a `"tcp"` client reads the banners and logs in, as the handshake describes. Any failure closes it. Other protocols change nothing. |
| `Ts3Client.NewClient` | internal/ts3/client.go:29-47 | An empty protocol means TCP, and the address is `host:port`. A dial or handshake error is returned and no client is handed out. A returned client is fresh, holds the resources of its protocol and the dialed channel's write fault. It has released nothing. Over TCP its reader and write log are what the handshake left. Over any other protocol they are the dialed channel untouched. |
| `Ts3Pool.Pool.constructor` | internal/ts3/pool.go:17-24 | A new pool has an empty queue and no slot taken. |
| `Ts3Pool.Pool.Get` | internal/ts3/pool.go:27-63 | `Get` reuses the oldest idle session first, leaving the slots as they are. Otherwise it claims a free slot and builds a session, giving the slot back when the factory fails. With neither available the result is the timeout. A closed pool yields no session. On an open pool the outcome and new state are exactly `Acquire`. The bounds on queue and slots are kept. |
| `Ts3Pool.AcquireOutcome` | internal/ts3/pool.go:27-63 | A session is handed out if and only if one is idle or a free slot meets a working factory. The oldest idle session comes first, and a built session is the factory's. Without a session the state is unchanged, and with no idle session and no free slot the outcome is the timeout. |
| `Ts3Pool.Pool.Put` | internal/ts3/pool.go:66-79 | With room in the queue the session joins its back and keeps its slot. Otherwise it is closed and a slot is released only if one is taken. The new state is `GiveBack` of the old. |
| `Ts3Pool.Pool.Discard` | internal/ts3/pool.go:82-90 | The session is closed and a slot is released only if one is taken. The queue is untouched. The new state is `Dispose` of the old. |
| `Ts3Pool.Pool.Close` | internal/ts3/pool.go:93-100 | The queue is closed and every idle session is closed, oldest first. The slot count is unchanged. |
| `Ts3Pool.PutNeverOverflows` | internal/ts3/pool.go:66-79 | If only sessions from `Get` are given back, idle plus lent sessions equal the taken slots, so `Put` always finds room in the queue. |
| `Ts3Pool.DiscardFindsSlot` | internal/ts3/pool.go:82-90 | Under the same discipline, `Discard` always finds a taken slot to release. |
| `Ts3Pool.PoolScenario` | internal/ts3/pool_test.go:8-59 | With capacity 2, two sessions are built and a third request waits. The session put back is the next one handed out. After a discard, a new session is built. |
| `Collector.UnnamedPoolKeys` | internal/collector/collector.go:110-113 | Unnamed servers whose hosts hold no colon share a pool key if and only if host and port are equal. |
| `Collector.LookupParsed` | internal/collector/collector.go:241-280 | Reading a field of a parsed item gives `""` when no token carries the key, as a Go map read of a missing key does. Otherwise it gives the value of the last token that carries the key. |
| `Collector.PlayerLabelsMatchDescriptor` | internal/collector/collector.go:246-280 | The label vector has 33 entries: server name, then virtual-server name, then entry `i` is the record field the descriptor names at position `i`. |
| `Collector.LabelNamesAreFieldKeys` | internal/collector/collector.go:83-94 | The descriptor has 33 label names, and from the third on they are the fields the collector reads, in order. |
| `Collector.QueryFieldLabels` | internal/collector/collector.go:254-256 | Labels 7 and 8 are the nickname and client type the query-client filter reads. |
| `Collector.InfoSamplesExact` | internal/collector/collector.go:216-228 | An info sample is emitted exactly for each exported metric name the record carries, with the record's value. |
| `Collector.PlayerSamplesExact` | internal/collector/collector.go:239-288 | A player sample is emitted exactly for each player that is not a query client, with its label vector. |
| `Collector.PlayerSamplesSkipQuery` | internal/collector/collector.go:240-243 | No emitted player sample has nickname `serveradmin` or client type `"1"`. |
| `Collector.VirtualServerIdsExact` | internal/collector/collector.go:164-168 | A virtual server is visited if and only if its listed id is non-empty. |
| `Collector.VisitCommandsSent` | internal/collector/collector.go:195-237 | The commands sent are a non-empty prefix of `use <vid>`, `serverinfo`, `clientlist …`. `clientlist` is sent if and only if the first two succeed and the info parses to a record. |
| `Collector.VisitBroken` | internal/collector/collector.go:186-237 | A visit stops at the first failed command. The session is broken if and only if a command sent failed, so no record from `serverinfo` means the session is put back. |
| `Collector.EmitInfo` | internal/collector/collector.go:216-228 | The metric loop emits the info samples of the exported names. |
| `Collector.EmitPlayers` | internal/collector/collector.go:239-288 | The player loop emits the player samples. |
| `Collector.RunVisit` | internal/collector/collector.go:195-288 | The body of `collectVirtualServer` gives the commands, the `broken` flag and the samples the visit function describes. |
| `Collector.Release` | internal/collector/collector.go:186-193 | The deferred step discards a broken session and puts back any other: the new pool state is `Settle` of the old. A balanced pool from which `c` was lent stays balanced, and `c` is no longer lent. |
| `Collector.CollectVirtualServer` | internal/collector/collector.go:179-289 | Without a session nothing is sent. Otherwise the visit runs, and the session is discarded if broken and put back if not. The outcome and new pool state are exactly `VisitState`: `Get`, then the disposal the visit's `broken` flag picks. A balanced pool stays balanced, with nothing lent for good. |
| `Collector.ListVirtualServers` | internal/collector/collector.go:146-159 | The session comes from `Get`, as its outcome clauses state. Without one, no command is sent and the pool is unchanged. Otherwise `serverlist` is sent. A failed listing discards the session; a successful one puts it back at the end of the queue before the listing is used. The outcome and new state are exactly `Listing`. |
| `Collector.ListingOutcome` | internal/collector/collector.go:146-159 | The `serverlist` step obtains a session exactly as `Get` does, leaves the pool unchanged without one, discards the session after a failed listing and puts it back after a successful one. |
| `Collector.VisitAll` | internal/collector/collector.go:161-176 | Exactly the listed virtual servers with an id are visited, in order, the `k`-th with task `k`. The outcomes and the final pool state are those of `Visits`: each visit is one `VisitState` on the state the previous one left. The samples are those of the visits that got a session. |
| `Collector.ServeServer` | internal/collector/collector.go:139-177 | `collectServer` on one pool. The session comes from `Get`, and `serverlist` is sent exactly when there is one. Without a session, or after a failed listing, nothing is visited. Otherwise each listed id is visited once, in order. The pool goes through `Listing`, then `Visits`, and stays balanced. |
| `Collector.LastIndex` | internal/collector/collector.go:114 | The last server with a given key, the one whose pool the map keeps. |
| `Collector.AddPool` | internal/collector/collector.go:105-115 | One loop step: a new, empty pool of capacity 5 with this server's factory is stored under the server's key. Every other key keeps its pool, and the pools stay pairwise distinct. |
| `Collector.BuildPools` | internal/collector/collector.go:105-115 | There is one new empty pool of capacity 5 per distinct key, built with the factory of the last server carrying that key. No two keys share a pool. |
| `Collector.TS3Collector.constructor` | internal/collector/collector.go:69-118 | `NewTS3Collector`: the exported metric names, and pools keyed by exactly the configured servers' keys, each new, empty, balanced and distinct. |
| `Collector.TS3Collector.CollectServer` | internal/collector/collector.go:139-177 | `collectServer` runs on the pool under the server's key, with the guarantees of `ServeServer`: outcome of `Get`, the `serverlist` command, `Listing` then `Visits` on that pool. |

## Left out

- Dialing TCP and setting up the SSH client, session, pipes and shell (`connect` before the banner). This is network I/O. The channel they produce is a parameter, and an SSH client is taken as already authenticated.
- Read and write deadlines and the pool's ten-second timer. An expired deadline is an I/O failure among the scripted reads. The pool's wait ends in the `PoolTimeout` outcome.
- Goroutines, `sync.WaitGroup` and the blocking `select`. The tasks run one after another in listing order, so interleavings between concurrent visits on the same pool are not covered.
- `Ts3Pool.Pool.Get`: the blocking wait is modelled as its timeout. A session handed back, or a slot freed, by another goroutine while `Get` waits is not modelled.
- Prometheus descriptors, `Describe`, `MustNewConstMetric` and `strconv.ParseFloat`. A server-info sample carries the field's text, including values `ParseFloat` would refuse, which the collector drops.
- The metric loop iterates a Go map (`descs`) in unspecified order. The model emits in the order of the metric-name list.
- `Close`'s returned error is left out. Only the release order is modelled.
- The factory is an opaque value. Each `Get` receives what the factory call would return.
- The configuration loader, `main.go` and the Python exporter. These cover file and YAML reading, flags, HTTP serving, and a wrapper over an external library.
- Strings are sequences of code points, not UTF-8 bytes. Every delimiter involved is ASCII, so splitting and trimming agree with Go on valid UTF-8.
- `GoStrings.TrimSpace`: the contract states only that the result has no white space at either end. It does not say that the result is the middle of the input.
- `Ts3Protocol.EscapeHasNoRawSeparators`: `/` and `\` can still occur in escaped output, as part of a token such as `\/`. Only the remaining reserved characters are absent.
- `Ts3Pool.Pool.constructor`: requires a non-negative capacity. In Go, `make` panics when given a negative channel size, and that panic is not modelled.
- `Ts3Pool.Pool.Put`: the Go code panics when it sends on the queue after `Close`, and the precondition that the pool is open excludes that case.
- `Ts3Pool.Pool.Close`: the Go code panics when `close` runs on a channel that is already closed, and the precondition that the pool is open excludes a second `Close`.
- `Collector.CollectVirtualServer`, `Collector.ListVirtualServers`, `Collector.VisitAll`, `Collector.ServeServer`, `Collector.Release` and `Collector.TS3Collector.CollectServer`: each requires an open pool. On a closed pool `Get` returns a nil client with a nil error, and the next `Execute` on that nil client panics. Collection after the pools are closed is not modelled.
- The `log.Printf` calls in `collectServer` and `collectVirtualServer` (internal/collector/collector.go:149,155,182,196,204,234). Logging is output only. The failures they report are modelled as the outcomes and `broken` flags they accompany.
- Servers that share a pool key share one pool, the one built for the last of them. Their visits all run against it.
