# web3diag in Dafny

web3diag is a command-line diagnostic for HTTP(S) downloads from web3
gateways and CDNs. It fetches one URI and records when each connection phase
happened: DNS lookup, TCP connect, TLS handshake, connection obtained, request
written and first response byte. While the body is copied it counts the bytes
per clock second, and afterwards it runs the reporters the user named on what
it collected. Each reporter is looked up by name in a fixed registry and
turns the collected data into a table or an error:

- `Connection` gives the phase timings;
- `Header` gives the request and response headers;
- `IPFSGW` gives the IPFS gateway path;
- `Saturn` gives the Saturn CDN node details.

This project models that core and proves properties of it:

- `go_types.dfy` (module `GoTypes`): the Go value types involved. This covers
  nil-able values, `(value, error)` results, and `uint64`/`int64` arithmetic
  with its wrap-around.
- `strings.dfy` (module `Strings`): the library behaviour the program relies
  on. This covers Go's string order and `sort.Strings`, `strings.ToLower`,
  `strings.HasPrefix`, `strings.Split`/`strings.Join`, and `fmt`'s `%x`.
- `headers.dfy` (module `Headers`): `http.Header` as a map from a name to its
  list of values, with `Header.Add`. It also has the "first missing header"
  check that the gateway reporters perform.
- `stats.dfy` (module `Stats`): the `StatsCollector` as a class. The fields are
  the Go struct's, the tracing hooks and `io.Writer.Write` are methods that
  update them in place, and `Snapshot` is the collector's fields as one value.
  The collector keeps this invariant: the running byte total equals the
  flushed per-second buckets plus the current-second bucket, modulo 2^64.
- `reporters.dfy` (module `Reporters`): the `Reporter` interface as a datatype
  with one constructor per implementation, the name registry, and the four
  `Report` bodies. A report is a `Table` value: column headings, rows of cells
  and trailing text lines.
- `cli.dfy` (module `Cli`): the driver in `main.go`. This covers the
  `-reporters list` output, the start-up checks on the flags, the `-noCache`
  headers, `Start`/copy/`Stop` around the body, and the dispatch loop over the
  requested reporter names.

Clock readings are parameters. A hook takes `now` (what `time.Now().UnixNano()`
returned), and `Write` takes `sec` (what `time.Now().Unix()` returned).
Go's unordered map iteration is modelled as a nondeterministic choice of the
next key (`:|`). The results that depend on it are specified up to that
order alone: the header table is the rows Go's nested loop emits for some
order of the keys (each key's values one block, in slice order), and the
reporter list is the same for every order.

## Model

| member | source | states |
|---|---|---|
| `GoTypes.AddU64` | stats.go:81 | `uint64` addition: the exact sum below 2^64, otherwise the sum minus 2^64 |
| `GoTypes.SubI64` | stats.go:188-190 | `int64` subtraction: the exact difference when it fits in 64 bits, and always congruent to it modulo 2^64 |
| `Strings.SortStringsCorrect` | main.go:41 | `sort.Strings` leaves the strings in ascending order and keeps exactly the same strings, multiplicities included |
| `Strings.SortedUnique` | main.go:41 | two ascending orderings of the same multiset of strings are identical, so the sorted list is fully determined |
| `Strings.JoinSplit` | main.go:169 | joining the pieces of `strings.Split(s, ",")` with `","` gives `s` back |
| `Strings.SplitPieces` | main.go:169 | no piece contains the separator, and there is one piece more than there are separators (so `Split` of `""` is `[""]`) |
| `Strings.SplitPair` | main.go:169 | `a,b` with separator-free `a` and `b` splits into exactly `[a, b]` |
| `Strings.Hex` | reporters.go:57 | `%x` prints lower-case hex digits, a single digit exactly for numbers below 16, with a leading zero only for the number 0 |
| `Strings.ParseHexOfHex` | reporters.go:57 | the digits `%x` prints read back as the number printed |
| `Headers.Add` | main.go:116-120 | `Header.Add` appends the value after the existing values of that key and leaves every other key unchanged |
| `Headers.FirstMissing` | reporters.go:117-123 | a header is present when its value list is non-nil (`h[k] != nil`); the result is `None` exactly when every required header is present; otherwise it is a missing header and all headers before it are present |
| `Headers.FirstMissingAt` | reporters.go:155-167 | the header at position `i` is the one named when it is missing and all earlier headers are present |
| `Stats.Written` | stats.go:79-94 | after a write of `n` bytes, the total grows by `n` (mod 2^64). A later clock second closes the current bucket into the history and starts the new one at `n`. Otherwise `n` is added to the current bucket. Nothing else changes |
| `Stats.WrittenKeepsAccounting` | stats.go:79-94 | every write keeps total == sum of the history + current bucket (mod 2^64) |
| `Stats.HistoryOnlyGrows` | stats.go:85-90 | the per-second history grows by one bucket exactly when the clock second advanced, and never loses an earlier bucket |
| `Stats.StatsCollector.constructor` | main.go:75 | the zero-valued collector, which satisfies the accounting invariant |
| `Stats.StatsCollector.SetRequestHeaders` | stats.go:63-69 | stores the request headers; nothing else changes |
| `Stats.StatsCollector.SetResponseHeaders` | stats.go:71-77 | stores the response headers; nothing else changes |
| `Stats.StatsCollector.Write` | stats.go:79-94 | returns `len(p)` and no error, leaves the collector as `Written` describes, and keeps the invariant |
| `Stats.StatsCollector.StartDns` | stats.go:96-101 | records the DNS start time and host; nothing else changes |
| `Stats.StatsCollector.EndDns` | stats.go:103-108 | records the DNS end time and the resolved addresses; nothing else changes |
| `Stats.StatsCollector.WroteRequest` | stats.go:110-115 | records when the request was written and its error; nothing else changes |
| `Stats.StatsCollector.StartConnect` | stats.go:117-123 | records the connect start time, network and address; nothing else changes |
| `Stats.StatsCollector.EndConnect` | stats.go:125-136 | records the connect end time, network, address and error, success or failure alike; the start time is kept |
| `Stats.StatsCollector.StartSession` | stats.go:138-143 | records the session start time and host:port; nothing else changes |
| `Stats.StatsCollector.GotSession` | stats.go:145-153 | records the session end time and both addresses, which are now set; nothing else changes |
| `Stats.StatsCollector.FirstByteReceived` | stats.go:155-161 | records the first-byte time and sets the current second to the whole second containing it (floor of ns / 10^9) |
| `Stats.StatsCollector.StartTls` | stats.go:163-167 | records the TLS start time; nothing else changes |
| `Stats.StatsCollector.EndTls` | stats.go:169-176 | records the TLS end time, version, cipher suite and server name; the start time is kept |
| `Stats.StatsCollector.Start` | stats.go:178-181 | records the transfer start time; nothing else changes |
| `Stats.StatsCollector.Stop` | stats.go:183-186 | records the transfer end time; nothing else changes |
| `Stats.StatsCollector.DurationNS` | stats.go:188-190 | `EndTime - StartTime` in `int64`: exact and non-negative when `0 <= StartTime <= EndTime`, and congruent to the true difference always |
| `Stats.StatsCollector.TotalBytesTransferred` | stats.go:192-194 | the running total, which under the invariant is the history plus the current bucket modulo 2^64 |
| `Stats.ThroughputExample` | stats.go:79-94 | writes of 10, 20 and 30 bytes in the first-byte second give a 60-byte bucket and no history. A write of 5 bytes one second later flushes `[60]` and starts a 5-byte bucket, for a total of 65 |
| `Reporters.Reporter.Report` | reporters.go:18-24 | each reporter's `Report` produces exactly the outcome its implementation defines (`Reports`) |
| `Reporters.RegistryContents` | reporters.go:10-16 | the registry has exactly the names `Connection`, `Header`, `IPFSGW` and `Saturn`, each for a different reporter, and every reporter is registered |
| `Reporters.RegisteredTexts` | reporters.go:35-153 | the title and description of each of the four reporters, as `Title()` and `Description()` return them |
| `Reporters.TitlesDistinct` | reporters.go:35-149 | no two reporters share a title |
| `Reporters.ConnectionReport` | reporters.go:43-71 | never fails. The first row holds the five durations: DNS end−start, connect end−start, TLS end−connect start, request written−connection obtained, first byte−request written. The second row holds the host and its address list, the connect address, the TLS version in hex with the server name, and two empty cells |
| `Reporters.FlattenPermutation` | reporters.go:88-97 | the multiset of header rows does not depend on the order the map's keys are visited in |
| `Reporters.FlattenIsBag` | reporters.go:88-97 | any visit of all the keys yields the section's rows, one per value |
| `Reporters.ValueCountIsSum` | reporters.go:88-97 | a section has one row per header value: for any order of the keys, the row count is the sum of the lengths of their value lists |
| `Reporters.BagCount` | reporters.go:88-97 | the row (section, k, v) occurs exactly as often as `v` occurs among the values of `k` (zero for a missing `k`) |
| `Reporters.AppendKeyRows` | reporters.go:89-91 | appends one (section, k, v) row per value, in the order of the values |
| `Reporters.AppendHeaderRows` | reporters.go:88-97 | whatever key order the map iteration takes, the existing rows are kept and the appended rows are one block per key, holding that key's values in slice order, for some order of the keys (hence exactly the section's multiset of rows) |
| `Reporters.SectionRowsBag` | reporters.go:88-97 | rows emitted under any key order hold each (key, value) pair of the map exactly as often as the map does, one row per value |
| `Reporters.HeaderReport` | reporters.go:84-104 | the header table: columns `"", Key, Value`, no notes, the request rows and then the response rows, each section one block per key in some key order |
| `Reporters.HeaderTableSections` | reporters.go:88-97 | every request row comes before every response row, and each row is (section, key, value) |
| `Reporters.HeaderTableCounts` | reporters.go:88-97 | the table holds (Request, k, v) as often as request header `k` holds `v`, and likewise for the response |
| `Reporters.HeaderTableExample` | reporters.go:84-104 | request headers `{"A": ["1", "2"]}` and no response headers give exactly the rows `(Request, A, 1)` then `(Request, A, 2)` |
| `Reporters.IpfsGwReport` | reporters.go:117-142 | fails exactly when `X-Ipfs-Lb-Pop` or `X-Ipfs-Pop` is missing, naming the first missing one. Otherwise the row is client, gateway, first `X-Ipfs-Lb-Pop`, first `X-Ipfs-Pop`, and there is a cache line exactly when `X-Proxy-Cache` is present |
| `Reporters.SaturnReport` | reporters.go:155-186 | fails exactly when one of the four `Saturn-*` headers is missing, naming the first missing one in order. Otherwise the row is client, transfer id, node address, node id, node version, cache status |
| `Cli.ListReporters` | main.go:34-47 | the listed names are the registry's keys, sorted: `Connection`, `Header`, `IPFSGW`, `Saturn` |
| `Cli.UriSupportedMeans` | main.go:59-63 | a URI is accepted exactly when its first characters spell `http://` or `https://`, ignoring ASCII case, so it has at least 7 characters |
| `Cli.UriSupportedIgnoresCase` | main.go:59-60 | lower-casing a URI first does not change whether it is accepted |
| `Cli.Decide` | main.go:34-63 | `-reporters list` wins over every other flag. Otherwise an empty URI is refused, then a non-http(s) URI; only a supported URI is fetched |
| `Cli.TraceConnection` | main.go:78-109 | a scenario: the hooks wired as in main.go and fired in net/http's order, from `GetConn` to the first byte. Each phase then holds the clock readings and values passed to its hooks, a connect error is recorded, both session addresses are set, and no bytes are counted yet |
| `Cli.StampedDurations` | reporters.go:48-53 | on a collector stamped by the hooks, the five durations are DNS lookup, TCP connect, connect start to TLS done, connection obtained to request written, request written to first byte; none is negative when the hooks fired in net/http's order |
| `Cli.AddNoCacheHeaders` | main.go:111-121 | appends `Pragma: no-cache`, then `Cache-Control: no-cache, no-store, must-revalidate` in that order, then `Expires: 0`, after any existing values; other headers are unchanged |
| `Cli.NoCacheOnEmpty` | main.go:111-121 | a request with no headers of its own ends up with exactly the three no-cache headers |
| `Cli.CopiedCounts` | main.go:143-148 | copying a body adds its length to the byte total (mod 2^64), keeps the accounting invariant and changes only the byte counters |
| `Cli.Download` | main.go:143-151 | `Start`, writing every non-empty chunk (`io.TeeReader` writes only reads that returned bytes), then `Stop`: afterwards `TotalBytesTransferred` is the earlier total plus the body length, and `DurationNS` is `stop - start` when the clock went forward |
| `Cli.RunReporter` | main.go:171-183 | an unregistered name is noted as unknown. A registered reporter's error is reported as a failure; otherwise its title, description and table are printed |
| `Cli.Dispatch` | main.go:162-184 | an empty `-reporters` runs nothing. Otherwise there is one outcome per comma-separated name, in order. A failing or unknown reporter does not stop the others, and the outcome names joined with commas give back the flag value |
| `Cli.NamesRequested` | main.go:169 | outcomes named after the split pieces spell the request back, and no name contains a comma |
| `Cli.DispatchExample` | main.go:169-184 | `-reporters X,Y` with an unknown `X` and a registered `Y` gives `Unknown(X)` and then exactly an outcome `Y`'s reporter produces (`OutcomeOf`), unaffected by `X` and under `Y`'s own title |

## Left out

- Floating point is not modelled: `NsDiffInSeconds` and the `%f` formatting of
  seconds, and the kB/s figure `main` logs. A connection duration is the exact
  `int` difference in nanoseconds.
- Table rendering by `tablewriter` (alignment, merged cells, row lines) is not
  modelled. A report is the table's content, not its rendered text.
- Logging, `fmt.Println` output, `os.Exit`, `panic` and the JSON dump of the
  collector are not modelled. They are I/O, and none of them feeds back into
  the modelled state.
- Flag parsing, `http.NewRequest`, the HTTP client and `httptrace` wiring,
  `os.Create` and `io.Copy`'s reads are not modelled. They are I/O or foreign
  code: the body arrives as a sequence of chunks, and each hook is called
  with its clock reading.
- `time.Now` is not modelled: every clock reading is a parameter.
- `Strings.ToLower` lowers ASCII letters only. Go's `strings.ToLower` also
  lowers other Unicode letters. No non-ASCII letter lowers to `h`, `t`, `p` or
  `s`, so the scheme check decides the same either way.
- Go's string order compares UTF-8 bytes; `Strings.Below` compares characters,
  which agrees for the ASCII names in the registry.
- Header-name canonicalisation by `http.Header` is not modelled. The names the
  program adds are already canonical.
- `net.Addr` values are modelled by what their `String()` returns.
- `Reporters.IpfsGwReport`, `Reporters.SaturnReport`: a value list is a
  sequence, so Go's nil slice and a non-nil empty slice are both `[]`. A
  header counts as missing when its list is `[]` (`Headers.Present`), which is
  Go's `h[k] == nil` for a missing key and for a nil list. A key stored with a
  non-nil empty list, which Go counts as present and then panics on at `[0]`,
  is not represented.
- `Dns.Addrs` holds each `net.IPAddr` as `%s` prints it inside a slice: the
  struct form `{IP Zone}`, for example `{192.0.2.1 }`, because `String` has a
  pointer receiver. Resolving names into addresses is not modelled.
- `Reporters.IpfsGwReport` and `Reporters.SaturnReport` require that the
  session addresses are set on their success path, because Go would panic
  calling `String()` on a nil `net.Addr`.
- `sort.Strings` is modelled on values (`Strings.SortStrings`, an insertion
  sort), not as an in-place sort of the slice.
- Go's map iteration order is an arbitrary choice in the model. Each choice
  is covered by the proofs, but fairness or randomisation is not.
