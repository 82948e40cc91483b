/** The command-line driver: the decisions it takes before the request, the
    headers it adds to it, the counting of the body, and the dispatch of the
    requested reporters afterwards. Flag parsing, logging, the HTTP client and
    the process exit code are outside the model. */
module Cli {
  import opened GoTypes
  import opened Strings
  import opened Headers
  import opened Stats
  import opened Reporters

  // ---------------------------------------------------------------------------
  // -reporters list
  // ---------------------------------------------------------------------------

  /** The registered names in ascending order, as `-reporters list` prints them. */
  method ListReporters() returns (reps: seq<string>)
    ensures Sorted(reps)
    ensures multiset(reps) == multiset(Registry.Keys)
    ensures reps == ["Connection", "Header", "IPFSGW", "Saturn"]
  {
    var collected: seq<string> := [];
    var remaining := Registry.Keys;
    while remaining != {}
      invariant remaining <= Registry.Keys
      invariant multiset(collected) + multiset(remaining) == multiset(Registry.Keys)
      decreases |remaining|
    {
      var k :| k in remaining;
      assert multiset(remaining) == multiset(remaining - {k}) + multiset{k};
      collected := collected + [k];
      remaining := remaining - {k};
    }
    reps := SortStrings(collected);
    SortStringsCorrect(collected);
    RegisteredNamesSorted();
    SortedUnique(reps, ["Connection", "Header", "IPFSGW", "Saturn"]);
  }

  /** The four names, listed in ascending order, are exactly the registry's. */
  lemma RegisteredNamesSorted()
    ensures Sorted(["Connection", "Header", "IPFSGW", "Saturn"])
    ensures multiset(["Connection", "Header", "IPFSGW", "Saturn"]) == multiset(Registry.Keys)
  {
    RegistryContents();
    var names := ["Connection", "Header", "IPFSGW", "Saturn"];
    assert Below(names[0], names[1]) && Below(names[1], names[2]) && Below(names[2], names[3]);
    BelowTransitive(names[0], names[1], names[2]);
    BelowTransitive(names[1], names[2], names[3]);
    BelowTransitive(names[0], names[2], names[3]);
    assert multiset(names) == multiset({"Connection", "Header", "IPFSGW", "Saturn"});
  }

  // ---------------------------------------------------------------------------
  // Start-up checks on the flags
  // ---------------------------------------------------------------------------

  /** Only `http://` and `https://` URIs are fetched, whatever the case of the scheme. */
  predicate UriSupported(uri: string)
  {
    HasPrefix(ToLower(uri), "http://") || HasPrefix(ToLower(uri), "https://")
  }

  /** `p` starts `s` when `s` is read without regard to the case of ASCII letters. */
  predicate StartsFolded(s: string, p: string)
  {
    |p| <= |s| && forall i | 0 <= i < |p| :: LowerChar(s[i]) == p[i]
  }

  /** A URI is accepted exactly when its first characters spell `http://` or
      `https://`, letter case aside; so it has at least seven characters. */
  lemma UriSupportedMeans(uri: string)
    ensures UriSupported(uri) <==> StartsFolded(uri, "http://") || StartsFolded(uri, "https://")
    ensures UriSupported(uri) ==> |uri| >= 7
  {
    PrefixFolded(uri, "http://");
    PrefixFolded(uri, "https://");
  }

  lemma PrefixFolded(s: string, p: string)
    ensures HasPrefix(ToLower(s), p) <==> StartsFolded(s, p)
  {
    if StartsFolded(s, p) {
      assert ToLower(s)[..|p|] == p;
    }
    if HasPrefix(ToLower(s), p) {
      forall i | 0 <= i < |p| ensures LowerChar(s[i]) == p[i] {
        assert ToLower(s)[..|p|][i] == p[i];
      }
    }
  }

  /** Lower-casing the URI first changes nothing: the check ignores case. */
  lemma UriSupportedIgnoresCase(uri: string)
    ensures UriSupported(ToLower(uri)) == UriSupported(uri)
  {
    ToLowerIdempotent(uri);
  }

  /** What the program does after reading its flags. */
  datatype Startup = ListOnly | NoUri | UnsupportedUri | Fetch

  /** `-reporters list` wins over every other flag; then a URI is required,
      and it has to be an http or https one. */
  function Decide(reporters: string, uri: string): (d: Startup)
    ensures d == ListOnly <==> reporters == "list"
    ensures d == NoUri <==> reporters != "list" && uri == ""
    ensures d == Fetch ==> |uri| >= 7 && (StartsFolded(uri, "http://") || StartsFolded(uri, "https://"))
    ensures d == UnsupportedUri <==> reporters != "list" && uri != "" && !UriSupported(uri)
  {
    UriSupportedMeans(uri);
    if reporters == "list" then ListOnly
    else if uri == "" then NoUri
    else if !UriSupported(uri) then UnsupportedUri
    else Fetch
  }

  // ---------------------------------------------------------------------------
  // The tracing hooks
  // ---------------------------------------------------------------------------

  /** The clock readings the `httptrace` hooks are called at, one per hook. */
  datatype HookTimes = HookTimes(
    getConn: Int64, dnsStart: Int64, dnsDone: Int64, connectStart: Int64, connectDone: Int64,
    tlsStart: Int64, tlsDone: Int64, gotConn: Int64, wroteRequest: Int64, firstByte: Int64)

  /** The order net/http fires the hooks in for a fresh TLS connection:
      `GetConn`, the DNS pair, the connect pair, the TLS pair, `GotConn`,
      `WroteRequest`, `GotFirstResponseByte`. */
  predicate FiredInOrder(t: HookTimes)
  {
    && t.getConn <= t.dnsStart <= t.dnsDone <= t.connectStart <= t.connectDone
    && t.connectDone <= t.tlsStart <= t.tlsDone <= t.gotConn <= t.wroteRequest <= t.firstByte
  }

  /** Each phase of `s` holds the readings its hooks were called at. */
  predicate Stamped(s: Snapshot, t: HookTimes)
  {
    && s.Session.StartTime == t.getConn && s.Session.EndTime == t.gotConn
    && s.Dns.StartTime == t.dnsStart && s.Dns.EndTime == t.dnsDone
    && s.Connection.StartTime == t.connectStart && s.Connection.EndTime == t.connectDone
    && s.Tls.StartTime == t.tlsStart && s.Tls.EndTime == t.tlsDone
    && s.Request.StartTime == t.wroteRequest && s.FirstByteTime == t.firstByte
  }

  /** A scenario: one HTTPS request to `hostPort`, wired as main.go wires the
      hooks, firing them in net/http's order at the readings `t`. The lookup
      result, the addresses and the TLS parameters are fixed sample values. */
  method TraceConnection(hostPort: string, t: HookTimes, connErr: Option<string>) returns (s: Snapshot)
    ensures Stamped(s, t)
    ensures s.Session.HostPort == hostPort
    ensures s.Session.Local == Some("198.51.100.7:50000") && s.Session.Remote == Some("192.0.2.1:443")
    ensures s.Dns.Host == "example.com" && s.Dns.Addrs == ["{192.0.2.1 }"]
    ensures s.Connection.Protocol == "tcp" && s.Connection.Address == "192.0.2.1:443"
    ensures s.Connection.Error == connErr && s.Request.Error == None
    ensures s.Tls.Version == 0x304 && s.Tls.CipherSuite == 0x1301 && s.Tls.ServerName == "example.com"
    ensures Consistent(s) && s.TotalBytes == 0 && s.PerSecond == []
  {
    var c := new StatsCollector();
    c.StartSession(hostPort, t.getConn);
    c.StartDns("example.com", t.dnsStart);
    c.EndDns(["{192.0.2.1 }"], t.dnsDone);
    c.StartConnect("tcp", "192.0.2.1:443", t.connectStart);
    c.EndConnect("tcp", "192.0.2.1:443", connErr, t.connectDone);
    c.StartTls(t.tlsStart);
    c.EndTls(0x304, 0x1301, "example.com", t.tlsDone);
    c.GotSession("198.51.100.7:50000", "192.0.2.1:443", t.gotConn);
    c.WroteRequest(None, t.wroteRequest);
    c.FirstByteReceived(t.firstByte);
    s := c.Freeze();
  }

  /** On a collector stamped by the hooks, the connection report's durations
      are the gaps between hook readings: DNS lookup, TCP connect, connect to
      end of TLS, connection obtained to request written, and request written
      to first byte. When the hooks fired in net/http's order, none is negative. */
  lemma StampedDurations(s: Snapshot, t: HookTimes)
    requires Stamped(s, t)
    ensures ConnectionReport(s).value.rows[0] == [
              Nanos(t.dnsDone - t.dnsStart),
              Nanos(t.connectDone - t.connectStart),
              Nanos(t.tlsDone - t.connectStart),
              Nanos(t.wroteRequest - t.gotConn),
              Nanos(t.firstByte - t.wroteRequest)]
    ensures FiredInOrder(t) ==> forall i | 0 <= i < 5 :: ConnectionReport(s).value.rows[0][i].ns >= 0
  {
    var row := ConnectionReport(s).value.rows[0];
    if FiredInOrder(t) {
      forall i | 0 <= i < 5 ensures row[i].ns >= 0 {
        assert t.connectStart <= t.tlsDone;
      }
    }
  }

  // ---------------------------------------------------------------------------
  // -noCache
  // ---------------------------------------------------------------------------

  /** The request headers `-noCache` adds, appended after any values already
      there, with every other header left as it was. */
  method AddNoCacheHeaders(h: Header) returns (r: Header)
    ensures r.Keys == h.Keys + {"Pragma", "Cache-Control", "Expires"}
    ensures r["Pragma"] == Values(h, "Pragma") + ["no-cache"]
    ensures r["Cache-Control"] == Values(h, "Cache-Control") + ["no-cache", "no-store", "must-revalidate"]
    ensures r["Expires"] == Values(h, "Expires") + ["0"]
    ensures forall k | k in h && k !in {"Pragma", "Cache-Control", "Expires"} :: r[k] == h[k]
  {
    r := Add(h, "Pragma", "no-cache");
    r := Add(r, "Cache-Control", "no-cache");
    r := Add(r, "Cache-Control", "no-store");
    r := Add(r, "Cache-Control", "must-revalidate");
    r := Add(r, "Expires", "0");
  }

  /** A request without headers of its own carries exactly the three no-cache headers. */
  method NoCacheOnEmpty() returns (r: Header)
    ensures r == map["Pragma" := ["no-cache"],
                     "Cache-Control" := ["no-cache", "no-store", "must-revalidate"],
                     "Expires" := ["0"]]
  {
    r := AddNoCacheHeaders(map[]);
    var expected := map["Pragma" := ["no-cache"],
                        "Cache-Control" := ["no-cache", "no-store", "must-revalidate"],
                        "Expires" := ["0"]];
    assert r.Keys == expected.Keys;
    assert r["Pragma"] == [] + ["no-cache"] == expected["Pragma"];
    assert r["Cache-Control"] == [] + ["no-cache", "no-store", "must-revalidate"] == expected["Cache-Control"];
    assert r["Expires"] == [] + ["0"] == expected["Expires"];
  }

  // ---------------------------------------------------------------------------
  // Counting the body: Start, io.Copy through the collector, Stop
  // ---------------------------------------------------------------------------

  /** The total size of the chunks the body arrives in. */
  function BodyLength(chunks: seq<seq<bv8>>): nat
  {
    if chunks == [] then 0 else BodyLength(chunks[..|chunks| - 1]) + |chunks[|chunks| - 1]|
  }

  /** One clock reading per chunk, and every chunk a non-empty `int`-sized
      slice: `io.TeeReader` passes a read on to `Write` only when it returned
      at least one byte. */
  predicate ChunksFit(chunks: seq<seq<bv8>>, secs: seq<Int64>)
  {
    |secs| == |chunks| && forall i | 0 <= i < |chunks| :: 0 < |chunks[i]| < TWO_63
  }

  /** The collector after `Write` was called on each chunk in turn, chunk `i`
      at clock second `secs[i]`. */
  function Copied(s: Snapshot, chunks: seq<seq<bv8>>, secs: seq<Int64>): Snapshot
    requires ChunksFit(chunks, secs)
  {
    if chunks == [] then s
    else
      var n := |chunks| - 1;
      Written(Copied(s, chunks[..n], secs[..n]), |chunks[n]|, secs[n])
  }

  /** Copying a body adds its length to the byte total, modulo 2^64, keeps
      the per-second accounting consistent with it, and changes nothing but
      the byte counters. */
  lemma {:induction false} CopiedCounts(s: Snapshot, chunks: seq<seq<bv8>>, secs: seq<Int64>)
    requires ChunksFit(chunks, secs)
    ensures Copied(s, chunks, secs).TotalBytes == (s.TotalBytes + BodyLength(chunks)) % TWO_64
    ensures BytesAccounted(s) ==> BytesAccounted(Copied(s, chunks, secs))
    ensures Copied(s, chunks, secs).(TotalBytes := s.TotalBytes, CurrentSecond := s.CurrentSecond,
              CurrentSecBytes := s.CurrentSecBytes, PerSecond := s.PerSecond) == s
  {
    if chunks != [] {
      var n := |chunks| - 1;
      var prev := Copied(s, chunks[..n], secs[..n]);
      CopiedCounts(s, chunks[..n], secs[..n]);
      ModAddRight(|chunks[n]|, s.TotalBytes + BodyLength(chunks[..n]));
      if BytesAccounted(s) {
        WrittenKeepsAccounting(prev, |chunks[n]|, secs[n]);
      }
    }
  }

  /** `Start`, the copy of the body through the collector, `Stop`. */
  method Download(c: StatsCollector, chunks: seq<seq<bv8>>, secs: seq<Int64>, start: Int64, stop: Int64)
    requires c.Valid()
    requires ChunksFit(chunks, secs)
    modifies c
    ensures c.Valid()
    ensures c.Freeze() == Copied(old(c.Freeze()).(StartTime := start), chunks, secs).(EndTime := stop)
    ensures c.TotalBytesTransferred() == (old(c.TotalBytes) + BodyLength(chunks)) % TWO_64
    ensures 0 <= start <= stop ==> c.DurationNS() == stop - start
  {
    c.Start(start);
    ghost var started := c.Freeze();
    for i := 0 to |chunks|
      invariant c.Valid()
      invariant c.Freeze() == Copied(started, chunks[..i], secs[..i])
    {
      assert chunks[..i + 1][..i] == chunks[..i] && secs[..i + 1][..i] == secs[..i];
      var n, err := c.Write(chunks[i], secs[i]);
    }
    assert chunks[..|chunks|] == chunks && secs[..|secs|] == secs;
    CopiedCounts(started, chunks, secs);
    c.Stop(stop);
  }

  // ---------------------------------------------------------------------------
  // -reporters a,b,c
  // ---------------------------------------------------------------------------

  /** What the program prints for one requested name. */
  datatype Outcome =
    | Unknown(name: string)
    | Failed(name: string, error: string)
    | Reported(name: string, title: string, description: string, table: Table)

  /** `o` is what running the reporter registered as `name` on `s` can print. */
  ghost predicate OutcomeOf(name: string, s: Snapshot, o: Outcome)
  {
    if name !in Registry then o == Unknown(name)
    else
      var rep := Registry[name];
      && rep.Ready(s)
      && o.name == name
      && match o
         case Unknown(_) => false
         case Failed(_, e) => rep.Reports(s, Failure(e))
         case Reported(_, t, d, tab) => t == rep.Title() && d == rep.Description() && rep.Reports(s, Success(tab))
  }

  /** The names of the outcomes, in order. */
  function Names(outcomes: seq<Outcome>): (names: seq<string>)
    ensures |names| == |outcomes|
    ensures forall i | 0 <= i < |outcomes| :: names[i] == outcomes[i].name
  {
    seq(|outcomes|, i requires 0 <= i < |outcomes| => outcomes[i].name)
  }

  /** Runs the reporter registered as `name`, or notes that there is none. */
  method RunReporter(name: string, s: Snapshot) returns (o: Outcome)
    requires name in Registry ==> Registry[name].Ready(s)
    ensures o.name == name
    ensures OutcomeOf(name, s, o)
  {
    if name in Registry {
      var rep := Registry[name];
      var result := rep.Report(s);
      if result.Success? {
        o := Reported(name, rep.Title(), rep.Description(), result.value);
      } else {
        o := Failed(name, result.error);
      }
    } else {
      o := Unknown(name);
    }
  }

  /** Runs each comma-separated reporter name in order; an unknown name is
      reported and skipped, a failing reporter does not stop the others, and
      an empty list runs nothing. */
  method Dispatch(reporters: string, s: Snapshot) returns (outcomes: seq<Outcome>)
    requires forall p | p in Split(reporters, ',') && p in Registry :: Registry[p].Ready(s)
    ensures reporters == "" ==> outcomes == []
    ensures reporters != "" ==> |outcomes| == |Split(reporters, ',')|
    ensures reporters != "" ==> forall i | 0 <= i < |outcomes| :: OutcomeOf(Split(reporters, ',')[i], s, outcomes[i])
    ensures reporters != "" ==> Join(Names(outcomes), ",") == reporters
    ensures forall i | 0 <= i < |outcomes| :: ',' !in outcomes[i].name
  {
    outcomes := [];
    if reporters == "" {
      return;
    }
    var requested := Split(reporters, ',');
    for i := 0 to |requested|
      invariant |outcomes| == i
      invariant forall j | 0 <= j < i :: OutcomeOf(requested[j], s, outcomes[j])
      invariant forall j | 0 <= j < i :: outcomes[j].name == requested[j]
    {
      assert requested[i] in requested;
      var o := RunReporter(requested[i], s);
      outcomes := outcomes + [o];
    }
    NamesRequested(reporters, outcomes);
  }

  /** Outcomes named after the pieces of the request, in order, spell the
      request back and carry no comma in their names. */
  lemma NamesRequested(reporters: string, outcomes: seq<Outcome>)
    requires |outcomes| == |Split(reporters, ',')|
    requires forall j | 0 <= j < |outcomes| :: outcomes[j].name == Split(reporters, ',')[j]
    ensures Join(Names(outcomes), ",") == reporters
    ensures forall i | 0 <= i < |outcomes| :: ',' !in outcomes[i].name
  {
    var requested := Split(reporters, ',');
    assert Names(outcomes) == requested;
    JoinSplit(reporters, ',');
    SplitPieces(reporters, ',');
    forall i | 0 <= i < |outcomes| ensures ',' !in outcomes[i].name {
      assert requested[i] in requested;
    }
  }

  /** `-reporters Bogus,Connection`, for any unknown first name and any
      registered second one: the unknown name is noted and skipped, and the
      second reporter still runs and prints under its own title. */
  method DispatchExample(unknown: string, known: string, s: Snapshot) returns (outcomes: seq<Outcome>)
    requires unknown !in Registry && known in Registry && Registry[known].Ready(s)
    requires ',' !in unknown && ',' !in known
    ensures |outcomes| == 2
    ensures outcomes[0] == Unknown(unknown)
    ensures outcomes[1].name == known && !outcomes[1].Unknown?
    ensures outcomes[1].Reported? ==> outcomes[1].title == Registry[known].Title()
    ensures OutcomeOf(known, s, outcomes[1])
  {
    SplitPair(unknown, ',', known);
    outcomes := Dispatch(unknown + [','] + known, s);
    assert OutcomeOf(unknown, s, outcomes[0]);
    assert OutcomeOf(known, s, outcomes[1]);
  }
}
