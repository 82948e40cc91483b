/** Post-processing of a finished request: four reporters behind one
    interface, registered by name. A report is a table (a header line, rows of
    cells, and free-text lines printed after it) or an error. Table rendering
    is left to the caller; a duration cell holds integer nanoseconds. */
module Reporters {
  import opened GoTypes
  import opened Strings
  import opened Headers
  import opened Stats

  datatype Cell = Text(text: string) | Nanos(ns: int)

  type Row = seq<Cell>

  datatype Table = Table(header: seq<string>, rows: seq<Row>, notes: seq<string>)

  /** The `Reporter` interface; each constructor is one implementation. */
  datatype Reporter = ConnectionReporter | HeaderReporter | IpfsGwReporter | SaturnReporter
  {
    function Title(): string
    {
      match this
      case ConnectionReporter => "Session Establishment"
      case HeaderReporter => "Request and Response Headers"
      case IpfsGwReporter => "IPFS Gateway Path"
      case SaturnReporter => "Saturn CDN"
    }

    function Description(): string
    {
      match this
      case ConnectionReporter => "Shows the timing for various stages of establishment of a HTTP/HTTPS session"
      case HeaderReporter => "Shows Request and Response headers from a HTTP/HTTPS request"
      case IpfsGwReporter => "Shows Information about the path through the IPFS Gateway"
      case SaturnReporter => "Shows information about Saturn CDN, where applicable"
    }

    /** The snapshot lets `Report` run without a Go panic: the reporters that
        print the session addresses need them to be set once their header
        checks have passed. */
    predicate Ready(s: Snapshot)
    {
      match this
      case IpfsGwReporter => IpfsGwReady(s)
      case SaturnReporter => SaturnReady(s)
      case _ => true
    }

    /** `r` is an outcome this reporter can produce for `s`. */
    ghost predicate Reports(s: Snapshot, r: Result<Table, string>)
      requires Ready(s)
    {
      match this
      case ConnectionReporter => r == ConnectionReport(s)
      case HeaderReporter => r.Success? && HeaderTable(r.value, s)
      case IpfsGwReporter => r == IpfsGwReport(s)
      case SaturnReporter => r == SaturnReport(s)
    }

    method Report(s: Snapshot) returns (r: Result<Table, string>)
      requires Ready(s)
      ensures Reports(s, r)
    {
      match this
      case ConnectionReporter => r := ConnectionReport(s);
      case HeaderReporter =>
        var t := HeaderReport(s);
        r := Success(t);
      case IpfsGwReporter => r := IpfsGwReport(s);
      case SaturnReporter => r := SaturnReport(s);
    }
  }

  /** The reporters that can be asked for, by their case-sensitive names. */
  const Registry: map<string, Reporter> := map[
    "Connection" := ConnectionReporter,
    "Header" := HeaderReporter,
    "IPFSGW" := IpfsGwReporter,
    "Saturn" := SaturnReporter]

  /** Exactly four names are registered, each for a different reporter, and
      every reporter is registered. */
  lemma RegistryContents()
    ensures Registry.Keys == {"Connection", "Header", "IPFSGW", "Saturn"}
    ensures forall a, b | a in Registry && b in Registry && a != b :: Registry[a] != Registry[b]
    ensures forall r: Reporter :: r in Registry.Values
  {
    forall r: Reporter ensures r in Registry.Values {
      match r
      case ConnectionReporter => assert Registry["Connection"] == r;
      case HeaderReporter => assert Registry["Header"] == r;
      case IpfsGwReporter => assert Registry["IPFSGW"] == r;
      case SaturnReporter => assert Registry["Saturn"] == r;
    }
  }

  /** Every reporter has a title of its own. */
  lemma TitlesDistinct(a: Reporter, b: Reporter)
    requires a != b
    ensures a.Title() != b.Title()
  {
    var x, y := a.Title(), b.Title();
    assert x[|x| - 1] != y[|y| - 1];
  }

  /** The title and description each reporter is shown under. */
  lemma RegisteredTexts()
    ensures ConnectionReporter.Title() == "Session Establishment"
    ensures ConnectionReporter.Description() == "Shows the timing for various stages of establishment of a HTTP/HTTPS session"
    ensures HeaderReporter.Title() == "Request and Response Headers"
    ensures HeaderReporter.Description() == "Shows Request and Response headers from a HTTP/HTTPS request"
    ensures IpfsGwReporter.Title() == "IPFS Gateway Path"
    ensures IpfsGwReporter.Description() == "Shows Information about the path through the IPFS Gateway"
    ensures SaturnReporter.Title() == "Saturn CDN"
    ensures SaturnReporter.Description() == "Shows information about Saturn CDN, where applicable"
  {
  }

  // ---------------------------------------------------------------------------
  // ConnectionReporter
  // ---------------------------------------------------------------------------

  const ConnectionColumns: seq<string> := ["DNS Lookup", "Connection", "TLS", "Request", "First Byte"]

  /** `fmt`'s `%s` of a `[]net.IPAddr`: the elements in brackets, space-separated.
      `String` has a pointer receiver, so each element prints as the struct
      `{IP Zone}` (`{192.0.2.1 }` without a zone); `Dns.Addrs` holds those
      element forms. */
  function AddrList(addrs: seq<string>): string
  {
    "[" + Join(addrs, " ") + "]"
  }

  /** One row of five durations and one row of hints under them. It never
      fails: a phase that never ran leaves zero timestamps, and the duration
      computed from them is meaningless but still reported. */
  function ConnectionReport(s: Snapshot): (r: Result<Table, string>)
    ensures r.Success? && r.value.header == ConnectionColumns && r.value.notes == []
    ensures |r.value.rows| == 2
    ensures r.value.rows[0] == [
              Nanos(s.Dns.EndTime - s.Dns.StartTime),
              Nanos(s.Connection.EndTime - s.Connection.StartTime),
              Nanos(s.Tls.EndTime - s.Connection.StartTime),
              Nanos(s.Request.StartTime - s.Session.EndTime),
              Nanos(s.FirstByteTime - s.Request.StartTime)]
    ensures r.value.rows[1] == [
              Text(s.Dns.Host + "\n" + AddrList(s.Dns.Addrs)),
              Text(s.Connection.Address),
              Text("ver: " + Hex(s.Tls.Version) + "\nname: " + s.Tls.ServerName),
              Text(""),
              Text("")]
  {
    var data := [
      Nanos(s.Dns.EndTime - s.Dns.StartTime),
      Nanos(s.Connection.EndTime - s.Connection.StartTime),
      Nanos(s.Tls.EndTime - s.Connection.StartTime),
      Nanos(s.Request.StartTime - s.Session.EndTime),
      Nanos(s.FirstByteTime - s.Request.StartTime)];
    var hints := [
      Text(s.Dns.Host + "\n" + AddrList(s.Dns.Addrs)),
      Text(s.Connection.Address),
      Text("ver: " + Hex(s.Tls.Version) + "\nname: " + s.Tls.ServerName),
      Text(""),
      Text("")];
    Success(Table(ConnectionColumns, [data, hints], []))
  }

  // ---------------------------------------------------------------------------
  // HeaderReporter
  // ---------------------------------------------------------------------------

  const HeaderColumns: seq<string> := ["", "Key", "Value"]

  function HeaderRow(section: string, k: string, v: string): Row
  {
    [Text(section), Text(k), Text(v)]
  }

  /** The rows for one header: one per value, in the order of its values. */
  function KeyRows(section: string, k: string, vs: seq<string>): (rows: seq<Row>)
    ensures |rows| == |vs|
  {
    if vs == [] then [] else KeyRows(section, k, vs[..|vs| - 1]) + [HeaderRow(section, k, vs[|vs| - 1])]
  }

  /** The rows for the headers `keys` of `h`, visited in that order. */
  function Flatten(section: string, keys: seq<string>, h: Header): seq<Row>
  {
    if keys == [] then []
    else Flatten(section, keys[..|keys| - 1], h) + KeyRows(section, keys[|keys| - 1], Values(h, keys[|keys| - 1]))
  }

  /** Some order of the keys of a map: each key exactly once. */
  ghost function Enumerate(keys: set<string>): (r: seq<string>)
    ensures multiset(r) == multiset(keys)
  {
    if keys == {} then []
    else
      var k :| k in keys;
      var rest := Enumerate(keys - {k});
      assert multiset(keys) == multiset{k} + multiset(keys - {k});
      [k] + rest
  }

  /** The rows of one section of the header table, whatever order the map
      is iterated in. */
  ghost function Bag(section: string, h: Header): multiset<Row>
  {
    multiset(Flatten(section, Enumerate(h.Keys), h))
  }

  /** How many values the headers of `h` hold altogether. */
  ghost function ValueCount(h: Header): nat
  {
    |Bag("", h)|
  }

  lemma {:induction false} FlattenAppend(section: string, x: seq<string>, y: seq<string>, h: Header)
    ensures Flatten(section, x + y, h) == Flatten(section, x, h) + Flatten(section, y, h)
  {
    if y != [] {
      var y' := y[..|y| - 1];
      var last := y[|y| - 1];
      FlattenAppend(section, x, y', h);
      assert (x + y)[..|x + y| - 1] == x + y';
      assert (x + y)[|x + y| - 1] == last;
    } else {
      assert x + y == x;
    }
  }

  /** Taking one key out of the middle of a visit takes exactly its rows out. */
  lemma FlattenRemove(section: string, pre: seq<string>, k: string, post: seq<string>, h: Header)
    ensures multiset(Flatten(section, pre + [k] + post, h)) ==
              multiset(Flatten(section, pre + post, h)) + multiset(KeyRows(section, k, Values(h, k)))
  {
    FlattenAppend(section, pre, post, h);
    FlattenAppend(section, pre, [k], h);
    FlattenAppend(section, pre + [k], post, h);
    assert [k][..0] == [];
  }

  /** The multiset of rows does not depend on the order the keys are visited in. */
  lemma {:induction false} FlattenPermutation(section: string, a: seq<string>, b: seq<string>, h: Header)
    requires multiset(a) == multiset(b)
    ensures multiset(Flatten(section, a, h)) == multiset(Flatten(section, b, h))
  {
    if a != [] {
      var k := a[|a| - 1];
      var a' := a[..|a| - 1];
      assert a == a' + [k];
      assert k in multiset(b);
      var i :| 0 <= i < |b| && b[i] == k;
      var pre, post := b[..i], b[i + 1..];
      assert b == pre + [k] + post;
      assert multiset(pre + post) == multiset(b) - multiset{k};
      FlattenPermutation(section, a', pre + post, h);
      FlattenRemove(section, pre, k, post, h);
      FlattenRemove(section, a', k, [], h);
      assert a' + [k] + [] == a && a' + [] == a';
    } else {
      assert |b| == |multiset(b)| == 0;
    }
  }

  /** Any complete visit of the keys yields exactly the rows of `Bag`, and as
      many rows as there are values. */
  lemma FlattenIsBag(section: string, keys: seq<string>, h: Header)
    requires multiset(keys) == multiset(h.Keys)
    ensures multiset(Flatten(section, keys, h)) == Bag(section, h)
    ensures |Flatten(section, keys, h)| == ValueCount(h)
  {
    FlattenPermutation(section, keys, Enumerate(h.Keys), h);
    FlattenPermutation("", keys, Enumerate(h.Keys), h);
    FlattenLength(section, "", keys, h);
  }

  /** The number of values held under `keys`, one value list per key. */
  function ValuesTotal(h: Header, keys: seq<string>): nat
  {
    if keys == [] then 0 else ValuesTotal(h, keys[..|keys| - 1]) + |Values(h, keys[|keys| - 1])|
  }

  lemma {:induction false} FlattenValuesTotal(section: string, keys: seq<string>, h: Header)
    ensures |Flatten(section, keys, h)| == ValuesTotal(h, keys)
  {
    if keys != [] {
      FlattenValuesTotal(section, keys[..|keys| - 1], h);
    }
  }

  /** A section has one row per header value: whatever order the keys are
      visited in, the row count is the sum of the lengths of their value lists. */
  lemma ValueCountIsSum(h: Header, keys: seq<string>)
    requires multiset(keys) == multiset(h.Keys)
    ensures ValueCount(h) == ValuesTotal(h, keys)
  {
    FlattenIsBag("", keys, h);
    FlattenValuesTotal("", keys, h);
  }

  lemma {:induction false} FlattenLength(s1: string, s2: string, keys: seq<string>, h: Header)
    ensures |Flatten(s1, keys, h)| == |Flatten(s2, keys, h)|
  {
    if keys != [] {
      FlattenLength(s1, s2, keys[..|keys| - 1], h);
    }
  }

  lemma {:induction false} KeyRowsCount(section: string, k': string, vs: seq<string>, k: string, v: string)
    ensures multiset(KeyRows(section, k', vs))[HeaderRow(section, k, v)] ==
              if k' == k then multiset(vs)[v] else 0
  {
    if vs != [] {
      var last := vs[|vs| - 1];
      KeyRowsCount(section, k', vs[..|vs| - 1], k, v);
      assert vs == vs[..|vs| - 1] + [last];
      assert HeaderRow(section, k', last) == HeaderRow(section, k, v) <==> k' == k && last == v by {
        if HeaderRow(section, k', last) == HeaderRow(section, k, v) {
          assert HeaderRow(section, k', last)[1] == Text(k');
          assert HeaderRow(section, k', last)[2] == Text(last);
        }
      }
    }
  }

  lemma {:induction false} KeyRowsShape(section: string, k: string, vs: seq<string>)
    ensures forall r | r in KeyRows(section, k, vs) :: |r| == 3 && r[0] == Text(section)
  {
    if vs != [] {
      KeyRowsShape(section, k, vs[..|vs| - 1]);
    }
  }

  lemma {:induction false} FlattenShape(section: string, keys: seq<string>, h: Header)
    ensures forall r | r in Flatten(section, keys, h) :: |r| == 3 && r[0] == Text(section)
  {
    if keys != [] {
      var last := keys[|keys| - 1];
      FlattenShape(section, keys[..|keys| - 1], h);
      KeyRowsShape(section, last, Values(h, last));
    }
  }

  lemma {:induction false} FlattenCount(section: string, keys: seq<string>, h: Header, k: string, v: string)
    requires multiset(keys)[k] <= 1
    ensures multiset(Flatten(section, keys, h))[HeaderRow(section, k, v)] ==
              if k in keys then multiset(Values(h, k))[v] else 0
  {
    if keys != [] {
      var last := keys[|keys| - 1];
      var init := keys[..|keys| - 1];
      assert keys == init + [last];
      FlattenCount(section, init, h, k, v);
      KeyRowsCount(section, last, Values(h, last), k, v);
      assert last == k ==> k !in init;
    }
  }

  /** Exactly one row per header value: the row (section, k, v) occurs as many
      times as `v` occurs among the values of `k`. */
  lemma BagCount(section: string, h: Header, k: string, v: string)
    ensures Bag(section, h)[HeaderRow(section, k, v)] == multiset(Values(h, k))[v]
  {
    var e := Enumerate(h.Keys);
    FlattenCount(section, e, h, k, v);
    assert k in e <==> k in multiset(e);
  }

  /** Every row of a section has three cells, the first naming the section. */
  lemma SectionShape(rows: seq<Row>, section: string, h: Header)
    requires multiset(rows) == Bag(section, h)
    ensures forall i | 0 <= i < |rows| :: |rows[i]| == 3 && rows[i][0] == Text(section)
  {
    FlattenShape(section, Enumerate(h.Keys), h);
    forall i | 0 <= i < |rows| ensures |rows[i]| == 3 && rows[i][0] == Text(section) {
      assert rows[i] in multiset(rows);
    }
  }

  /** A row naming another section never occurs in this one. */
  lemma SectionExcludes(rows: seq<Row>, section: string, h: Header, other: string, k: string, v: string)
    requires multiset(rows) == Bag(section, h) && other != section
    ensures multiset(rows)[HeaderRow(other, k, v)] == 0
  {
    SectionShape(rows, section, h);
  }

  /** `keys` lists every key of `h` exactly once: one possible iteration order. */
  ghost predicate Visits(keys: seq<string>, h: Header)
  {
    multiset(keys) == multiset(h.Keys)
  }

  /** `rows` is what the nested loop emits for `h` under some iteration order:
      one block per key, holding its values in slice order. */
  ghost predicate SectionRows(rows: seq<Row>, section: string, h: Header)
  {
    exists keys | Visits(keys, h) :: rows == Flatten(section, keys, h)
  }

  /** Rows emitted under any iteration order are the section's bag, one per value. */
  lemma SectionRowsBag(rows: seq<Row>, section: string, h: Header)
    requires SectionRows(rows, section, h)
    ensures multiset(rows) == Bag(section, h)
    ensures |rows| == ValueCount(h)
  {
    var keys :| Visits(keys, h) && rows == Flatten(section, keys, h);
    FlattenIsBag(section, keys, h);
  }

  /** What the header report is, whatever order Go iterates the two maps in:
      the request rows first, then the response rows, each section being the
      rows of its map in some key order. */
  ghost predicate HeaderTable(t: Table, s: Snapshot)
  {
    var m := ValueCount(s.RequestHeaders);
    && t.header == HeaderColumns
    && t.notes == []
    && m <= |t.rows|
    && SectionRows(t.rows[..m], "Request", s.RequestHeaders)
    && SectionRows(t.rows[m..], "Response", s.ResponseHeaders)
  }

  lemma FlattenSnoc(section: string, keys: seq<string>, k: string, h: Header)
    ensures Flatten(section, keys + [k], h) == Flatten(section, keys, h) + KeyRows(section, k, Values(h, k))
  {
    assert (keys + [k])[..|keys|] == keys;
  }

  lemma KeyRowsSnoc(section: string, k: string, vs: seq<string>, j: nat)
    requires j < |vs|
    ensures KeyRows(section, k, vs[..j + 1]) == KeyRows(section, k, vs[..j]) + [HeaderRow(section, k, vs[j])]
  {
    assert vs[..j + 1][..j] == vs[..j];
  }

  lemma TakeKey(visited: seq<string>, remaining: set<string>, k: string)
    requires k in remaining
    ensures multiset(visited) + multiset(remaining) == multiset(visited + [k]) + multiset(remaining - {k})
  {
    assert multiset(remaining) == multiset(remaining - {k}) + multiset{k};
  }

  /** Appends one row per value of header `k`, in the order of its values. */
  method AppendKeyRows(rows: seq<Row>, section: string, k: string, values: seq<string>) returns (out: seq<Row>)
    ensures out == rows + KeyRows(section, k, values)
  {
    out := rows;
    for j := 0 to |values|
      invariant out == rows + KeyRows(section, k, values[..j])
    {
      KeyRowsSnoc(section, k, values, j);
      out := out + [HeaderRow(section, k, values[j])];
    }
    assert values[..|values|] == values;
  }

  /** Appends one row per value of every header of `h`, visiting the keys in
      an arbitrary order as Go's map iteration does. */
  method AppendHeaderRows(rows: seq<Row>, section: string, h: Header) returns (out: seq<Row>)
    ensures |out| == |rows| + ValueCount(h)
    ensures out[..|rows|] == rows
    ensures SectionRows(out[|rows|..], section, h)
    ensures multiset(out[|rows|..]) == Bag(section, h)
  {
    out := rows;
    ghost var visited: seq<string> := [];
    var remaining := h.Keys;
    while remaining != {}
      invariant remaining <= h.Keys
      invariant multiset(visited) + multiset(remaining) == multiset(h.Keys)
      invariant out == rows + Flatten(section, visited, h)
      decreases |remaining|
    {
      var k :| k in remaining;
      out := AppendKeyRows(out, section, k, Values(h, k));
      FlattenSnoc(section, visited, k, h);
      TakeKey(visited, remaining, k);
      visited := visited + [k];
      remaining := remaining - {k};
    }
    FlattenIsBag(section, visited, h);
    assert out[|rows|..] == Flatten(section, visited, h);
    assert Visits(visited, h);
  }

  /** All request header values, then all response header values, one row each. */
  method HeaderReport(s: Snapshot) returns (t: Table)
    ensures HeaderTable(t, s)
  {
    var rows := AppendHeaderRows([], "Request", s.RequestHeaders);
    var all := AppendHeaderRows(rows, "Response", s.ResponseHeaders);
    assert all[..|rows|] == rows;
    assert rows[0..] == rows;
    t := Table(HeaderColumns, all, []);
  }

  /** Read row by row: the first `ValueCount(request)` rows are request rows,
      the rest response rows. */
  lemma HeaderTableSections(t: Table, s: Snapshot)
    requires HeaderTable(t, s)
    ensures forall i | 0 <= i < ValueCount(s.RequestHeaders) :: |t.rows[i]| == 3 && t.rows[i][0] == Text("Request")
    ensures forall i | ValueCount(s.RequestHeaders) <= i < |t.rows| :: |t.rows[i]| == 3 && t.rows[i][0] == Text("Response")
  {
    var m := ValueCount(s.RequestHeaders);
    var req, resp := t.rows[..m], t.rows[m..];
    SectionRowsBag(req, "Request", s.RequestHeaders);
    SectionRowsBag(resp, "Response", s.ResponseHeaders);
    SectionShape(req, "Request", s.RequestHeaders);
    SectionShape(resp, "Response", s.ResponseHeaders);
    SlicesShape(t.rows, m, Text("Request"), Text("Response"));
  }

  lemma SlicesMultiset(rows: seq<Row>, m: nat)
    requires m <= |rows|
    ensures multiset(rows) == multiset(rows[..m]) + multiset(rows[m..])
  {
    assert rows == rows[..m] + rows[m..];
  }

  /** Shapes known of the two slices of `rows` at `m`, read back on `rows` itself. */
  lemma SlicesShape(rows: seq<Row>, m: nat, x: Cell, y: Cell)
    requires m <= |rows|
    requires forall i | 0 <= i < |rows[..m]| :: |rows[..m][i]| == 3 && rows[..m][i][0] == x
    requires forall i | 0 <= i < |rows[m..]| :: |rows[m..][i]| == 3 && rows[m..][i][0] == y
    ensures forall i | 0 <= i < m :: |rows[i]| == 3 && rows[i][0] == x
    ensures forall i | m <= i < |rows| :: |rows[i]| == 3 && rows[i][0] == y
  {
    forall i | 0 <= i < m ensures |rows[i]| == 3 && rows[i][0] == x {
      assert rows[i] == rows[..m][i];
    }
    forall i | m <= i < |rows| ensures |rows[i]| == 3 && rows[i][0] == y {
      assert rows[i] == rows[m..][i - m];
    }
  }

  /** The table holds (Request, k, v) as often as the request header `k`
      holds `v`, and likewise for responses: no value is lost or repeated. */
  lemma HeaderTableCounts(t: Table, s: Snapshot, k: string, v: string)
    requires HeaderTable(t, s)
    ensures multiset(t.rows)[HeaderRow("Request", k, v)] == multiset(Values(s.RequestHeaders, k))[v]
    ensures multiset(t.rows)[HeaderRow("Response", k, v)] == multiset(Values(s.ResponseHeaders, k))[v]
  {
    var m := ValueCount(s.RequestHeaders);
    var req, resp := t.rows[..m], t.rows[m..];
    SectionRowsBag(req, "Request", s.RequestHeaders);
    SectionRowsBag(resp, "Response", s.ResponseHeaders);
    SlicesMultiset(t.rows, m);
    BagCount("Request", s.RequestHeaders, k, v);
    BagCount("Response", s.ResponseHeaders, k, v);
    SectionExcludes(resp, "Response", s.ResponseHeaders, "Request", k, v);
    SectionExcludes(req, "Request", s.RequestHeaders, "Response", k, v);
  }

  /** Request headers {"A": ["1", "2"]} and no response headers give exactly
      the two request rows, in the order of A's values. */
  lemma HeaderTableExample(t: Table, s: Snapshot)
    requires HeaderTable(t, s)
    requires s.RequestHeaders == map["A" := ["1", "2"]] && s.ResponseHeaders == map[]
    ensures t.rows == [HeaderRow("Request", "A", "1"), HeaderRow("Request", "A", "2")]
  {
    var m := ValueCount(s.RequestHeaders);
    var kq :| Visits(kq, s.RequestHeaders) && t.rows[..m] == Flatten("Request", kq, s.RequestHeaders);
    var kr :| Visits(kr, s.ResponseHeaders) && t.rows[m..] == Flatten("Response", kr, s.ResponseHeaders);
    OnlyKey(kq, "A");
    assert kr == [] by {
      assert |kr| == |multiset(kr)| == 0;
    }
    ExampleRows(s.RequestHeaders);
    assert t.rows == t.rows[..m] + t.rows[m..];
  }

  /** The only way to visit a one-key map. */
  lemma OnlyKey(keys: seq<string>, k: string)
    requires multiset(keys) == multiset({k})
    ensures keys == [k]
  {
    assert |keys| == |multiset(keys)| == 1;
    assert keys[0] in multiset(keys);
  }

  lemma ExampleRows(h: Header)
    requires h == map["A" := ["1", "2"]]
    ensures Flatten("Request", ["A"], h) == [HeaderRow("Request", "A", "1"), HeaderRow("Request", "A", "2")]
  {
    FlattenSnoc("Request", [], "A", h);
    KeyRowsSnoc("Request", "A", ["1", "2"], 1);
    KeyRowsSnoc("Request", "A", ["1", "2"], 0);
  }

  // ---------------------------------------------------------------------------
  // IpfsGwReporter and SaturnReporter
  // ---------------------------------------------------------------------------

  const IpfsRequired: seq<string> := ["X-Ipfs-Lb-Pop", "X-Ipfs-Pop"]
  const IpfsColumns: seq<string> := ["Client", "Gateway", "Load Balancer", "IPFS Node"]
  const SaturnRequired: seq<string> := ["Saturn-Transfer-Id", "Saturn-Node-Id", "Saturn-Node-Version", "Saturn-Cache-Status"]
  const SaturnColumns: seq<string> := ["Client", "Transfer ID", "Saturn Node", "Saturn Node ID", "Node Version", "Cache Status"]

  /** The error of the IPFS gateway reporter for a missing header. */
  function IpfsMissing(name: string): string
  {
    "Header " + name + " is not present in response"
  }

  /** The error of the Saturn reporter for a missing header. */
  function SaturnMissing(name: string): string
  {
    "Header " + name + " not present in response"
  }

  /** The session addresses are set once the required headers are there:
      Go would panic calling `String()` on a nil `net.Addr`. */
  predicate IpfsGwReady(s: Snapshot)
  {
    FirstMissing(s.ResponseHeaders, IpfsRequired).None? ==> s.Session.Local.Some? && s.Session.Remote.Some?
  }

  predicate SaturnReady(s: Snapshot)
  {
    FirstMissing(s.ResponseHeaders, SaturnRequired).None? ==> s.Session.Local.Some? && s.Session.Remote.Some?
  }

  /** The client, the gateway, the load balancer's and the node's identity;
      plus a line with the cache status exactly when `X-Proxy-Cache` came
      back. Fails, naming the first of `X-Ipfs-Lb-Pop`, `X-Ipfs-Pop` that is
      missing. */
  function IpfsGwReport(s: Snapshot): (r: Result<Table, string>)
    requires IpfsGwReady(s)
    ensures r.Failure? <==> FirstMissing(s.ResponseHeaders, IpfsRequired).Some?
    ensures r.Failure? ==>
              r.error == IpfsMissing(FirstMissing(s.ResponseHeaders, IpfsRequired).value)
    ensures r.Success? <==> Present(s.ResponseHeaders, "X-Ipfs-Lb-Pop") && Present(s.ResponseHeaders, "X-Ipfs-Pop")
    ensures r.Success? ==> r.value.header == IpfsColumns && r.value.rows == [[
              Text(s.Session.Local.value), Text(s.Session.Remote.value),
              Text(s.ResponseHeaders["X-Ipfs-Lb-Pop"][0]), Text(s.ResponseHeaders["X-Ipfs-Pop"][0])]]
    ensures r.Success? ==> (r.value.notes != [] <==> Present(s.ResponseHeaders, "X-Proxy-Cache"))
    ensures r.Success? && Present(s.ResponseHeaders, "X-Proxy-Cache") ==>
              r.value.notes == ["The request was an IPFS gateway cache " + s.ResponseHeaders["X-Proxy-Cache"][0] + "\n"]
  {
    var h := s.ResponseHeaders;
    if !Present(h, "X-Ipfs-Lb-Pop") then
      FirstMissingAt(h, IpfsRequired, 0);
      Failure(IpfsMissing("X-Ipfs-Lb-Pop"))
    else if !Present(h, "X-Ipfs-Pop") then
      FirstMissingAt(h, IpfsRequired, 1);
      Failure(IpfsMissing("X-Ipfs-Pop"))
    else
      var row := [
        Text(s.Session.Local.value),
        Text(s.Session.Remote.value),
        Text(h["X-Ipfs-Lb-Pop"][0]),
        Text(h["X-Ipfs-Pop"][0])];
      var cache := if Present(h, "X-Proxy-Cache")
        then ["The request was an IPFS gateway cache " + h["X-Proxy-Cache"][0] + "\n"]
        else [];
      Success(Table(IpfsColumns, [row], cache))
  }

  /** The client, transfer id, node address, node id, node version and cache
      status. Fails, naming the first missing of `Saturn-Transfer-Id`,
      `Saturn-Node-Id`, `Saturn-Node-Version`, `Saturn-Cache-Status`. */
  function SaturnReport(s: Snapshot): (r: Result<Table, string>)
    requires SaturnReady(s)
    ensures r.Failure? <==> FirstMissing(s.ResponseHeaders, SaturnRequired).Some?
    ensures r.Failure? ==>
              r.error == SaturnMissing(FirstMissing(s.ResponseHeaders, SaturnRequired).value)
    ensures r.Success? <==> Present(s.ResponseHeaders, "Saturn-Transfer-Id") && Present(s.ResponseHeaders, "Saturn-Node-Id")
                            && Present(s.ResponseHeaders, "Saturn-Node-Version") && Present(s.ResponseHeaders, "Saturn-Cache-Status")
    ensures r.Success? ==> r.value.header == SaturnColumns && r.value.notes == [] && r.value.rows == [[
              Text(s.Session.Local.value),
              Text(s.ResponseHeaders["Saturn-Transfer-Id"][0]),
              Text(s.Session.Remote.value),
              Text(s.ResponseHeaders["Saturn-Node-Id"][0]),
              Text(s.ResponseHeaders["Saturn-Node-Version"][0]),
              Text(s.ResponseHeaders["Saturn-Cache-Status"][0])]]
  {
    var h := s.ResponseHeaders;
    if !Present(h, "Saturn-Transfer-Id") then
      FirstMissingAt(h, SaturnRequired, 0);
      Failure(SaturnMissing("Saturn-Transfer-Id"))
    else if !Present(h, "Saturn-Node-Id") then
      FirstMissingAt(h, SaturnRequired, 1);
      Failure(SaturnMissing("Saturn-Node-Id"))
    else if !Present(h, "Saturn-Node-Version") then
      FirstMissingAt(h, SaturnRequired, 2);
      Failure(SaturnMissing("Saturn-Node-Version"))
    else if !Present(h, "Saturn-Cache-Status") then
      FirstMissingAt(h, SaturnRequired, 3);
      Failure(SaturnMissing("Saturn-Cache-Status"))
    else
      Success(Table(SaturnColumns, [[
        Text(s.Session.Local.value),
        Text(h["Saturn-Transfer-Id"][0]),
        Text(s.Session.Remote.value),
        Text(h["Saturn-Node-Id"][0]),
        Text(h["Saturn-Node-Version"][0]),
        Text(h["Saturn-Cache-Status"][0])]], []))
  }
}
