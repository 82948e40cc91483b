/** The per-request trace collector: lifecycle hooks stamp each phase with
    the time they are called at, and the collector doubles as the byte sink
    that the response body streams through. Clock readings are parameters:
    `now` is `time.Now().UnixNano()`, `sec` is `time.Now().Unix()`. */
module Stats {
  import opened GoTypes
  import opened Headers

  /** The DNS lookup before connecting. */
  datatype DnsPhase = DnsPhase(StartTime: Int64, EndTime: Int64, Host: string, Addrs: seq<string>)

  /** The TLS handshake, if there was one. */
  datatype TlsPhase = TlsPhase(StartTime: Int64, EndTime: Int64, Version: Uint16, ServerName: string, CipherSuite: Uint16)

  /** The TCP connect; `Error` is the dial error, or `None`. */
  datatype ConnectionPhase = ConnectionPhase(StartTime: Int64, EndTime: Int64, Protocol: string, Address: string, Error: Option<string>)

  /** Acquiring a connection: DNS, TCP and TLS together. `Local` and `Remote`
      are the `String()` forms of the two `net.Addr`s, or `None` while nil. */
  datatype SessionPhase = SessionPhase(StartTime: Int64, EndTime: Int64, HostPort: string, Local: Option<string>, Remote: Option<string>)

  /** Writing the request; `Error` is the write error, or `None`. */
  datatype RequestPhase = RequestPhase(StartTime: Int64, Error: Option<string>)

  /** Every field of a `StatsCollector`, as one value: what reporters are
      handed once the transfer is over. */
  datatype Snapshot = Snapshot(
    TotalBytes: Uint64,
    CurrentSecond: Int64,
    CurrentSecBytes: Uint64,
    PerSecond: seq<Uint64>,
    StartTime: Int64,
    EndTime: Int64,
    Dns: DnsPhase,
    Tls: TlsPhase,
    Connection: ConnectionPhase,
    Session: SessionPhase,
    Request: RequestPhase,
    FirstByteTime: Int64,
    RequestHeaders: Header,
    ResponseHeaders: Header)

  const NS_PER_SECOND: int := 1_000_000_000

  /** The zero value `StatsCollector{}`: every number 0, every string empty,
      every slice, map, address and error nil. */
  const Zero: Snapshot := Snapshot(
    0, 0, 0, [], 0, 0,
    DnsPhase(0, 0, "", []),
    TlsPhase(0, 0, 0, "", 0),
    ConnectionPhase(0, 0, "", "", None),
    SessionPhase(0, 0, "", None, None),
    RequestPhase(0, None),
    0, map[], map[])

  /** The sum of the flushed per-second byte counts. */
  function Sum(s: seq<Uint64>): nat
  {
    if s == [] then 0 else Sum(s[..|s| - 1]) + s[|s| - 1]
  }

  /** Byte accounting: the running total is the flushed buckets plus the
      current-second accumulator (all three counters are uint64, so modulo 2^64). */
  predicate BytesAccounted(s: Snapshot)
  {
    s.TotalBytes == (Sum(s.PerSecond) + s.CurrentSecBytes) % TWO_64
  }

  /** The session's two addresses are set together or not at all. */
  predicate AddrsPaired(s: Snapshot)
  {
    s.Session.Local.Some? <==> s.Session.Remote.Some?
  }

  predicate Consistent(s: Snapshot)
  {
    BytesAccounted(s) && AddrsPaired(s)
  }

  /** The bucketing step of `Write` at clock second `sec`: a later second
      closes the current bucket into the history and opens an empty one. */
  function Flushed(s: Snapshot, sec: Int64): Snapshot
  {
    if sec > s.CurrentSecond then
      s.(PerSecond := s.PerSecond + [s.CurrentSecBytes], CurrentSecBytes := 0, CurrentSecond := sec)
    else s
  }

  /** The collector after `Write` of `n` bytes at clock second `sec`. */
  function Written(s: Snapshot, n: Uint64, sec: Int64): (t: Snapshot)
    ensures t.TotalBytes == AddU64(s.TotalBytes, n)
    ensures s.TotalBytes + n < TWO_64 ==> t.TotalBytes == s.TotalBytes + n
    ensures sec > s.CurrentSecond ==>
              t.PerSecond == s.PerSecond + [s.CurrentSecBytes] && t.CurrentSecond == sec && t.CurrentSecBytes == n
    ensures sec <= s.CurrentSecond ==>
              t.PerSecond == s.PerSecond && t.CurrentSecond == s.CurrentSecond
              && t.CurrentSecBytes == AddU64(s.CurrentSecBytes, n)
    ensures t.(TotalBytes := s.TotalBytes, CurrentSecond := s.CurrentSecond,
               CurrentSecBytes := s.CurrentSecBytes, PerSecond := s.PerSecond) == s
  {
    var f := Flushed(s.(TotalBytes := AddU64(s.TotalBytes, n)), sec);
    f.(CurrentSecBytes := AddU64(f.CurrentSecBytes, n))
  }

  lemma SumAppend(s: seq<Uint64>, x: Uint64)
    ensures Sum(s + [x]) == Sum(s) + x
  {
    assert (s + [x])[..|s|] == s;
  }

  /** Adding to a total kept modulo 2^64 is adding to what it stands for. */
  lemma ModStep(total: int, parts: int, n: int)
    requires total == parts % TWO_64
    ensures (total + n) % TWO_64 == (parts + n) % TWO_64
  {
    ModAddRight(n, parts);
  }

  /** `Write` keeps the byte accounting: total == sum(PerSecond) + CurrentSecBytes. */
  lemma WrittenKeepsAccounting(s: Snapshot, n: Uint64, sec: Int64)
    requires BytesAccounted(s)
    ensures BytesAccounted(Written(s, n, sec))
  {
    if sec > s.CurrentSecond {
      FlushKeepsAccounting(s, n, sec);
    } else {
      AccumulateKeepsAccounting(s, n, sec);
    }
  }

  lemma FlushKeepsAccounting(s: Snapshot, n: Uint64, sec: Int64)
    requires BytesAccounted(s) && sec > s.CurrentSecond
    ensures BytesAccounted(Written(s, n, sec))
  {
    var t := Written(s, n, sec);
    ModStep(s.TotalBytes, Sum(s.PerSecond) + s.CurrentSecBytes, n);
    SumAppend(s.PerSecond, s.CurrentSecBytes);
    assert Sum(t.PerSecond) + t.CurrentSecBytes == Sum(s.PerSecond) + s.CurrentSecBytes + n;
  }

  lemma AccumulateKeepsAccounting(s: Snapshot, n: Uint64, sec: Int64)
    requires BytesAccounted(s) && sec <= s.CurrentSecond
    ensures BytesAccounted(Written(s, n, sec))
  {
    var sum, cur := Sum(s.PerSecond), s.CurrentSecBytes;
    ModStep(s.TotalBytes, sum + cur, n);
    ModAddRight(sum, cur + n);
  }

  /** Only a later clock second closes a bucket: a clock that stands still or
      goes backwards adds to the current one, and the history only ever grows
      by the closed bucket, never loses one. */
  lemma HistoryOnlyGrows(s: Snapshot, n: Uint64, sec: Int64)
    ensures |Written(s, n, sec).PerSecond| == |s.PerSecond| + (if sec > s.CurrentSecond then 1 else 0)
    ensures Written(s, n, sec).PerSecond[..|s.PerSecond|] == s.PerSecond
  {
    var t := Written(s, n, sec);
    if sec > s.CurrentSecond {
      assert t.PerSecond == s.PerSecond + [s.CurrentSecBytes];
    }
  }

  class StatsCollector {
    var TotalBytes: Uint64
    var CurrentSecond: Int64
    var CurrentSecBytes: Uint64
    var PerSecond: seq<Uint64>
    var StartTime: Int64
    var EndTime: Int64
    var Dns: DnsPhase
    var Tls: TlsPhase
    var Connection: ConnectionPhase
    var Session: SessionPhase
    var Request: RequestPhase
    var FirstByteTime: Int64
    var RequestHeaders: Header
    var ResponseHeaders: Header

    /** The collector's fields as one value. */
    function Freeze(): Snapshot
      reads this
    {
      Snapshot(TotalBytes, CurrentSecond, CurrentSecBytes, PerSecond, StartTime, EndTime,
               Dns, Tls, Connection, Session, Request, FirstByteTime, RequestHeaders, ResponseHeaders)
    }

    ghost predicate Valid()
      reads this
    {
      Consistent(Freeze())
    }

    /** `&StatsCollector{}`. */
    constructor ()
      ensures Valid()
      ensures Freeze() == Zero
    {
      TotalBytes, CurrentSecond, CurrentSecBytes, PerSecond := 0, 0, 0, [];
      StartTime, EndTime := 0, 0;
      Dns := DnsPhase(0, 0, "", []);
      Tls := TlsPhase(0, 0, 0, "", 0);
      Connection := ConnectionPhase(0, 0, "", "", None);
      Session := SessionPhase(0, 0, "", None, None);
      Request := RequestPhase(0, None);
      FirstByteTime := 0;
      RequestHeaders, ResponseHeaders := map[], map[];
    }

    method SetRequestHeaders(h: Header)
      requires Valid()
      modifies this
      ensures Valid()
      ensures Freeze() == old(Freeze()).(RequestHeaders := h)
    {
      RequestHeaders := h;
    }

    method SetResponseHeaders(h: Header)
      requires Valid()
      modifies this
      ensures Valid()
      ensures Freeze() == old(Freeze()).(ResponseHeaders := h)
    {
      ResponseHeaders := h;
    }

    /** `io.Writer.Write`: counts the chunk `p`, read at clock second `sec`,
      and never fails. */
    method Write(p: seq<bv8>, sec: Int64) returns (n: int, err: Option<string>)
      requires Valid()
      requires |p| < TWO_63
      modifies this
      ensures Valid()
      ensures n == |p| && err == None
      ensures Freeze() == Written(old(Freeze()), |p|, sec)
    {
      ghost var before := Freeze();
      n := |p|;
      TotalBytes := AddU64(TotalBytes, n);
      if sec > CurrentSecond {
        PerSecond := PerSecond + [CurrentSecBytes];
        CurrentSecBytes := 0;
        CurrentSecond := sec;
      }
      assert Freeze() == Flushed(before.(TotalBytes := AddU64(before.TotalBytes, n)), sec);
      CurrentSecBytes := AddU64(CurrentSecBytes, n);
      err := None;
      assert Freeze() == Written(before, n, sec);
      WrittenKeepsAccounting(before, n, sec);
    }

    method StartDns(host: string, now: Int64)
      requires Valid()
      modifies this
      ensures Valid()
      ensures Freeze() == old(Freeze()).(Dns := old(Dns).(StartTime := now, Host := host))
    {
      Dns := Dns.(StartTime := now, Host := host);
    }

    method EndDns(addrs: seq<string>, now: Int64)
      requires Valid()
      modifies this
      ensures Valid()
      ensures Freeze() == old(Freeze()).(Dns := old(Dns).(EndTime := now, Addrs := addrs))
    {
      Dns := Dns.(EndTime := now, Addrs := addrs);
    }

    method WroteRequest(e: Option<string>, now: Int64)
      requires Valid()
      modifies this
      ensures Valid()
      ensures Freeze() == old(Freeze()).(Request := RequestPhase(now, e))
    {
      Request := Request.(StartTime := now, Error := e);
    }

    method StartConnect(network: string, addr: string, now: Int64)
      requires Valid()
      modifies this
      ensures Valid()
      ensures Freeze() == old(Freeze()).(Connection := old(Connection).(StartTime := now, Protocol := network, Address := addr))
    {
      Connection := Connection.(StartTime := now, Protocol := network, Address := addr);
    }

    /** Records the end of the connect, whether or not it failed: a dial
        error is stored, not raised. */
    method EndConnect(network: string, addr: string, err: Option<string>, now: Int64)
      requires Valid()
      modifies this
      ensures Valid()
      ensures Freeze() == old(Freeze()).(Connection := ConnectionPhase(old(Connection.StartTime), now, network, addr, err))
    {
      Connection := Connection.(EndTime := now, Protocol := network, Address := addr, Error := err);
    }

    method StartSession(hostPort: string, now: Int64)
      requires Valid()
      modifies this
      ensures Valid()
      ensures Freeze() == old(Freeze()).(Session := old(Session).(StartTime := now, HostPort := hostPort))
    {
      Session := Session.(StartTime := now, HostPort := hostPort);
    }

    /** Sets both session addresses at once. */
    method GotSession(local: string, remote: string, now: Int64)
      requires Valid()
      modifies this
      ensures Valid()
      ensures Session.Local == Some(local) && Session.Remote == Some(remote)
      ensures Freeze() == old(Freeze()).(Session := old(Session).(EndTime := now, Local := Some(local), Remote := Some(remote)))
    {
      Session := Session.(EndTime := now, Local := Some(local), Remote := Some(remote));
    }

    /** Stamps the first response byte and starts the byte-rate clock at the
        second that `now` falls in. */
    method FirstByteReceived(now: Int64)
      requires Valid()
      modifies this
      ensures Valid()
      ensures CurrentSecond * NS_PER_SECOND <= now < (CurrentSecond + 1) * NS_PER_SECOND
      ensures Freeze() == old(Freeze()).(FirstByteTime := now, CurrentSecond := CurrentSecond)
    {
      FirstByteTime := now;
      CurrentSecond := now / NS_PER_SECOND;
    }

    method StartTls(now: Int64)
      requires Valid()
      modifies this
      ensures Valid()
      ensures Freeze() == old(Freeze()).(Tls := old(Tls).(StartTime := now))
    {
      Tls := Tls.(StartTime := now);
    }

    method EndTls(v: Uint16, s: Uint16, n: string, now: Int64)
      requires Valid()
      modifies this
      ensures Valid()
      ensures Freeze() == old(Freeze()).(Tls := TlsPhase(old(Tls.StartTime), now, v, n, s))
    {
      Tls := Tls.(EndTime := now);
      Tls := Tls.(Version := v, CipherSuite := s, ServerName := n);
    }

    method Start(now: Int64)
      requires Valid()
      modifies this
      ensures Valid()
      ensures Freeze() == old(Freeze()).(StartTime := now)
    {
      StartTime := now;
    }

    method Stop(now: Int64)
      requires Valid()
      modifies this
      ensures Valid()
      ensures Freeze() == old(Freeze()).(EndTime := now)
    {
      EndTime := now;
    }

    /** `EndTime - StartTime` in int64 arithmetic: the exact, non-negative
        difference when `Stop` ran at or after `Start` on a post-1970 clock. */
    function DurationNS(): (d: Int64)
      reads this
      ensures 0 <= StartTime <= EndTime ==> d == EndTime - StartTime && d >= 0
      ensures -TWO_63 <= EndTime - StartTime < TWO_63 ==> d == EndTime - StartTime
      ensures (d - (EndTime - StartTime)) % TWO_64 == 0
    {
      SubI64(EndTime, StartTime)
    }

    /** The running byte total, which is the flushed buckets plus the
        current-second accumulator. */
    function TotalBytesTransferred(): (t: Uint64)
      reads this
      ensures Valid() ==> t == (Sum(PerSecond) + CurrentSecBytes) % TWO_64
    {
      TotalBytes
    }
  }

  /** Writes of 10, 20 and 30 bytes in the second of the first response byte
      accumulate 60 and flush nothing; a write in a later second then closes
      that bucket and starts the next one at its own size. */
  method ThroughputExample(first: Int64) returns (afterSameSecond: Snapshot, afterNextSecond: Snapshot)
    requires first < TWO_63 - NS_PER_SECOND
    ensures afterSameSecond.PerSecond == [] && afterSameSecond.CurrentSecBytes == 60
    ensures afterSameSecond.TotalBytes == 60
    ensures afterNextSecond.PerSecond == [60] && afterNextSecond.CurrentSecBytes == 5
    ensures afterNextSecond.TotalBytes == 65
  {
    var c := new StatsCollector();
    c.FirstByteReceived(first);
    var sec := c.CurrentSecond;
    var written, err := c.Write(seq(10, _ => 0), sec);
    written, err := c.Write(seq(20, _ => 0), sec);
    written, err := c.Write(seq(30, _ => 0), sec);
    afterSameSecond := c.Freeze();
    written, err := c.Write(seq(5, _ => 0), sec + 1);
    afterNextSecond := c.Freeze();
  }
}
