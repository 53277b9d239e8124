/** Reading a CONNECT request header from a socket, and forwarding what follows it
    (src-tauri/src/browser_proxy.rs, lines 139-229). Each successful `read` delivers a chunk of at
    most 2048 bytes; after the last chunk the read ends with end-of-stream, an I/O error or the
    header deadline. */
module ProxyHeader {
  import opened Basics
  import opened ConnectRequest
  import opened Utf8

  const HEADER_LIMIT: nat := 16 * 1024
  const BUFFER: nat := 2048

  datatype Failure = ReadFailed | Closed | LimitExceeded | NotUtf8 | TimedOut

  datatype Header = Header(text: seq<byte>, leftover: seq<byte>)

  const SEPARATOR: seq<byte> := [13, 10, 13, 10]

  /** CR LF CR LF stands at position `j`. */
  predicate At(s: seq<byte>, j: nat) {
    j + 4 <= |s| && s[j] == 13 && s[j + 1] == 10 && s[j + 2] == 13 && s[j + 3] == 10
  }

  function Search(s: seq<byte>, i: nat): (r: Option<nat>)
    ensures r.Some? ==> i <= r.value && At(s, r.value) && forall j :: i <= j < r.value ==> !At(s, j)
    ensures r.None? ==> forall j :: i <= j ==> !At(s, j)
    decreases Monus(|s|, i)
  {
    if i + 4 > |s| then None else if At(s, i) then Some(i) else Search(s, i + 1)
  }

  /** `windows(4).position(…)`: where the first separator begins. */
  function FirstBoundary(s: seq<byte>): (r: Option<nat>)
    ensures r.Some? ==> At(s, r.value)
  {
    Search(s, 0)
  }

  /** A separator stands at the boundary found and nowhere before it; if none is found, there is none. */
  lemma BoundaryMeaning(s: seq<byte>)
    ensures FirstBoundary(s).Some? <==> exists j: nat :: At(s, j)
    ensures FirstBoundary(s).Some? ==> forall j: nat :: At(s, j) ==> FirstBoundary(s).value <= j
  {
    if FirstBoundary(s).None? { assert forall j: nat :: !At(s, j); }
  }

  /** A separator that lies within a prefix is the stream's first exactly when it is the prefix's. */
  lemma BoundaryOfPrefix(p: seq<byte>, s: seq<byte>)
    requires p <= s
    ensures FirstBoundary(p).Some? ==> FirstBoundary(s) == FirstBoundary(p)
    ensures FirstBoundary(p).None? && FirstBoundary(s).Some? ==> FirstBoundary(s).value + 4 > |p|
  {
    hide Search;
    BoundaryMeaning(p);
    BoundaryMeaning(s);
    assert forall j: nat :: At(p, j) ==> At(s, j);
    assert forall j: nat :: At(s, j) && j + 4 <= |p| ==> At(p, j);
  }

  // ---------------------------------------------------------------------------------------
  // Chunks
  // ---------------------------------------------------------------------------------------

  type Chunks = seq<seq<byte>>

  /** What the first `n` reads delivered. */
  function Taken(chunks: Chunks, n: nat): seq<byte>
    requires n <= |chunks|
  {
    if n == 0 then [] else Taken(chunks, n - 1) + chunks[n - 1]
  }

  function Stream(chunks: Chunks): seq<byte> { Taken(chunks, |chunks|) }

  predicate ChunkOk(chunk: seq<byte>) { 0 < |chunk| <= BUFFER }

  /** A possible arrival: every read delivers at least one byte and at most a buffer full. */
  predicate Arrival(chunks: Chunks) { forall i :: 0 <= i < |chunks| ==> ChunkOk(chunks[i]) }

  ghost predicate ArrivalOf(chunks: Chunks, stream: seq<byte>) { Arrival(chunks) && Stream(chunks) == stream }

  lemma {:induction false} TakenGrows(chunks: Chunks, m: nat, n: nat)
    requires m <= n <= |chunks|
    ensures Taken(chunks, m) <= Taken(chunks, n)
  {
    if m < n { TakenGrows(chunks, m, n - 1); }
  }

  /** The number of reads, counting from `n`, after which at least `e` bytes have arrived. */
  function Reads(chunks: Chunks, e: nat, n: nat): (r: nat)
    requires n <= |chunks|
    ensures n <= r <= |chunks|
    decreases |chunks| - n
  {
    if |Taken(chunks, n)| >= e || n == |chunks| then n else Reads(chunks, e, n + 1)
  }

  /** They suffice, unless the stream is too short, and one fewer does not. */
  lemma {:induction false} ReadsMeaning(chunks: Chunks, e: nat, n: nat)
    requires n <= |chunks|
    ensures |Taken(chunks, Reads(chunks, e, n))| >= e || Reads(chunks, e, n) == |chunks|
    ensures Reads(chunks, e, n) > n ==> |Taken(chunks, Reads(chunks, e, n) - 1)| < e
    decreases |chunks| - n
  {
    hide Taken;
    if |Taken(chunks, n)| < e && n < |chunks| { ReadsMeaning(chunks, e, n + 1); }
  }

  // ---------------------------------------------------------------------------------------
  // The header read
  // ---------------------------------------------------------------------------------------

  /** The result, told from the whole stream: only the number of bytes held when the separator is
      complete depends on how the stream was cut. */
  function Outcome(chunks: Chunks, ending: Failure): Result<Header, Failure> {
    var stream := Stream(chunks);
    match FirstBoundary(stream)
    case None => Err(if |stream| > HEADER_LIMIT then LimitExceeded else ending)
    case Some(b) =>
      var got := Taken(chunks, Reads(chunks, b + 4, 0));
      ReadsMeaning(chunks, b + 4, 0);
      if |got| > HEADER_LIMIT then Err(LimitExceeded)
      else if !ValidUtf8(stream[..b]) then Err(NotUtf8)
      else Ok(Header(stream[..b], got[b + 4..]))
  }

  lemma {:induction false} ReadsFrom(chunks: Chunks, e: nat, n: nat)
    requires n <= |chunks| && (n > 0 ==> |Taken(chunks, n - 1)| < e)
    ensures Reads(chunks, e, 0) == Reads(chunks, e, n)
  {
    hide Taken;
    if n > 0 {
      if n > 1 { TakenGrows(chunks, n - 2, n - 1); }
      ReadsFrom(chunks, e, n - 1);
    }
  }

  /** The limit is reached before a separator was seen. */
  lemma OverLimit(chunks: Chunks, ending: Failure, n: nat)
    requires n < |chunks| && FirstBoundary(Taken(chunks, n)).None? && |Taken(chunks, n + 1)| > HEADER_LIMIT
    ensures Outcome(chunks, ending) == Err(LimitExceeded)
  {
    hide FirstBoundary, ValidUtf8, Taken, Reads;
    var stream := Stream(chunks);
    TakenGrows(chunks, n, |chunks|);
    TakenGrows(chunks, n + 1, |chunks|);
    BoundaryOfPrefix(Taken(chunks, n), stream);
    if FirstBoundary(stream).Some? {
      var e := FirstBoundary(stream).value + 4;
      ReadsFrom(chunks, e, n + 1);
      TakenGrows(chunks, n + 1, Reads(chunks, e, n + 1));
    }
  }

  /** The separator is completed by read number `n`. */
  lemma BoundaryFound(chunks: Chunks, n: nat)
    requires n < |chunks| && FirstBoundary(Taken(chunks, n)).None? && FirstBoundary(Taken(chunks, n + 1)).Some?
    ensures var found := FirstBoundary(Taken(chunks, n + 1));
      && FirstBoundary(Stream(chunks)) == found
      && Reads(chunks, found.value + 4, 0) == n + 1
      && found.value + 4 <= |Taken(chunks, n + 1)|
      && Stream(chunks)[..found.value] == Taken(chunks, n + 1)[..found.value]
  {
    hide FirstBoundary, Taken;
    var b := FirstBoundary(Taken(chunks, n + 1)).value;
    TakenGrows(chunks, n, n + 1);
    TakenGrows(chunks, n + 1, |chunks|);
    BoundaryOfPrefix(Taken(chunks, n), Taken(chunks, n + 1));
    BoundaryOfPrefix(Taken(chunks, n + 1), Stream(chunks));
    ReadsFrom(chunks, b + 4, n + 1);
  }

  /** `read_proxy_header`. `used` is the number of reads that delivered bytes. */
  method ReadProxyHeader(chunks: Chunks, ending: Failure) returns (r: Result<Header, Failure>, used: nat)
    requires Arrival(chunks)
    ensures r == Outcome(chunks, ending)
    ensures used <= |chunks|
    ensures r.Ok? ==> r.value.text + SEPARATOR + r.value.leftover == Taken(chunks, used)
  {
    hide FirstBoundary, ValidUtf8, Reads;
    var bytes: seq<byte>, n: nat := [], 0;
    while n < |chunks|
      invariant n <= |chunks|
      invariant bytes == Taken(chunks, n) && |bytes| <= HEADER_LIMIT
      invariant FirstBoundary(bytes).None?
    {
      bytes := bytes + chunks[n];
      if |bytes| > HEADER_LIMIT {
        OverLimit(chunks, ending, n);
        return Err(LimitExceeded), n + 1;
      }
      var boundary := FirstBoundary(bytes);
      if boundary.Some? {
        BoundaryFound(chunks, n);
        var b := boundary.value;
        if !ValidUtf8(bytes[..b]) { return Err(NotUtf8), n + 1; }
        SplitAtBoundary(bytes, b);
        return Ok(Header(bytes[..b], bytes[b + 4..])), n + 1;
      }
      n := n + 1;
    }
    return Err(ending), n;
  }

  lemma SplitAtBoundary(s: seq<byte>, b: nat)
    requires At(s, b)
    ensures s[..b] + SEPARATOR + s[b + 4..] == s
  {
    assert s[b..b + 4] == SEPARATOR;
    assert s == s[..b] + s[b..b + 4] + s[b + 4..];
  }

  // ---------------------------------------------------------------------------------------
  // What does not depend on the cutting
  // ---------------------------------------------------------------------------------------

  /** The bytes of chunks `m` onwards. */
  function Remaining(chunks: Chunks, m: nat): seq<byte>
    requires m <= |chunks|
    decreases |chunks| - m
  {
    if m == |chunks| then [] else chunks[m] + Remaining(chunks, m + 1)
  }

  lemma {:induction false} TakenThenRemaining(chunks: Chunks, m: nat)
    requires m <= |chunks|
    ensures Taken(chunks, m) + Remaining(chunks, m) == Stream(chunks)
    decreases |chunks| - m
  {
    if m < |chunks| {
      TakenThenRemaining(chunks, m + 1);
      assert Taken(chunks, m) + Remaining(chunks, m) == Taken(chunks, m + 1) + Remaining(chunks, m + 1);
    }
  }

  /** A successful read returns what precedes the stream's first separator, holds exactly the bytes of
      the reads it made, and its leftover followed by the unread rest is all that comes after the
      separator. */
  lemma SuccessSplitsStream(chunks: Chunks, ending: Failure)
    requires Outcome(chunks, ending).Ok?
    ensures var (h, s) := (Outcome(chunks, ending).value, Stream(chunks));
      var used := Reads(chunks, |h.text| + 4, 0);
      && FirstBoundary(s) == Some(|h.text|)
      && h.text + SEPARATOR + h.leftover == Taken(chunks, used)
      && h.text + SEPARATOR + h.leftover + Remaining(chunks, used) == s
      && h.leftover + Remaining(chunks, used) == s[|h.text| + 4..]
  {
    hide FirstBoundary, ValidUtf8, Taken, Reads;
    var s := Stream(chunks);
    var b := FirstBoundary(s).value;
    var used := Reads(chunks, b + 4, 0);
    var got := Taken(chunks, used);
    TakenGrows(chunks, used, |chunks|);
    ReadsMeaning(chunks, b + 4, 0);
    assert At(got, b);
    SplitAtBoundary(got, b);
    SplitAtBoundary(s, b);
    TakenThenRemaining(chunks, used);
  }

  /** Any two successful reads of one stream agree on the header and on all that follows it. */
  lemma SuccessesAgree(a: Chunks, b: Chunks, e: Failure, f: Failure)
    requires Stream(a) == Stream(b) && Outcome(a, e).Ok? && Outcome(b, f).Ok?
    ensures var (g, h) := (Outcome(a, e).value, Outcome(b, f).value);
      && g.text == h.text
      && g.leftover + Remaining(a, Reads(a, |g.text| + 4, 0)) == h.leftover + Remaining(b, Reads(b, |h.text| + 4, 0))
  {
    hide FirstBoundary, ValidUtf8;
    SuccessSplitsStream(a, e);
    SuccessSplitsStream(b, f);
  }

  lemma TakenGrowsStrictly(chunks: Chunks, m: nat, n: nat)
    requires Arrival(chunks) && m < n <= |chunks|
    ensures |Taken(chunks, m)| < |Taken(chunks, n)|
  {
    TakenGrows(chunks, m, n - 1);
    assert ChunkOk(chunks[n - 1]);
  }

  /** Nonempty chunks make the number of reads a function of the bytes read. */
  lemma UsedIsReads(chunks: Chunks, m: nat, n: nat)
    requires Arrival(chunks) && m <= |chunks| && n <= |chunks| && Taken(chunks, m) == Taken(chunks, n)
    ensures m == n
  {
    if m < n { TakenGrowsStrictly(chunks, m, n); }
    if n < m { TakenGrowsStrictly(chunks, n, m); }
  }

  lemma ReadThenRest(chunks: Chunks, ending: Failure, used: nat)
    requires Arrival(chunks) && Outcome(chunks, ending).Ok? && used <= |chunks|
    requires var h := Outcome(chunks, ending).value; h.text + SEPARATOR + h.leftover == Taken(chunks, used)
    ensures var h := Outcome(chunks, ending).value;
      |h.text| + 4 <= |Stream(chunks)| && h.leftover + Remaining(chunks, used) == Stream(chunks)[|h.text| + 4..]
  {
    hide Outcome, Taken, Remaining, Reads;
    SuccessSplitsStream(chunks, ending);
    var h := Outcome(chunks, ending).value;
    UsedIsReads(chunks, used, Reads(chunks, |h.text| + 4, 0));
  }

  /** The tunnel: the leftover, then up to `relayed` chunks as they come (lines 178-196). */
  method Relay(chunks: Chunks, used: nat, leftover: seq<byte>, relayed: nat) returns (upstream: seq<byte>)
    requires used <= |chunks|
    ensures leftover <= upstream <= leftover + Remaining(chunks, used)
    ensures relayed >= |chunks| ==> upstream == leftover + Remaining(chunks, used)
  {
    upstream := leftover;
    var next := used;
    while next < |chunks| && next - used < relayed
      invariant used <= next <= |chunks|
      invariant upstream + Remaining(chunks, next) == leftover + Remaining(chunks, used)
      invariant leftover <= upstream
    {
      assert upstream + Remaining(chunks, next) == upstream + chunks[next] + Remaining(chunks, next + 1);
      upstream := upstream + chunks[next];
      next := next + 1;
    }
  }

  /** What comes back is the reply stream itself. */
  lemma RepliesAreTheStream(replies: Chunks)
    ensures Remaining(replies, 0) == Stream(replies)
  {
    TakenThenRemaining(replies, 0);
    assert Taken(replies, 0) == [];
  }

  function Forbidden(): seq<byte> {
    Ascii("HTTP/1.1 403 Forbidden\r\nContent-Length: 0\r\nConnection: close\r\n\r\n")
  }

  function Established(): seq<byte> {
    Ascii("HTTP/1.1 200 Connection Established\r\nProxy-Agent: OOMU-Native-Boundary\r\n\r\n")
  }

  /** The destination a header is approved for (lines 145-167). */
  method Approve(header: seq<byte>, destinations: seq<Destination>) returns (found: Option<Destination>)
    ensures found.Some? <==> Approved(header, destinations)
    ensures found.Some? ==>
      && found.value in destinations
      && Authority(found.value) == LowerBytes(ConnectRequest.Words(FirstLine(header).value)[1])
  {
    hide Words, LineFeed, Listed, Authority, LowerBytes;
    found := None;
    var line := FirstLine(header);
    if line.None? { return; }
    var words := ConnectRequest.Words(line.value);
    if |words| == 3 && words[0] == CONNECT && (words[2] == HTTP_1_1 || words[2] == HTTP_1_0) {
      FindsListed(words[1], destinations);
      var i := FirstListed(words[1], destinations, 0);
      if i.Some? { found := Some(destinations[i.value]); }
    }
  }

  /** `handle_browser_proxy_connection`. A request for an approved destination opens a tunnel to it if it
      can be revalidated and dialled. Upstream goes the leftover first and then `sent` further chunks; the
      client gets the handshake first and then `returned` chunks of the reply, until the tunnel closes. */
  method HandleConnection(
      chunks: Chunks, ending: Failure, destinations: seq<Destination>, reachable: Destination -> bool,
      replies: Chunks, sent: nat, returned: nat)
    returns (dialled: Option<Destination>, upstream: seq<byte>, client: seq<byte>)
    requires Arrival(chunks)
    ensures var o := Outcome(chunks, ending);
      && (dialled.Some? <==> o.Ok? && Approved(o.value.text, destinations))
      && (dialled.Some? ==>
            && dialled.value in destinations
            && Authority(dialled.value) == LowerBytes(ConnectRequest.Words(FirstLine(o.value.text).value)[1]))
    ensures var o := Outcome(chunks, ending);
      if dialled.Some? && reachable(dialled.value) then
        var after := Stream(chunks)[|o.value.text| + 4..];
        && upstream <= after && |o.value.leftover| <= |upstream| && (sent >= |chunks| ==> upstream == after)
        && Established() <= client <= Established() + Stream(replies)
        && (returned >= |replies| ==> client == Established() + Stream(replies))
      else
        && upstream == []
        && client == if o.Ok? && o.value.text != [] && dialled.None? then Forbidden() else []
  {
    hide Outcome, Taken, Remaining, Words, LineFeed, Listed, Approved, Ascii;
    dialled, upstream, client := None, [], [];
    var r, used := ReadProxyHeader(chunks, ending);
    if r.Err? { return; }
    dialled := Approve(r.value.text, destinations);
    if dialled.None? {
      if r.value.text != [] { client := Forbidden(); }
      return;
    }
    if !reachable(dialled.value) { return; }
    ReadThenRest(chunks, ending, used);
    upstream := Relay(chunks, used, r.value.leftover, sent);
    RepliesAreTheStream(replies);
    client := Relay(replies, 0, Established(), returned);
  }

  // ---------------------------------------------------------------------------------------
  // When success depends on the cutting
  // ---------------------------------------------------------------------------------------

  /** Where chunk `i` begins when all chunks are single bytes but that of `size` bytes at `from`. */
  function Start(from: nat, size: nat, i: nat): nat
    requires size > 0
  {
    if i <= from then i else i + size - 1
  }

  /** `stream` cut into single bytes, except that `size` bytes starting at `from` arrive at once. */
  function Cut(stream: seq<byte>, from: nat, size: nat): (chunks: Chunks)
    requires size > 0 && from + size <= |stream|
    ensures |chunks| == |stream| - size + 1
  {
    seq(|stream| - size + 1, i requires 0 <= i < |stream| - size + 1 =>
      stream[Start(from, size, i)..Start(from, size, i + 1)])
  }

  lemma CutChunk(stream: seq<byte>, from: nat, size: nat, i: nat)
    requires size > 0 && from + size <= |stream| && i < |stream| - size + 1
    ensures Cut(stream, from, size)[i] == stream[Start(from, size, i)..Start(from, size, i + 1)]
  {
  }

  lemma {:induction false} CutTaken(stream: seq<byte>, from: nat, size: nat, n: nat)
    requires size > 0 && from + size <= |stream| && n <= |stream| - size + 1
    ensures Taken(Cut(stream, from, size), n) == stream[..Start(from, size, n)]
  {
    hide Cut;
    if n > 0 {
      CutTaken(stream, from, size, n - 1);
      CutChunk(stream, from, size, n - 1);
      var p, q := Start(from, size, n - 1), Start(from, size, n);
      assert stream[..p] + stream[p..q] == stream[..q];
    }
  }

  /** Cutting is an arrival of the stream, and after the chunk at `from` exactly `from + size` bytes
      have been read. */
  lemma CutArrives(stream: seq<byte>, from: nat, size: nat)
    requires 0 < size <= BUFFER && from + size <= |stream|
    ensures ArrivalOf(Cut(stream, from, size), stream)
    ensures Taken(Cut(stream, from, size), Reads(Cut(stream, from, size), from + 1, 0)) == stream[..from + size]
  {
    hide Taken;
    var chunks := Cut(stream, from, size);
    CutTaken(stream, from, size, |chunks|);
    CutTaken(stream, from, size, from);
    CutTaken(stream, from, size, from + 1);
    ReadsFrom(chunks, from + 1, from + 1);
  }

  /** The most bytes an arrival of `stream` can have delivered when `e` bytes are there. */
  function MostHeld(stream: seq<byte>, e: nat): int { Min(|stream|, e - 1 + BUFFER) }

  lemma HeldBounds(chunks: Chunks, e: nat)
    requires Arrival(chunks) && 0 < e <= |Stream(chunks)|
    ensures e <= |Taken(chunks, Reads(chunks, e, 0))| <= MostHeld(Stream(chunks), e)
  {
    hide Reads;
    var n := Reads(chunks, e, 0);
    ReadsMeaning(chunks, e, 0);
    TakenGrows(chunks, n, |chunks|);
    if n > 0 { assert ChunkOk(chunks[n - 1]); }
  }

  /** With its first separator ending at `e` and a valid header, a stream is read successfully however
      it arrives exactly when even the largest overshoot past the separator stays within the limit. */
  lemma AlwaysReadIff(stream: seq<byte>, ending: Failure)
    requires FirstBoundary(stream).Some? && ValidUtf8(stream[..FirstBoundary(stream).value])
    ensures (forall chunks :: ArrivalOf(chunks, stream) ==> Outcome(chunks, ending).Ok?) <==>
            Min(|stream|, FirstBoundary(stream).value + 4 + 2047) <= 16_384
  {
    hide FirstBoundary, ValidUtf8, Taken, Reads, Cut;
    var e := FirstBoundary(stream).value + 4;
    var size := MostHeld(stream, e) - (e - 1);
    if MostHeld(stream, e) <= HEADER_LIMIT {
      forall chunks | ArrivalOf(chunks, stream) ensures Outcome(chunks, ending).Ok? {
        HeldBounds(chunks, e);
      }
    } else {
      CutArrives(stream, e - 1, size);
      assert !Outcome(Cut(stream, e - 1, size), ending).Ok?;
    }
  }

  /** It is refused however it arrives exactly when the separator itself ends beyond the limit. */
  lemma NeverReadIff(stream: seq<byte>, ending: Failure)
    requires FirstBoundary(stream).Some? && ValidUtf8(stream[..FirstBoundary(stream).value])
    ensures (forall chunks :: ArrivalOf(chunks, stream) ==> Outcome(chunks, ending) == Err(LimitExceeded)) <==>
            FirstBoundary(stream).value + 4 > 16_384
  {
    hide FirstBoundary, ValidUtf8, Taken, Reads, Cut;
    var e := FirstBoundary(stream).value + 4;
    if e > HEADER_LIMIT {
      forall chunks | ArrivalOf(chunks, stream) ensures Outcome(chunks, ending) == Err(LimitExceeded) {
        HeldBounds(chunks, e);
      }
    } else {
      CutArrives(stream, e - 1, 1);
      assert Outcome(Cut(stream, e - 1, 1), ending).Ok?;
    }
  }

  /** The most bytes that can be held when reading ends for another reason than the limit. */
  function LargestHold(stream: seq<byte>): int {
    match FirstBoundary(stream) case None => |stream| case Some(b) => MostHeld(stream, b + 4)
  }

  /** For every stream, with or without a separator, valid or not: no arrival hits the limit if and only
      if the most that can be held is within it. */
  lemma LimitNeverHitIff(stream: seq<byte>, ending: Failure)
    requires ending != LimitExceeded
    ensures (forall chunks :: ArrivalOf(chunks, stream) ==> Outcome(chunks, ending) != Err(LimitExceeded)) <==>
            LargestHold(stream) <= HEADER_LIMIT
  {
    hide FirstBoundary, ValidUtf8, Taken, Reads, Cut;
    if LargestHold(stream) <= HEADER_LIMIT {
      forall chunks | ArrivalOf(chunks, stream) ensures Outcome(chunks, ending) != Err(LimitExceeded) {
        if FirstBoundary(stream).Some? { HeldBounds(chunks, FirstBoundary(stream).value + 4); }
      }
    } else if FirstBoundary(stream).None? {
      CutArrives(stream, 0, 1);
      assert Outcome(Cut(stream, 0, 1), ending) == Err(LimitExceeded);
    } else {
      var e := FirstBoundary(stream).value + 4;
      var size := MostHeld(stream, e) - (e - 1);
      CutArrives(stream, e - 1, size);
      assert Outcome(Cut(stream, e - 1, size), ending) == Err(LimitExceeded);
    }
  }

  /** What a read tells apart from its leftover. */
  function Verdict(r: Result<Header, Failure>): Result<seq<byte>, Failure> {
    match r case Ok(h) => Ok(h.text) case Err(e) => Err(e)
  }

  /** Within that bound the verdict, the error included, does not depend on the arrival at all. */
  lemma VerdictIsTheStreams(a: Chunks, b: Chunks, ending: Failure)
    requires Arrival(a) && Arrival(b) && Stream(a) == Stream(b) && LargestHold(Stream(a)) <= HEADER_LIMIT
    ensures Verdict(Outcome(a, ending)) == Verdict(Outcome(b, ending))
  {
    hide FirstBoundary, ValidUtf8, Taken, Reads;
    if FirstBoundary(Stream(a)).Some? {
      HeldBounds(a, FirstBoundary(Stream(a)).value + 4);
      HeldBounds(b, FirstBoundary(Stream(a)).value + 4);
    }
  }

  function Padding(n: nat): (r: seq<byte>)
    ensures |r| == n
  {
    seq(n, i => 65)
  }

  lemma {:induction false} PaddingIsUtf8(n: nat, i: nat)
    requires i <= n
    ensures Utf8From(Padding(n), i)
    decreases n - i
  {
    if i < n { PaddingIsUtf8(n, i + 1); }
  }

  /** A header that just fits, with one byte after it: whether it is read depends on whether that byte
      arrives together with the end of the separator. */
  lemma ReadingDependsOnArrival(ending: Failure)
    ensures var stream := Padding(HEADER_LIMIT - 4) + SEPARATOR + [65];
      && ArrivalOf(Cut(stream, HEADER_LIMIT - 1, 1), stream)
      && ArrivalOf(Cut(stream, HEADER_LIMIT - 1, 2), stream)
      && Outcome(Cut(stream, HEADER_LIMIT - 1, 1), ending).Ok?
      && Outcome(Cut(stream, HEADER_LIMIT - 1, 2), ending) == Err(LimitExceeded)
  {
    hide ValidUtf8, FirstBoundary, Cut, Taken, Reads, Padding;
    JustFits();
    var stream := Padding(HEADER_LIMIT - 4) + SEPARATOR + [65];
    CutArrives(stream, HEADER_LIMIT - 1, 1);
    CutArrives(stream, HEADER_LIMIT - 1, 2);
  }

  lemma JustFits()
    ensures var stream := Padding(HEADER_LIMIT - 4) + SEPARATOR + [65];
      FirstBoundary(stream) == Some(HEADER_LIMIT - 4) && ValidUtf8(stream[..HEADER_LIMIT - 4])
  {
    hide ValidUtf8, Search;
    var b := HEADER_LIMIT - 4;
    var stream := Padding(b) + SEPARATOR + [65];
    assert At(stream, b);
    BoundaryMeaning(stream);
    assert stream[..b] == Padding(b);
    PaddingIsUtf8(b, 0);
    ValidMeansFromStart(Padding(b));
  }

  lemma ValidMeansFromStart(s: seq<byte>)
    ensures ValidUtf8(s) == Utf8From(s, 0)
  {
  }
}
