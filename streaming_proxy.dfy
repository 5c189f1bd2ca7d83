/**
 * The local HTTP proxy that serves Telegram media to the video player: stream
 * registration, translation of the `Range` request header into one download request,
 * the relay loop that forwards downloaded chunks, and the scan of the ISO/IEC 14496-12
 * box headers for the `moov` box.
 *
 * The downloader (`iter_download`), the message fetch and the response writes are
 * inputs: the chunk sequence the downloader yields, each with whether writing it to the
 * client succeeds, and the message the fallback fetch returns (None when it fails).
 */
module StreamingProxy {
  import opened Options
  import opened PyStr
  import opened Telethon
  import opened Bytes

  // ---------------------------------------------------------------------------
  // Registrations

  /** What `get_stream_url` stores for one stream. */
  datatype Registration = Registration(messageId: int, chatId: int, fileSize: int, message: Option<Message>)

  /** The stream id `"{chat_id}_{message_id}"`. */
  function StreamKey(chatId: int, messageId: int): (k: string)
    ensures '_' in k
  {
    IntToString(chatId) + "_" + IntToString(messageId)
  }

  /** Distinct (chat, message) pairs get distinct stream ids, so a registration only ever
      replaces an earlier registration of the same pair. */
  lemma StreamKeyInjective(c1: int, m1: int, c2: int, m2: int)
    requires StreamKey(c1, m1) == StreamKey(c2, m2)
    ensures c1 == c2 && m1 == m2
  {
    var x1, y1 := IntToString(c1), IntToString(m1);
    var x2, y2 := IntToString(c2), IntToString(m2);
    IntToStringNoChar(c1, '_');
    IntToStringNoChar(m1, '_');
    IntToStringNoChar(c2, '_');
    IntToStringNoChar(m2, '_');
    SplitAfterFirst(x1, y1, '_');
    SplitAfterFirst(x2, y2, '_');
    assert Split(x1 + ['_'] + y1, '_') == [x1, y1];
    assert Split(x2 + ['_'] + y2, '_') == [x2, y2];
    assert x1 + ['_'] + y1 == x2 + ['_'] + y2;
    IntToStringInjective(c1, c2);
    IntToStringInjective(m1, m2);
  }

  // ---------------------------------------------------------------------------
  // Range header

  /** An inclusive byte range `start..end`. */
  datatype ByteRange = ByteRange(start: int, end: int)

  /** A bound of the range spec: empty keeps the default, anything else goes through
      `int()`, which raises on non-numeric text. */
  function Bound(text: string, default: int): Result<int> {
    if text == "" then Ok(default)
    else match ParseInt(text, 10)
      case Some(v) => Ok(v)
      case None => Raised("invalid literal for int() with base 10")
  }

  /** The range the header asks for, before clamping: the whole file unless the header
      starts with `bytes=` and its remainder contains `-`; then the texts before the first
      and second `-` are the start and end, when non-empty. */
  function RequestedRange(header: string, fileSize: int): (r: Result<ByteRange>)
    ensures !StartsWith(header, "bytes=") ==> r == Ok(ByteRange(0, fileSize - 1))
  {
    if !StartsWith(header, "bytes=") then Ok(ByteRange(0, fileSize - 1))
    else
      var spec := header[6..];
      if '-' !in spec then Ok(ByteRange(0, fileSize - 1))
      else
        var parts := Split(spec, '-');
        match Bound(parts[0], 0)
        case Raised(e) => Raised(e)
        case Ok(start) =>
          match Bound(parts[1], fileSize - 1)
          case Raised(e) => Raised(e)
          case Ok(end) => Ok(ByteRange(start, end))
  }

  function Max(a: int, b: int): int { if a >= b then a else b }
  function Min(a: int, b: int): int { if a <= b then a else b }

  /** `start = max(0, min(start, size - 1))`, then `end = max(start, min(end, size - 1))`. */
  function Clamp(r: ByteRange, fileSize: int): (c: ByteRange)
    ensures fileSize >= 1 ==> 0 <= c.start <= c.end <= fileSize - 1
    ensures fileSize >= 1 ==> 1 <= ContentLength(c) <= fileSize
    ensures fileSize <= 0 ==> c == ByteRange(0, 0)
    ensures 0 <= r.start <= r.end < fileSize ==> c == r
    ensures 0 <= r.start < fileSize && r.end < r.start ==> c == ByteRange(r.start, r.start)
  {
    var start := Max(0, Min(r.start, fileSize - 1));
    ByteRange(start, Max(start, Min(r.end, fileSize - 1)))
  }

  function ContentLength(r: ByteRange): int { r.end - r.start + 1 }

  /** 206 for any non-empty header, whatever its unit; 200 without one. */
  function Status(header: string): (s: int)
    ensures s == 206 || s == 200
    ensures s == 206 <==> header != ""
  {
    if header != "" then 206 else 200
  }

  function ContentRange(header: string, r: ByteRange, fileSize: int): (v: Option<string>)
    ensures v.Some? <==> Status(header) == 206
  {
    if header != "" then
      Some("bytes " + IntToString(r.start) + "-" + IntToString(r.end) + "/" + IntToString(fileSize))
    else None
  }

  /** `video/mp4`, unless the message has a document with a non-empty MIME type. */
  function ContentType(message: Option<Message>): (t: string)
    ensures t != ""
    ensures message.Some? && message.value.document.Some?
            && message.value.document.value.mimeType.Some?
            && message.value.document.value.mimeType.value != ""
            ==> t == message.value.document.value.mimeType.value
  {
    if message.Some? && message.value.document.Some? then
      match message.value.document.value.mimeType
      case Some(m) => if m != "" then m else "video/mp4"
      case None => "video/mp4"
    else "video/mp4"
  }

  lemma NoHeaderFullFile(fileSize: int)
    requires fileSize >= 1
    ensures RequestedRange("", fileSize) == Ok(ByteRange(0, fileSize - 1))
    ensures Clamp(ByteRange(0, fileSize - 1), fileSize) == ByteRange(0, fileSize - 1)
    ensures Status("") == 200 && ContentRange("", ByteRange(0, fileSize - 1), fileSize) == None
  {
    assert !StartsWith("", "bytes=");
  }

  lemma BytesPrefix(rest: string)
    ensures StartsWith("bytes=" + rest, "bytes=") && ("bytes=" + rest)[6..] == rest
  {
    assert ("bytes=" + rest)[..6] == "bytes=";
  }

  /** `bytes=N-` asks for N to the last byte. */
  lemma OpenEndedRange(n: nat, fileSize: int)
    ensures RequestedRange("bytes=" + IntToString(n) + "-", fileSize) == Ok(ByteRange(n, fileSize - 1))
  {
    var x := IntToString(n);
    BytesPrefix(x + "-");
    assert "bytes=" + x + "-" == "bytes=" + (x + "-");
    IntToStringNoChar(n, '-');
    SplitAfterFirst(x, "", '-');
    assert x + ['-'] + "" == x + "-";
    assert Split(x + "-", '-') == [x, ""];
    assert (x + "-")[|x|] == '-';
    ParseIntOfIntToString(n);
  }

  /** `bytes=-M` is read as 0..M, not as the last M bytes (the suffix form of RFC 7233
      section 2.1). */
  lemma SuffixReadAsPrefix(m: nat, fileSize: int)
    ensures RequestedRange("bytes=-" + IntToString(m), fileSize) == Ok(ByteRange(0, m))
  {
    var y := IntToString(m);
    BytesPrefix("-" + y);
    assert "bytes=-" + y == "bytes=" + ("-" + y);
    IntToStringNoChar(m, '-');
    SplitAfterFirst("", y, '-');
    assert "" + ['-'] + y == "-" + y;
    assert Split("-" + y, '-') == ["", y];
    assert ("-" + y)[0] == '-';
    ParseIntOfIntToString(m);
  }

  /** `bytes=N-M` asks for N..M. */
  lemma ClosedRange(n: nat, m: nat, fileSize: int)
    ensures RequestedRange("bytes=" + IntToString(n) + "-" + IntToString(m), fileSize) == Ok(ByteRange(n, m))
  {
    var x, y := IntToString(n), IntToString(m);
    BytesPrefix(x + "-" + y);
    assert "bytes=" + x + "-" + y == "bytes=" + (x + "-" + y);
    IntToStringNoChar(n, '-');
    IntToStringNoChar(m, '-');
    SplitAfterFirst(x, y, '-');
    assert x + ['-'] + y == x + "-" + y;
    assert Split(x + "-" + y, '-') == [x, y];
    assert (x + "-" + y)[|x|] == '-';
    ParseIntOfIntToString(n);
    ParseIntOfIntToString(m);
  }

  /** A start bound `int()` rejects makes the handler raise; there is no 416 response. */
  lemma NonNumericStartRaises(fileSize: int)
    ensures RequestedRange("bytes=x-", fileSize).Raised?
  {
    BytesPrefix("x-");
    assert "bytes=x-" == "bytes=" + "x-";
    SplitAfterFirst("x", "", '-');
    assert "x" + ['-'] + "" == "x-";
    assert Split("x-", '-') == ["x", ""];
    assert "x-"[1] == '-';
    var t := Strip("x");
    assert !IsSpace('x');
    StripNoSpaceEnds("x");
    assert !WellFormedDigits(DigitPart("x", 10), 10);
  }

  /** A header in another unit is ignored for the range but still answered with 206. */
  lemma OtherUnitStillPartial(fileSize: int)
    requires fileSize >= 1
    ensures RequestedRange("items=0-1", fileSize) == Ok(ByteRange(0, fileSize - 1))
    ensures Status("items=0-1") == 206
  {
    assert !StartsWith("items=0-1", "bytes=") by {
      assert "items=0-1"[..6][0] == 'i' != "bytes="[0];
    }
  }

  // ---------------------------------------------------------------------------
  // Relay

  /** One chunk yielded by the downloader, and whether writing it to the client succeeds. */
  datatype Chunk = Chunk(data: seq<byte>, writeSucceeds: bool)

  function Flatten(parts: seq<seq<byte>>): (r: seq<byte>)
    decreases |parts|
  {
    if parts == [] then [] else Flatten(parts[..|parts| - 1]) + parts[|parts| - 1]
  }

  lemma {:induction false} FlattenAppend(parts: seq<seq<byte>>, p: seq<byte>)
    ensures Flatten(parts + [p]) == Flatten(parts) + p
  {
    assert (parts + [p])[..|parts|] == parts;
  }

  /** The index of the first chunk whose write fails, or the number of chunks. */
  function FirstFailure(chunks: seq<Chunk>): (k: nat)
    ensures k <= |chunks|
    ensures forall j :: 0 <= j < k ==> chunks[j].writeSucceeds
    ensures k < |chunks| ==> !chunks[k].writeSucceeds
    decreases |chunks|
  {
    if chunks == [] || !chunks[0].writeSucceeds then 0 else 1 + FirstFailure(chunks[1..])
  }

  /** The data of the chunks written before the first failed write. */
  function Delivered(chunks: seq<Chunk>): (d: seq<seq<byte>>)
    ensures |d| == FirstFailure(chunks)
    ensures forall j :: 0 <= j < |d| ==> d[j] == chunks[j].data
  {
    seq(FirstFailure(chunks), j requires 0 <= j < FirstFailure(chunks) => chunks[j].data)
  }

  /** The relay loop: writes each chunk in turn, counts the bytes of the successful
      writes, and stops at the first failed write. */
  method Relay(chunks: seq<Chunk>) returns (body: seq<byte>, bytesSent: nat)
    ensures body == Flatten(Delivered(chunks)) && bytesSent == |body|
  {
    body, bytesSent := [], 0;
    var i := 0;
    while i < |chunks|
      invariant 0 <= i <= |chunks|
      invariant forall j :: 0 <= j < i ==> chunks[j].writeSucceeds
      invariant body == Flatten(Delivered(chunks[..i])) && bytesSent == |body|
    {
      if !chunks[i].writeSucceeds {
        break;
      }
      assert Delivered(chunks[..i + 1]) == Delivered(chunks[..i]) + [chunks[i].data] by {
        assert FirstFailure(chunks[..i + 1]) == i + 1;
        assert FirstFailure(chunks[..i]) == i;
      }
      FlattenAppend(Delivered(chunks[..i]), chunks[i].data);
      body := body + chunks[i].data;
      bytesSent := bytesSent + |chunks[i].data|;
      i := i + 1;
    }
    assert FirstFailure(chunks) == i;
    assert FirstFailure(chunks[..i]) == i;
    assert Delivered(chunks) == Delivered(chunks[..i]);
  }

  /** What the proxy asks the downloader for. */
  datatype DownloadRequest = DownloadRequest(offset: int, limit: int, chunkSize: int, requestSize: int)

  const ChunkSize := 64 * 1024

  datatype Response =
    | NotFound
    | ServerError(message: string)
    | Streamed(status: int, contentRange: Option<string>, contentType: string,
               download: Option<DownloadRequest>, body: seq<byte>, bytesSent: int)

  // ---------------------------------------------------------------------------
  // The proxy object

  class Proxy {
    const host: string
    const port: int
    var streams: map<string, Registration>

    constructor(host: string, port: int)
      ensures this.host == host && this.port == port && streams == map[]
    {
      this.host := host;
      this.port := port;
      streams := map[];
    }

    function BaseUrl(): (u: string)
      ensures StartsWith(u, "http://")
    {
      "http://" + host + ":" + IntToString(port)
    }

    method GetStreamUrl(messageId: int, chatId: int, fileSize: int, message: Option<Message>) returns (url: string)
      modifies this
      ensures streams == old(streams)[StreamKey(chatId, messageId) := Registration(messageId, chatId, fileSize, message)]
      ensures url == BaseUrl() + "/stream/" + StreamKey(chatId, messageId)
    {
      var key := StreamKey(chatId, messageId);
      streams := streams[key := Registration(messageId, chatId, fileSize, message)];
      url := BaseUrl() + "/stream/" + key;
    }

    /** `TelegramStreamingProxy.prepare_stream`: registers the stream without a cached message. */
    method PrepareStream(messageId: int, chatId: int, fileSize: int) returns (url: string)
      modifies this
      ensures streams == old(streams)[StreamKey(chatId, messageId) := Registration(messageId, chatId, fileSize, None)]
      ensures url == BaseUrl() + "/stream/" + StreamKey(chatId, messageId)
    {
      url := GetStreamUrl(messageId, chatId, fileSize, None);
    }

    /** The server shutdown forgets every registration. */
    method Stop()
      modifies this
      ensures streams == map[]
    {
      streams := map[];
    }

    /** `_handle_stream` for one request: `header` is the Range header ("" when absent),
        `fetched` the message the fallback fetch returns, `chunks` what the downloader
        yields for the request. */
    method HandleStream(streamId: string, header: string, fetched: Option<Message>, chunks: seq<Chunk>)
      returns (resp: Response)
      ensures streamId !in streams <==> resp == NotFound
      ensures streamId in streams ==>
        var reg := streams[streamId];
        var req := RequestedRange(header, reg.fileSize);
        (req.Raised? <==> resp.ServerError?)
        && (req.Ok? ==>
          var r := Clamp(req.value, reg.fileSize);
          var msg := if reg.message.Some? then reg.message else fetched;
          && resp.Streamed?
          && resp.status == Status(header)
          && resp.contentRange == ContentRange(header, r, reg.fileSize)
          && resp.contentType == ContentType(msg)
          && resp.download == (if msg.Some? then Some(DownloadRequest(r.start, ContentLength(r), ChunkSize, ChunkSize)) else None)
          && resp.body == (if msg.Some? then Flatten(Delivered(chunks)) else [])
          && resp.bytesSent == |resp.body|)
    {
      if streamId !in streams {
        return NotFound;
      }
      var reg := streams[streamId];
      var req := RequestedRange(header, reg.fileSize);
      if req.Raised? {
        return ServerError(req.message);
      }
      var r := Clamp(req.value, reg.fileSize);
      var message := reg.message;
      if message.None? {
        message := fetched;
      }
      var status := Status(header);
      var contentRange := ContentRange(header, r, reg.fileSize);
      var contentType := ContentType(message);
      if message.None? {
        return Streamed(status, contentRange, contentType, None, [], 0);
      }
      var body, sent := Relay(chunks);
      resp := Streamed(status, contentRange, contentType,
        Some(DownloadRequest(r.start, ContentLength(r), ChunkSize, ChunkSize)), body, sent);
    }
  }

  /** A served range within the file is exactly the one asked for, and the download asks
      for exactly its bytes. */
  lemma ServedRangeMatchesRequest(n: nat, m: nat, fileSize: int)
    requires n <= m < fileSize
    ensures RequestedRange("bytes=" + IntToString(n) + "-" + IntToString(m), fileSize) == Ok(ByteRange(n, m))
    ensures Clamp(ByteRange(n, m), fileSize) == ByteRange(n, m)
    ensures ContentLength(ByteRange(n, m)) == m - n + 1
  {
    ClosedRange(n, m, fileSize);
  }

  /** A reversed range `bytes=N-M` with M < N inside the file is served as the single byte N. */
  lemma ReversedRangeOneByte(n: nat, m: nat, fileSize: int)
    requires m < n < fileSize
    ensures Clamp(ByteRange(n, m), fileSize) == ByteRange(n, n)
    ensures ContentLength(Clamp(ByteRange(n, m), fileSize)) == 1
  {
  }

  // ---------------------------------------------------------------------------
  // Box headers (section 4.2 of ISO/IEC 14496-12)

  const AtomHeaderSize := 8
  const MoovStartThreshold := 100 * 1024

  /** A box header: the 32-bit size and the type text. */
  datatype AtomHeader = AtomHeader(size: nat, kind: string)

  /** `struct.unpack('>I', b)`, most significant byte first. */
  function U32BE(b: seq<byte>): (n: nat)
    requires |b| == 4
    ensures n < 0x1_0000_0000
  {
    ((b[0] as nat * 0x100 + b[1] as nat) * 0x100 + b[2] as nat) * 0x100 + b[3] as nat
  }

  /** `struct.pack('>I', n)`. */
  function U32Bytes(n: nat): (b: seq<byte>)
    requires n < 0x1_0000_0000
    ensures |b| == 4
  {
    var n1 := n / 0x100;
    var n2 := n1 / 0x100;
    [(n2 / 0x100) as byte, (n2 % 0x100) as byte, (n1 % 0x100) as byte, (n % 0x100) as byte]
  }

  lemma U32RoundTrip(n: nat)
    requires n < 0x1_0000_0000
    ensures U32BE(U32Bytes(n)) == n
  {
    var n1 := n / 0x100;
    var n2 := n1 / 0x100;
    assert n == n1 * 0x100 + n % 0x100;
    assert n1 == n2 * 0x100 + n1 % 0x100;
    assert n2 == (n2 / 0x100) * 0x100 + n2 % 0x100;
  }

  lemma U32BytesRoundTrip(b: seq<byte>)
    requires |b| == 4
    ensures U32Bytes(U32BE(b)) == b
  {
    var n2 := b[0] as nat * 0x100 + b[1] as nat;
    var n1 := n2 * 0x100 + b[2] as nat;
    var n := n1 * 0x100 + b[3] as nat;
    assert n / 0x100 == n1 && n % 0x100 == b[3] as nat;
    assert n1 / 0x100 == n2 && n1 % 0x100 == b[2] as nat;
    assert n2 / 0x100 == b[0] as nat && n2 % 0x100 == b[1] as nat;
  }

  /** `b.decode('ascii', errors='ignore')`: bytes of 0x80 and above are dropped. */
  function AsciiIgnore(b: seq<byte>): (s: string)
    ensures |s| <= |b|
    ensures |s| == |b| <==> forall i :: 0 <= i < |b| ==> b[i] < 0x80
    ensures |s| == |b| ==> forall i :: 0 <= i < |b| ==> s[i] == b[i] as int as char
    decreases |b|
  {
    if b == [] then ""
    else (if b[0] < 0x80 then [b[0] as int as char] else "") + AsciiIgnore(b[1..])
  }

  const MoovBytes: seq<byte> := [0x6d, 0x6f, 0x6f, 0x76]
  const FtypBytes: seq<byte> := [0x66, 0x74, 0x79, 0x70]

  /** Four bytes decode to `moov` exactly when they are the bytes of `moov`. */
  lemma AsciiIgnoreMoov(b: seq<byte>)
    requires |b| == 4
    ensures AsciiIgnore(b) == "moov" <==> b == MoovBytes
  {
    if AsciiIgnore(b) == "moov" {
      var s := AsciiIgnore(b);
      assert b[0] as int == 'm' as int == 0x6d;
      assert b[1] as int == 'o' as int == 0x6f;
      assert b[2] as int == 'o' as int == 0x6f;
      assert b[3] as int == 'v' as int == 0x76;
    }
    if b == MoovBytes {
      assert AsciiIgnore(b)[0] == 'm';
      assert AsciiIgnore(b)[1] == 'o' && AsciiIgnore(b)[2] == 'o' && AsciiIgnore(b)[3] == 'v';
    }
  }

  function ParseAtomHeader(data: seq<byte>): (h: AtomHeader)
    ensures |data| < AtomHeaderSize ==> h == AtomHeader(0, "")
    ensures |data| >= AtomHeaderSize ==> h.size < 0x1_0000_0000 && |h.kind| <= 4
  {
    if |data| < AtomHeaderSize then AtomHeader(0, "")
    else AtomHeader(U32BE(data[..4]), AsciiIgnore(data[4..8]))
  }

  /** A header built from a size and four type bytes parses back to them. */
  lemma ParseAtomHeaderOf(n: nat, kind: seq<byte>, rest: seq<byte>)
    requires n < 0x1_0000_0000 && |kind| == 4
    ensures ParseAtomHeader(U32Bytes(n) + kind + rest) == AtomHeader(n, AsciiIgnore(kind))
  {
    var d := U32Bytes(n) + kind + rest;
    assert d[..4] == U32Bytes(n);
    assert d[4..8] == kind;
    U32RoundTrip(n);
  }

  /** The reference scan: follow the chain of box headers from `offset`, reading each
      header with `read(offset)` (the chunks `read_chunk(offset, 8)` yields). */
  function MoovScan(read: nat -> seq<seq<byte>>, fileSize: int, offset: nat): (r: Option<(nat, nat)>)
    ensures r.Some? ==> offset <= r.value.0 < fileSize && r.value.1 >= 1
    decreases fileSize - offset
  {
    if offset >= fileSize then None
    else
      var h := ParseAtomHeader(Flatten(read(offset)));
      if |Flatten(read(offset))| < AtomHeaderSize || h.size == 0 then None
      else if h.kind == "moov" then Some((offset, h.size))
      else MoovScan(read, fileSize, offset + h.size)
  }

  /** `find_moov_position`. It always terminates: every box it steps over has size at
      least 1, and it stops once the offset reaches the file size. */
  method FindMoovPosition(read: nat -> seq<seq<byte>>, fileSize: int) returns (r: Option<(nat, nat)>)
    ensures r == MoovScan(read, fileSize, 0)
  {
    var offset: nat := 0;
    while offset < fileSize
      invariant MoovScan(read, fileSize, offset) == MoovScan(read, fileSize, 0)
      decreases fileSize - offset
    {
      var chunks := read(offset);
      var header: seq<byte> := [];
      var j := 0;
      while j < |chunks|
        invariant 0 <= j <= |chunks| && header == Flatten(chunks[..j])
      {
        FlattenAppend(chunks[..j], chunks[j]);
        assert chunks[..j + 1] == chunks[..j] + [chunks[j]];
        header := header + chunks[j];
        j := j + 1;
      }
      assert chunks[..j] == chunks;
      if |header| < AtomHeaderSize {
        return None;
      }
      var h := ParseAtomHeader(header);
      if h.size == 0 {
        return None;
      }
      if h.kind == "moov" {
        return Some((offset, h.size));
      }
      offset := offset + h.size;
    }
    return None;
  }

  function IsMoovAtStart(position: Option<(nat, nat)>): bool {
    position.None? || position.value.0 < MoovStartThreshold
  }

  /** A found position is a box start inside the file whose header says `moov`. */
  lemma {:induction false} MoovScanSound(read: nat -> seq<seq<byte>>, fileSize: int, offset: nat)
    requires MoovScan(read, fileSize, offset).Some?
    ensures var (o, s) := MoovScan(read, fileSize, offset).value;
      && offset <= o < fileSize && s >= 1
      && |Flatten(read(o))| >= AtomHeaderSize
      && ParseAtomHeader(Flatten(read(o))) == AtomHeader(s, "moov")
    decreases fileSize - offset
  {
    var h := ParseAtomHeader(Flatten(read(offset)));
    if h.kind != "moov" {
      MoovScanSound(read, fileSize, offset + h.size);
    }
  }

  /** Reading the header at `o` from a file held in memory: its bytes `o..o+8`. */
  function FileReader(file: seq<byte>): nat -> seq<seq<byte>> {
    (o: nat) => if o + AtomHeaderSize <= |file| then [file[o..o + AtomHeaderSize]]
         else if o <= |file| then [file[o..]] else []
  }

  lemma FileHeader(file: seq<byte>, o: nat)
    requires o + AtomHeaderSize <= |file|
    ensures Flatten(FileReader(file)(o)) == file[o..o + AtomHeaderSize]
  {
    assert FileReader(file)(o) == [file[o..o + AtomHeaderSize]];
    FlattenAppend([], file[o..o + AtomHeaderSize]);
  }

  /** A header of a box other than `moov`, of size n >= 1, sends the scan n bytes on. */
  lemma ScanSkips(read: nat -> seq<seq<byte>>, fileSize: int, o: nat, n: nat, kind: seq<byte>)
    requires o < fileSize && 1 <= n < 0x1_0000_0000 && |kind| == 4 && kind != MoovBytes
    requires Flatten(read(o)) == U32Bytes(n) + kind
    ensures MoovScan(read, fileSize, o) == MoovScan(read, fileSize, o + n)
  {
    ParseAtomHeaderOf(n, kind, []);
    assert U32Bytes(n) + kind + [] == Flatten(read(o));
    AsciiIgnoreMoov(kind);
  }

  /** A `moov` header of size n >= 1 ends the scan with its position. */
  lemma ScanFinds(read: nat -> seq<seq<byte>>, fileSize: int, o: nat, n: nat)
    requires o < fileSize && 1 <= n < 0x1_0000_0000
    requires Flatten(read(o)) == U32Bytes(n) + MoovBytes
    ensures MoovScan(read, fileSize, o) == Some((o, n))
  {
    ParseAtomHeaderOf(n, MoovBytes, []);
    assert U32Bytes(n) + MoovBytes + [] == Flatten(read(o));
    AsciiIgnoreMoov(MoovBytes);
  }

  /** The usual fast-start layout: a 24-byte `ftyp` box, then `moov`. The scan steps over
      `ftyp`, reports `moov` at offset 24, and that counts as at the start. */
  lemma FtypThenMoov(file: seq<byte>, moovSize: nat)
    requires 8 <= moovSize < 0x1_0000_0000 && |file| >= 32
    requires file[..8] == U32Bytes(24) + FtypBytes
    requires file[24..32] == U32Bytes(moovSize) + MoovBytes
    ensures MoovScan(FileReader(file), |file|, 0) == Some((24, moovSize))
    ensures IsMoovAtStart(MoovScan(FileReader(file), |file|, 0))
  {
    var read := FileReader(file);
    FileHeader(file, 0);
    FileHeader(file, 24);
    assert FtypBytes != MoovBytes by {
      assert FtypBytes[0] != MoovBytes[0];
    }
    ScanSkips(read, |file|, 0, 24, FtypBytes);
    ScanFinds(read, |file|, 24, moovSize);
  }

  /** A `moov` box of size 0 ("extends to the end of the file" in the standard) at the
      start is not found: the scan stops at size 0 before looking at the type. */
  lemma SizeZeroStops(file: seq<byte>)
    requires |file| >= 8 && file[..8] == U32Bytes(0) + MoovBytes
    ensures MoovScan(FileReader(file), |file|, 0) == None
  {
    FileHeader(file, 0);
    ParseAtomHeaderOf(0, MoovBytes, []);
    assert U32Bytes(0) + MoovBytes + [] == file[0..8];
  }

  /** Size 1 announces a 64-bit size in the standard; the scan instead moves on by one
      byte. */
  lemma LargeSizeStepsOneByte(file: seq<byte>)
    requires |file| >= 8 && file[..8] == U32Bytes(1) + FtypBytes
    ensures MoovScan(FileReader(file), |file|, 0) == MoovScan(FileReader(file), |file|, 1)
  {
    FileHeader(file, 0);
    ParseAtomHeaderOf(1, FtypBytes, []);
    assert U32Bytes(1) + FtypBytes + [] == file[0..8];
    AsciiIgnoreMoov(FtypBytes);
  }

  /** A header shorter than 8 bytes ends the scan with nothing found. */
  lemma ShortFileNotFound(file: seq<byte>)
    requires 0 < |file| < AtomHeaderSize
    ensures MoovScan(FileReader(file), |file|, 0) == None
    ensures IsMoovAtStart(MoovScan(FileReader(file), |file|, 0))
  {
    assert FileReader(file)(0) == [file[0..]];
    FlattenAppend([], file[0..]);
  }
}
