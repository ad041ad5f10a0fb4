/**
 * src/worker/wkr_http_request.c: how a worker collects a request from reads of any sizes and hands
 * its body to the application. The peer writes one message laid out by scgi_build at a time.
 */
module WorkerReader {
  import opened Seqs
  import opened ScgiFormat
  import opened ScgiRoundTrip

  const BUFFER := 10240  // STR_SIZE10KB

  /** What the head sends: headers (oldest first), the announced length and the body. */
  datatype Request = Request(es: seq<Entry>, n: nat, body: string)

  function Bytes(r: Request): string {
    Message(r.es, r.n, r.body)
  }

  function HeaderSize(r: Request): nat {
    |HeaderBytes(r.es, r.n)|
  }

  function ValueOr(o: Option<string>, default: string): string {
    if o.Some? then o.value else default
  }

  /** The head announces the length of the body it sends. */
  ghost predicate Announced(r: Request) {
    Clean(r.es) && Atoi(ValueOr(LastValue(r.es, CONTENT_LENGTH), Decimal(r.n))) == |r.body|
  }

  /** scgi_header_value_get on a parsed message. */
  function ValueGet(b: string, p: Parsed, name: string): Option<string>
    requires InRange(b, p.list)
  {
    Lookup(Texts(b, p.list), name)
  }

  /** The position of the first colon, or |b|. */
  function Colon(b: string): (i: nat)
    ensures i <= |b| && (forall k :: 0 <= k < i ==> b[k] != ':') && (i < |b| ==> b[i] == ':')
  {
    if b == [] || b[0] == ':' then 0 else 1 + Colon(b[1..])
  }

  lemma {:induction false} DecimalThenColon(n: nat, t: string)
    ensures Colon(Decimal(n) + ":" + t) == |Decimal(n)|
  {
    var b := Decimal(n) + ":" + t;
    var i := Colon(b);
    assert b[|Decimal(n)|] == ':';
    assert forall k :: 0 <= k < |Decimal(n)| ==> b[k] == Decimal(n)[k];
    assert !(i < |Decimal(n)|);
  }

  /** The bytes read so far show the colon or they do not; if they do, they announce the header size. */
  lemma AnnouncedSize(r: Request, k: nat)
    requires k <= |Bytes(r)|
    ensures var c := Colon(Bytes(r)[..k]); c < k ==> Atoi(Bytes(r)[..k]) + c + 2 == HeaderSize(r)
    ensures k >= HeaderSize(r) ==> Colon(Bytes(r)[..k]) < k
  {
    hide Payload, Atoi, Colon, Decimal;
    var b, p := Bytes(r), Payload(r.es, r.n);
    var d, s := Decimal(|p|), b[..k];
    assert b == d + ":" + (p + "," + r.body);
    if k > |d| {
      var t := s[|d| + 1..];
      assert s == d + ":" + t;
      DecimalThenColon(|p|, t);
      assert d + ":" + t == d + (":" + t);
      AtoiDecimal(|p|, ":" + t);
    } else {
      assert forall j :: 0 <= j < k ==> s[j] == d[j];
    }
  }

  /** The header packet is the message up to and including the comma that ends it. */
  lemma HeaderPart(r: Request)
    ensures HeaderSize(r) >= 2 && |Bytes(r)| == HeaderSize(r) + |r.body|
    ensures Bytes(r)[..HeaderSize(r)] == HeaderBytes(r.es, r.n) == Message(r.es, r.n, [])
    ensures Bytes(r)[HeaderSize(r)..] == r.body
    ensures Bytes(r)[HeaderSize(r) - 1] == ','
  {
    assert HeaderBytes(r.es, r.n) + [] == HeaderBytes(r.es, r.n);
  }

  /** The header packet alone parses, and its length field tells the length of the body. */
  lemma HeaderParses(r: Request)
    requires Announced(r)
    ensures var h := HeaderBytes(r.es, r.n);
      && ReadsBack(h, r.es, r.n, [])
      && ValueGet(h, Parse(h).value, CONTENT_LENGTH).Some?
      && Atoi(ValueGet(h, Parse(h).value, CONTENT_LENGTH).value) == |r.body|
  {
    hide Parse, Message, HeaderBytes, Texts, Atoi, Lookup, Reverse;
    HeaderPart(r);
    LookupSurvives(r.es, r.n, [], CONTENT_LENGTH);
    LookupReversed(r.es, CONTENT_LENGTH);
  }

  datatype Watch = OnHeader | OnBody | Stopped

  class HttpReq {
    const buf: array<char>
    var bytesRead: nat
    var scgiHeaderLen: nat
    var reqLen: nat
    var file: Option<string>     // contents of the upload file
    var filePos: nat
    var scgi: Option<Parsed>
    var watch: Watch
    var closing: bool            // sigproc has been called
    var started: nat             // calls of http_req_process
    ghost var request: Request
    ghost var received: nat
    ghost var handed: string     // what http_req_body_read has returned so far

    ghost predicate Buffered(k: nat)
      reads this, buf
    {
      k <= buf.Length && k <= |Bytes(request)| && buf[..k] == Bytes(request)[..k]
    }

    ghost predicate Collecting()
      reads this, buf
    {
      && started == 0 && handed == [] && received < |Bytes(request)|
      && match watch
         case OnHeader =>
           && received < HeaderSize(request) && bytesRead == received && Buffered(received)
           && file == None && scgi == None
           && scgiHeaderLen == (if Colon(Bytes(request)[..received]) < received then HeaderSize(request) else 0)
         case OnBody =>
           && HeaderSize(request) <= received && bytesRead == received - HeaderSize(request)
           && Parsed()
           && (if |Bytes(request)| <= BUFFER then file == None && Buffered(received)
               else file == Some(request.body[..bytesRead]) && filePos == bytesRead)
         case Stopped => false
    }

    ghost predicate Parsed()
      reads this
    {
      && HeaderSize(request) <= BUFFER && scgiHeaderLen == HeaderSize(request) && reqLen == |request.body|
      && scgi == Parse(HeaderBytes(request.es, request.n))
    }

    /** The application reads: `bytesRead` now counts what it was given. */
    ghost predicate Serving()
      reads this, buf
    {
      && started == 1 && received == |Bytes(request)| && watch == Stopped && Parsed()
      && bytesRead <= reqLen && handed == request.body[..bytesRead]
      && (match file
          case Some(contents) => contents == request.body && filePos == bytesRead
          case None => |Bytes(request)| <= BUFFER && Buffered(received))
    }

    ghost predicate Valid()
      reads this, buf
    {
      && buf.Length == BUFFER && Announced(request)
      && if closing then started == 0 && received < |Bytes(request)|
         else if received < |Bytes(request)| then Collecting()
         else Serving()
    }

    constructor (ghost r: Request)
      requires Announced(r)
      ensures Valid() && request == r && received == 0 && !closing && fresh(buf)
    {
      buf := new char[BUFFER];
      bytesRead, scgiHeaderLen, reqLen, filePos := 0, 0, 0, 0;
      file, scgi, watch, closing, started := None, None, OnHeader, false, 0;
      request, received, handed := r, 0, [];
      new;
      HeaderPart(r);
    }

    /** http_req_set: ready for the next message on the same connection. */
    method Set(ghost r: Request)
      requires Valid() && Announced(r) && !closing && received == |Bytes(request)|
      modifies this
      ensures Valid() && request == r && received == 0 && !closing
    {
      hide Announced, Message, HeaderBytes, Parse, Serving;
      bytesRead, scgiHeaderLen, reqLen := 0, 0, 0;
      file, scgi := None, None;
      watch, started := OnHeader, 0;
      request, received, handed := r, 0, [];
      HeaderPart(r);
    }

    /** The length the current callback passes to recv. */
    function Asked(): (k: nat)
      requires Valid()
      reads this, buf
      ensures !closing && received < |Bytes(request)| && HeaderSize(request) <= BUFFER ==> k > 0
      ensures !closing && received < |Bytes(request)| ==>
        var left := |Bytes(request)| - received;
        k == if watch == OnHeader then BUFFER - received else if file == None || left < BUFFER then left else BUFFER
    {
      HeaderPart(request);
      match watch
      case OnHeader => if bytesRead <= BUFFER then BUFFER - bytesRead else 0
      case OnBody =>
        if bytesRead > reqLen then 0
        else if file == None then reqLen - bytesRead
        else if reqLen - bytesRead < BUFFER then reqLen - bytesRead else BUFFER
      case Stopped => 0
    }

    /** recv puts `chunk` at offset `at`; there is always room for it. */
    method Receive(at: nat, chunk: string)
      requires at + |chunk| <= buf.Length
      modifies buf
      ensures buf[..at + |chunk|] == old(buf[..at]) + chunk
    {
      var i := 0;
      while i < |chunk|
        invariant 0 <= i <= |chunk|
        invariant buf[..at + i] == old(buf[..at]) + chunk[..i]
      {
        buf[at + i] := chunk[i];
        i := i + 1;
        assert buf[..at + i] == buf[..at + i - 1] + [chunk[i - 1]];
      }
    }

    /** http_req_process: the application starts on this request. */
    method Process()
      modifies this`started
      ensures started == old(started) + 1
    {
      started := started + 1;
    }

    /**
     * A read event, in either callback. The next `|chunk|` bytes of the message arrive; processing has
     * started if and only if the last one has. An empty chunk means that recv returned 0.
     */
    method OnReadable(chunk: string)
      requires Valid() && !closing && received < |Bytes(request)|
      requires |chunk| <= Asked() && received + |chunk| <= |Bytes(request)|
      requires chunk == Bytes(request)[received..received + |chunk|]
      modifies this, buf
      ensures Valid() && request == old(request) && received == old(received) + |chunk|
      ensures started == (if received == |Bytes(request)| then 1 else 0)
      ensures chunk != [] ==> !closing
      ensures started == 1 ==> handed == [] && HeaderSize(request) <= BUFFER
    {
      hide Announced, Parse, Message, HeaderBytes;
      HeaderPart(request);
      match watch {
        case OnHeader => HeaderCb(chunk);
        case OnBody => if file == None { ReadInBuff(chunk); } else { ReadInFile(chunk); }
      }
    }

    lemma Joined(k: nat, chunk: string)
      requires k + |chunk| <= |Bytes(request)| && chunk == Bytes(request)[k..k + |chunk|]
      ensures Bytes(request)[..k] + chunk == Bytes(request)[..k + |chunk|]
    {}

    lemma BodyJoined(k: nat, chunk: string)
      requires HeaderSize(request) <= k && k + |chunk| <= |Bytes(request)|
      requires chunk == Bytes(request)[k..k + |chunk|]
      ensures var o := k - HeaderSize(request);
        o + |chunk| <= |request.body| && request.body[..o] + chunk == request.body[..o + |chunk|]
    {
      HeaderPart(request);
      var o := k - HeaderSize(request);
      assert chunk == request.body[o..o + |chunk|];
    }

    /** http_req_header_cb */
    method HeaderCb(chunk: string)
      requires Valid() && !closing && received < |Bytes(request)| && watch == OnHeader
      requires |chunk| <= BUFFER - bytesRead && received + |chunk| <= |Bytes(request)|
      requires chunk == Bytes(request)[received..received + |chunk|]
      modifies this, buf
      ensures Valid() && request == old(request) && received == old(received) + |chunk|
      ensures handed == old(handed) && (chunk != [] ==> !closing)
    {
      hide Announced, Parse, Message, HeaderBytes, Atoi, Colon;
      if chunk == [] {
        watch, closing := Stopped, true;
        return;
      }
      Joined(received, chunk);
      Receive(bytesRead, chunk);
      received := received + |chunk|;
      bytesRead := bytesRead + |chunk|;
      ParseReqBuf(received - |chunk|);
    }

    /** parser_req_buf, after a read that left `bytesRead` bytes of the message in the buffer. */
    method ParseReqBuf(ghost before: nat)
      requires buf.Length == BUFFER && Announced(request) && !closing && started == 0 && handed == []
      requires watch == OnHeader && bytesRead == received && before < received && Buffered(received)
      requires before < HeaderSize(request) && file == None && scgi == None
      requires scgiHeaderLen == (if Colon(Bytes(request)[..before]) < before then HeaderSize(request) else 0)
      modifies this
      ensures Valid() && request == old(request) && received == old(received) && !closing
      ensures handed == old(handed)
    {
      hide Announced, Parse, Bytes, HeaderBytes, Atoi, Colon, Texts, Lookup;
      HeaderPart(request);
      ghost var sofar := Bytes(request)[..received];
      AnnouncedSize(request, received);
      if scgiHeaderLen == 0 {
        var i := 0;
        while i < bytesRead && buf[i] != ':'
          invariant 0 <= i <= bytesRead
          invariant forall k :: 0 <= k < i ==> buf[k] != ':'
        {
          i := i + 1;
        }
        assert i == Colon(sofar) by { FirstColon(sofar, i); }
        if i >= bytesRead { return; }
        scgiHeaderLen := Atoi(buf[..bytesRead]) + i + 2;
      } else {
        assert Colon(sofar) < received by { ColonStays(Bytes(request), before, received); }
      }
      if bytesRead >= scgiHeaderLen {
        HeaderComplete();
      }
    }

    /** parser_req_buf, once the whole header packet is in the buffer. */
    method HeaderComplete()
      requires buf.Length == BUFFER && Announced(request) && !closing && started == 0 && handed == []
      requires bytesRead == received >= HeaderSize(request) == scgiHeaderLen && Buffered(received)
      requires file == None && scgi == None
      modifies this
      ensures Valid() && request == old(request) && received == old(received) && !closing
      ensures handed == old(handed)
    {
      hide Announced, Parse, Message, HeaderBytes, Atoi, Colon, Texts, Lookup;
      HeaderPart(request);
      watch := Stopped;
      if buf[scgiHeaderLen - 1] != ',' { return; }
      assert buf[..scgiHeaderLen] == HeaderBytes(request.es, request.n) by {
        assert buf[..received][..scgiHeaderLen] == Bytes(request)[..received][..scgiHeaderLen];
      }
      HeaderParses(request);
      var header := buf[..scgiHeaderLen];
      scgi := Parse(header);
      if scgi == None { return; }
      reqLen := Atoi(ValueGet(header, scgi.value, CONTENT_LENGTH).value);
      bytesRead := bytesRead - scgiHeaderLen;
      if bytesRead == reqLen {
        bytesRead := 0;
        Process();
      } else {
        BodyFollows();
      }
    }

    /** The end of parser_req_buf: an upload that does not fit the buffer goes to a file. */
    method BodyFollows()
      requires buf.Length == BUFFER && Announced(request) && !closing && started == 0 && handed == []
      requires HeaderSize(request) <= received < |Bytes(request)| && Buffered(received) && Parsed()
      requires bytesRead == received - HeaderSize(request) && file == None
      modifies this
      ensures Valid() && request == old(request) && received == old(received) && !closing
      ensures handed == old(handed)
    {
      hide Announced, Parse, Message, HeaderBytes, Atoi, Colon;
      HeaderPart(request);
      if reqLen + scgiHeaderLen > BUFFER {
        assert buf[scgiHeaderLen..scgiHeaderLen + bytesRead] == request.body[..bytesRead] by {
          assert buf[..received][scgiHeaderLen..] == Bytes(request)[..received][scgiHeaderLen..];
        }
        file := Some(buf[scgiHeaderLen..scgiHeaderLen + bytesRead]);
        filePos := bytesRead;
      }
      watch := OnBody;
    }

    /** http_req_body_read_in_buff */
    method ReadInBuff(chunk: string)
      requires Valid() && !closing && received < |Bytes(request)| && watch == OnBody && file == None
      requires |chunk| <= reqLen - bytesRead && received + |chunk| <= |Bytes(request)|
      requires chunk == Bytes(request)[received..received + |chunk|]
      modifies this, buf
      ensures Valid() && request == old(request) && received == old(received) + |chunk|
      ensures handed == old(handed) && (chunk != [] ==> !closing)
    {
      hide Announced, Parse, Message, HeaderBytes;
      HeaderPart(request);
      if chunk == [] {
        watch, closing := Stopped, true;
        return;
      }
      Joined(received, chunk);
      Receive(scgiHeaderLen + bytesRead, chunk);
      received := received + |chunk|;
      bytesRead := bytesRead + |chunk|;
      if bytesRead == reqLen {
        watch := Stopped;
        bytesRead := 0;
        Process();
      }
    }

    /** http_req_body_read_in_file */
    method ReadInFile(chunk: string)
      requires Valid() && !closing && received < |Bytes(request)| && watch == OnBody && file.Some?
      requires received + |chunk| <= |Bytes(request)|
      requires chunk == Bytes(request)[received..received + |chunk|]
      modifies this
      ensures Valid() && request == old(request) && received == old(received) + |chunk| && !closing
      ensures handed == old(handed)
    {
      hide Announced, Parse, Message, HeaderBytes;
      HeaderPart(request);
      BodyJoined(received, chunk);
      file := Some(file.value + chunk);
      filePos := filePos + |chunk|;
      received := received + |chunk|;
      bytesRead := bytesRead + |chunk|;
      if bytesRead == reqLen {
        watch := Stopped;
        bytesRead := 0;
        filePos := 0;
        Process();
      }
    }

    /** The body, or a part of it, as it lies in the buffer behind the header packet. */
    lemma BufferedBody(p: nat, n: nat)
      requires Buffered(|Bytes(request)|) && p + n <= |request.body|
      ensures var at := HeaderSize(request) + p;
        at + n <= buf.Length && buf[at..at + n] == request.body[p..p + n]
    {
      hide Message, HeaderBytes;
      HeaderPart(request);
      var h, b := HeaderSize(request), Bytes(request);
      assert buf[h + p..h + p + n] == buf[..|b|][h + p..h + p + n];
      assert b[h + p..h + p + n] == b[h..][p..p + n];
    }

    /**
     * http_req_body_read: reads of any sizes, laid end to end, give the body, from the buffer or from
     * the file alike; nothing comes back exactly when nothing was asked for or nothing is left.
     */
    method BodyRead(len: nat) returns (out: string)
      requires Valid() && !closing && received == |Bytes(request)|
      modifies this
      ensures Valid() && request == old(request) && received == old(received) && started == old(started)
      ensures !closing
      ensures handed == old(handed) + out
      ensures |handed| <= |request.body| && handed == request.body[..|handed|]
      ensures |out| <= len && (|out| < len ==> handed == request.body)
    {
      hide Announced, Parse, Message, HeaderBytes;
      HeaderPart(request);
      out := [];
      if bytesRead >= reqLen {
        return;
      }
      var read := if len < reqLen - bytesRead then len else reqLen - bytesRead;
      ghost var body := request.body;
      if file.Some? {
        out := file.value[filePos..filePos + read];
        filePos := filePos + read;
      } else {
        var at := scgiHeaderLen + bytesRead;
        out := buf[at..at + read];
        BufferedBody(bytesRead, read);
      }
      Joins(body, bytesRead, bytesRead + read);
      bytesRead := bytesRead + read;
      handed := handed + out;
    }
  }

  /**
   * A whole request under any schedule: every read event delivers some non-empty part of what was asked
   * for, every application read asks for some number of bytes. The request starts once, after its
   * last byte, and the application is given exactly the body.
   */
  method Deliver(req: HttpReq, r: Request) returns (body: string)
    requires req.Valid() && req.request == r && req.received == 0 && !req.closing
    requires HeaderSize(r) <= BUFFER
    modifies req, req.buf
    ensures req.Valid() && req.started == 1 && req.received == |Bytes(r)| && body == r.body
  {
    hide HttpReq.Collecting, HttpReq.Serving, HttpReq.Parsed, HttpReq.Buffered, Announced, Message, HeaderBytes;
    HeaderPart(r);
    var sent := 0;
    while sent < |Bytes(r)|
      invariant req.Valid() && req.request == r && req.received == sent <= |Bytes(r)| && !req.closing
      invariant sent < |Bytes(r)| || (req.started == 1 && req.handed == [])
    {
      assert req.Asked() > 0;
      var k: nat :| 0 < k <= req.Asked() && sent + k <= |Bytes(r)|;
      req.OnReadable(Bytes(r)[sent..sent + k]);
      sent := sent + k;
    }
    body := [];
    while |body| < |r.body|
      invariant req.Valid() && req.request == r && req.received == |Bytes(r)| && !req.closing
      invariant req.started == 1 && body == req.handed
      invariant |body| <= |r.body| && body == r.body[..|body|]
    {
      var len: nat :| len > 0;
      var out := req.BodyRead(len);
      assert out != [];
      body := body + out;
    }
  }

  lemma Joins(s: string, i: nat, j: nat)
    requires i <= j <= |s|
    ensures s[..i] + s[i..j] == s[..j]
  {}

  lemma FirstColon(s: string, i: nat)
    requires i <= |s| && (forall k :: 0 <= k < i ==> s[k] != ':') && (i < |s| ==> s[i] == ':')
    ensures Colon(s) == i
  {}

  lemma ColonStays(b: string, j: nat, k: nat)
    requires j <= k <= |b| && Colon(b[..j]) < j
    ensures Colon(b[..k]) < k
  {
    var c := Colon(b[..j]);
    assert b[..k][c] == b[..j][c];
  }
}
