/** A remote host: its login data and the interactive shell over which
    requests are sent (src/host.rs).  The shell is a fixed sequence of read
    results, a position in it and the list of commands written to it. */
module Hosts {
  import opened Contract
  import opened Framing

  /** What one `shell.read()` gives: a chunk of (already decoded) text, or an error. */
  datatype ReadResult = Chunk(data: string) | ReadError

  function DataOf(r: ReadResult): string
  {
    match r
    case Chunk(d) => d
    case ReadError => ""
  }

  /** The text carried by a sequence of reads, in arrival order. */
  function Text(rs: seq<ReadResult>): string
  {
    if rs == [] then "" else Text(rs[..|rs| - 1]) + DataOf(rs[|rs| - 1])
  }

  predicate AllChunks(rs: seq<ReadResult>)
  {
    forall k :: 0 <= k < |rs| ==> rs[k].Chunk?
  }

  /** No buffer built from buffer and the first m reads, 0 < m <= k, matches. */
  ghost predicate NoFrameWithin(rs: seq<ReadResult>, buffer: string, k: int)
    requires 0 <= k <= |rs|
  {
    forall m :: 0 < m <= k ==> Capture(buffer + Text(rs[..m])).None?
  }

  /** How the read loop of `submit_request` ends: with the captured payload,
      or without one, after `consumed` reads. */
  datatype Scan = Framed(payload: string, consumed: nat) | Unframed(consumed: nat)

  function Advance(sc: Scan, n: nat): Scan
  {
    sc.(consumed := sc.consumed + n)
  }

  /** The read loop as a function of the reads still to come and the text
      buffered so far: append each chunk, rescan the whole buffer, stop at the
      first match or at the first read error.  Running out of reads ends the
      loop as a read error would, after no further read. */
  function ScanFrom(rs: seq<ReadResult>, buffer: string): (sc: Scan)
    ensures sc.consumed <= |rs|
    ensures sc.Framed? ==> 0 < sc.consumed
    decreases |rs|
  {
    if rs == [] then Unframed(0)
    else
      match rs[0]
      case ReadError => Unframed(1)
      case Chunk(d) =>
        match Capture(buffer + d)
        case Some(p) => Framed(p, 1)
        case None => Advance(ScanFrom(rs[1..], buffer + d), 1)
  }

  /** The command line `submit_request` writes to the shell. */
  function Command(codec: Json, request: Request): (line: string)
    ensures |line| == |codec.requestToString(request)| + 18
    ensures line[..17] == "server --request=" && line[|line| - 1] == '\n'
    ensures line[17..|line| - 1] == codec.requestToString(request)
  {
    "server --request=" + codec.requestToString(request) + "\n"
  }

  /** What `submit_request` returns once the loop has ended: the parsed frame
      (a panic if it does not parse), or `Error(RequestParse)` without one. */
  function Reply(codec: Json, sc: Scan): (r: Outcome<Response>)
    ensures sc.Unframed? ==> r == Done(Error(RequestParse))
    ensures r.Panic? <==> sc.Framed? && codec.responseFromString(sc.payload).None?
    ensures r.Panic? ==> r.message == "cannot deserialize response"
    ensures sc.Framed? && r.Done? ==> codec.responseFromString(sc.payload) == Some(r.value)
  {
    match sc
    case Framed(json, _) =>
      (match codec.responseFromString(json)
       case Some(response) => Done(response)
       case None => Panic("cannot deserialize response"))
    case Unframed(_) => Done(Error(RequestParse))
  }

  lemma {:induction false} TextAppend(a: seq<ReadResult>, b: seq<ReadResult>)
    ensures Text(a + b) == Text(a) + Text(b)
    decreases |b|
  {
    if b == [] {
      assert a + b == a;
    } else {
      var b' := b[..|b| - 1];
      assert (a + b)[..|a + b| - 1] == a + b';
      assert (a + b)[|a + b| - 1] == b[|b| - 1];
      TextAppend(a, b');
      calc {
        Text(a + b);
        Text(a + b') + DataOf(b[|b| - 1]);
        (Text(a) + Text(b')) + DataOf(b[|b| - 1]);
        Text(a) + (Text(b') + DataOf(b[|b| - 1]));
      }
    }
  }

  /** Buffering the first m reads of rs on top of buffer is buffering the
      first m - 1 reads of rs[1..] on top of buffer + rs[0]'s data. */
  lemma BufferShift(rs: seq<ReadResult>, buffer: string, m: int)
    requires 0 < m <= |rs|
    ensures buffer + Text(rs[..m]) == (buffer + DataOf(rs[0])) + Text(rs[1..][..m - 1])
  {
    assert rs[..m] == [rs[0]] + rs[1..][..m - 1];
    TextAppend([rs[0]], rs[1..][..m - 1]);
    assert Text([rs[0]]) == DataOf(rs[0]) by {
      assert [rs[0]][..0] == [];
    }
  }

  lemma AllChunksShift(rs: seq<ReadResult>, k: int)
    requires 0 < k <= |rs|
    ensures AllChunks(rs[..k]) <==> rs[0].Chunk? && AllChunks(rs[1..][..k - 1])
  {
    var whole, tail := rs[..k], rs[1..][..k - 1];
    assert whole[0] == rs[0];
    assert forall m :: 0 <= m < k - 1 ==> tail[m] == whole[m + 1];
    if rs[0].Chunk? && AllChunks(tail) {
      forall m | 0 <= m < k ensures whole[m].Chunk? {
        if m > 0 {
          assert whole[m] == tail[m - 1];
        }
      }
    }
  }

  lemma NoFrameShift(rs: seq<ReadResult>, buffer: string, k: int)
    requires 0 < k <= |rs|
    requires Capture(buffer + DataOf(rs[0])).None?
    ensures NoFrameWithin(rs, buffer, k) <==> NoFrameWithin(rs[1..], buffer + DataOf(rs[0]), k - 1)
  {
    var rest, b := rs[1..], buffer + DataOf(rs[0]);
    forall m | 0 < m <= k ensures buffer + Text(rs[..m]) == b + Text(rest[..m - 1]) {
      BufferShift(rs, buffer, m);
    }
    assert b + Text(rest[..0]) == b by { assert rest[..0] == []; }
    if NoFrameWithin(rs, buffer, k) {
      forall m | 0 < m <= k - 1 ensures Capture(b + Text(rest[..m])).None? {
        assert Capture(buffer + Text(rs[..m + 1])).None?;
      }
    }
    if NoFrameWithin(rest, b, k - 1) {
      forall m | 0 < m <= k ensures Capture(buffer + Text(rs[..m])).None? {
        if m > 1 {
          assert Capture(b + Text(rest[..m - 1])).None?;
        }
      }
    }
  }

  /** The first k reads are chunks, no buffer after fewer of them matched,
      and the buffer after all k of them matches with capture p. */
  ghost predicate FirstFrameAt(rs: seq<ReadResult>, buffer: string, p: string, k: int)
  {
    0 < k <= |rs| && AllChunks(rs[..k]) && NoFrameWithin(rs, buffer, k - 1) &&
    Capture(buffer + Text(rs[..k])) == Some(p)
  }

  /** The first read, a chunk whose buffer does not match, can be taken off. */
  lemma FirstFrameShift(rs: seq<ReadResult>, buffer: string, p: string, k: int)
    requires 1 < k <= |rs| && rs[0].Chunk? && Capture(buffer + rs[0].data).None?
    ensures FirstFrameAt(rs, buffer, p, k) <==> FirstFrameAt(rs[1..], buffer + rs[0].data, p, k - 1)
  {
    AllChunksShift(rs, k);
    NoFrameShift(rs, buffer, k - 1);
    BufferShift(rs, buffer, k);
  }

  /** What the first read alone decides: a read error rules out every
      frame, and a chunk whose buffer matches is the only frame. */
  lemma FirstFrameHead(rs: seq<ReadResult>, buffer: string, p: string, k: int)
    requires 0 < k <= |rs|
    ensures rs[0].ReadError? ==> !FirstFrameAt(rs, buffer, p, k)
    ensures rs[0].Chunk? && (k == 1 || Capture(buffer + rs[0].data).Some?) ==>
      (FirstFrameAt(rs, buffer, p, k) <==> k == 1 && Capture(buffer + rs[0].data) == Some(p))
  {
    AllChunksShift(rs, k);
    BufferShift(rs, buffer, 1);
    assert buffer + Text(rs[..1]) == buffer + DataOf(rs[0]) by { assert rs[1..][..0] == []; }
    if k > 1 && rs[0].Chunk? && Capture(buffer + rs[0].data).Some? {
      assert !NoFrameWithin(rs, buffer, k - 1);
    }
  }

  /** The loop stops at the FIRST read after which the whole buffer matches,
      and returns that match's capture: it consumes exactly k reads, all of
      them chunks, no earlier buffer matched, and the k-th one does. */
  lemma {:induction false} ScanFramedIff(rs: seq<ReadResult>, buffer: string, p: string, k: nat)
    ensures ScanFrom(rs, buffer) == Framed(p, k) <==> FirstFrameAt(rs, buffer, p, k)
    decreases |rs|
  {
    if rs == [] || k == 0 || k > |rs| {
      return;
    }
    if rs[0].ReadError? || k == 1 || Capture(buffer + rs[0].data).Some? {
      FirstFrameHead(rs, buffer, p, k);
    } else {
      var b := buffer + rs[0].data;
      assert ScanFrom(rs, buffer) == Advance(ScanFrom(rs[1..], b), 1);
      FirstFrameShift(rs, buffer, p, k);
      ScanFramedIff(rs[1..], b, p, k - 1);
    }
  }

  /** A read error before any match ends the loop without a frame, whatever
      was buffered: the reply is `Error(RequestParse)`. */
  lemma {:induction false} ScanReadError(rs: seq<ReadResult>, buffer: string, k: nat)
    requires k < |rs| && rs[k] == ReadError
    requires AllChunks(rs[..k]) && NoFrameWithin(rs, buffer, k)
    ensures ScanFrom(rs, buffer) == Unframed(k + 1)
    ensures forall codec :: Reply(codec, ScanFrom(rs, buffer)) == Done(Error(RequestParse))
    decreases |rs|
  {
    if k > 0 {
      var rest, b := rs[1..], buffer + DataOf(rs[0]);
      AllChunksShift(rs, k);
      BufferShift(rs, buffer, 1);
      assert b + Text(rest[..0]) == b by { assert rest[..0] == []; }
      assert Capture(buffer + Text(rs[..1])).None?;
      NoFrameShift(rs, buffer, k);
      ScanReadError(rest, b, k - 1);
    }
  }

  /** Reads that run out before any match end the loop without a frame
      after taking all of them: the reply is `Error(RequestParse)`. */
  lemma {:induction false} ScanEnd(rs: seq<ReadResult>, buffer: string)
    requires AllChunks(rs) && NoFrameWithin(rs, buffer, |rs|)
    ensures ScanFrom(rs, buffer) == Unframed(|rs|)
    ensures forall codec :: Reply(codec, ScanFrom(rs, buffer)) == Done(Error(RequestParse))
    decreases |rs|
  {
    if rs != [] {
      var rest, b := rs[1..], buffer + DataOf(rs[0]);
      assert rs[..|rs|] == rs && rest[..|rest|] == rest;
      AllChunksShift(rs, |rs|);
      BufferShift(rs, buffer, 1);
      assert b + Text(rest[..0]) == b by { assert rest[..0] == []; }
      assert Capture(buffer + Text(rs[..1])).None?;
      NoFrameShift(rs, buffer, |rs|);
      ScanEnd(rest, b);
    }
  }

  /** A stream delivered as the chunks cs, one per read. */
  function Chunks(cs: seq<string>): (rs: seq<ReadResult>)
    ensures |rs| == |cs| && AllChunks(rs)
    ensures forall k :: 0 <= k < |cs| ==> rs[k] == Chunk(cs[k])
  {
    seq(|cs|, k requires 0 <= k < |cs| => Chunk(cs[k]))
  }

  function Concat(cs: seq<string>): string
  {
    if cs == [] then "" else cs[0] + Concat(cs[1..])
  }

  lemma {:induction false} ScanChunkedFrameFrom(cs: seq<string>, rest: seq<ReadResult>, buffer: string,
                                                pre: string, p: string, post: string)
    requires '|' !in pre && '|' !in p && '|' !in post && '\n' !in p
    requires buffer + Concat(cs) == pre + Frame(p) + post
    requires |buffer| < |pre| + |p| + 4
    ensures ScanFrom(Chunks(cs) + rest, buffer).Framed?
    ensures ScanFrom(Chunks(cs) + rest, buffer).payload == p
    ensures var n := ScanFrom(Chunks(cs) + rest, buffer).consumed;
      0 < n <= |cs| &&
      |buffer + Concat(cs[..n])| >= |pre| + |p| + 4 &&
      |buffer + Concat(cs[..n - 1])| < |pre| + |p| + 4
    decreases |cs|
  {
    var s := pre + Frame(p) + post;
    if cs != [] {
      var b := buffer + cs[0];
      assert b + Concat(cs[1..]) == s;
      assert s[..|b|] == b;
      CaptureOfStreamPrefix(pre, p, post, |b|);
      var rs := Chunks(cs) + rest;
      assert rs[0] == Chunk(cs[0]);
      assert cs[..0] == [];
      if |b| < |pre| + |p| + 4 {
        assert rs[1..] == Chunks(cs[1..]) + rest;
        ScanChunkedFrameFrom(cs[1..], rest, b, pre, p, post);
        var m := ScanFrom(Chunks(cs[1..]) + rest, b).consumed;
        assert cs[..m + 1][1..] == cs[1..][..m];
        assert cs[..m][1..] == cs[1..][..m - 1];
      } else {
        assert cs[..1][1..] == [];
      }
    }
  }

  /** Round trip through any chunking: when the stream's only `|`
      characters are the two delimiters of `print!("||{}||", p)` and p has
      no newline, the loop returns p however the stream is split into reads,
      and never reads beyond the chunk that completes the frame. */
  lemma ScanChunkedFrame(cs: seq<string>, rest: seq<ReadResult>, pre: string, p: string, post: string)
    requires '|' !in pre && '|' !in p && '|' !in post && '\n' !in p
    requires Concat(cs) == pre + Frame(p) + post
    ensures ScanFrom(Chunks(cs) + rest, "") == Framed(p, ScanFrom(Chunks(cs) + rest, "").consumed)
    ensures var n := ScanFrom(Chunks(cs) + rest, "").consumed;
      0 < n <= |cs| &&
      |Concat(cs[..n])| >= |pre| + |p| + 4 &&
      |Concat(cs[..n - 1])| < |pre| + |p| + 4
  {
    assert "" + Concat(cs) == Concat(cs);
    ScanChunkedFrameFrom(cs, rest, "", pre, p, post);
  }

  /** The state of the read loop of `submit_request` after the reads from
      `start` to `pos` of a stream: the buffer holds their text, and the scan
      of the whole loop is those reads followed by the scan of the rest. */
  ghost predicate Reading(stream: seq<ReadResult>, start: nat, pos: nat, buffer: string, total: Scan)
  {
    start <= pos <= |stream| &&
    buffer == Text(stream[start..pos]) &&
    total == Advance(ScanFrom(stream[pos..], buffer), pos - start)
  }

  /** One pass of the read loop: the end of the stream and a read error
      stop it without a frame; a chunk extends the buffer, and a match of the
      extended buffer stops it with that frame. */
  lemma ReadStep(stream: seq<ReadResult>, start: nat, before: nat, buffer: string, total: Scan)
    requires Reading(stream, start, before, buffer, total)
    ensures before == |stream| ==> total == Unframed(before - start)
    ensures before < |stream| && stream[before].ReadError? ==> total == Unframed(before + 1 - start)
    ensures before < |stream| && stream[before].Chunk? ==>
      var b := buffer + stream[before].data;
      (Capture(b).Some? ==> total == Framed(Capture(b).value, before + 1 - start)) &&
      (Capture(b).None? ==> Reading(stream, start, before + 1, b, total))
  {
    if before < |stream| {
      assert stream[before..][1..] == stream[before + 1..];
      assert stream[start..before + 1][..before - start] == stream[start..before];
    }
  }

  /** The shell channel of an ssh session: the reads it will deliver, how
      many have been taken, and the text written to it. */
  class Shell {
    /** The host the shell was opened on. */
    ghost const owner: string
    const stream: seq<ReadResult>
    var pos: nat
    var written: seq<string>

    ghost predicate Valid()
      reads this
    {
      pos <= |stream|
    }

    /** The reads not yet taken. */
    ghost function Pending(): seq<ReadResult>
      reads this
      requires Valid()
    {
      stream[pos..]
    }

    constructor (ghost owner: string, stream: seq<ReadResult>)
      ensures Valid()
      ensures this.owner == owner && this.stream == stream && pos == 0 && written == []
    {
      this.owner := owner;
      this.stream := stream;
      pos := 0;
      written := [];
    }

    method Write(data: string)
      requires Valid()
      modifies this
      ensures Valid()
      ensures written == old(written) + [data] && pos == old(pos)
    {
      written := written + [data];
    }

    /** The next read result; once the stream is used up, the channel is
        closed and every read fails. */
    method Read() returns (r: ReadResult)
      requires Valid()
      modifies this
      ensures Valid() && written == old(written)
      ensures old(pos) < |stream| ==> r == stream[old(pos)] && pos == old(pos) + 1
      ensures old(pos) == |stream| ==> r == ReadError && pos == old(pos)
    {
      if pos < |stream| {
        r := stream[pos];
        pos := pos + 1;
      } else {
        r := ReadError;
      }
    }
  }

  /** `Host`: the login data, fixed for the host's lifetime, and its shell.
      The ssh session itself is not part of this model. */
  class Host {
    const hostname: string
    const userName: string
    const port: nat
    const shell: Shell

    ghost predicate Valid()
      reads this, shell
    {
      shell.Valid() && shell.owner == hostname && port < 0x1_0000_0000
    }

    /** A host whose connection and shell were opened successfully. */
    constructor (hostname: string, userName: string, port: nat, stream: seq<ReadResult>)
      requires port < 0x1_0000_0000
      ensures Valid() && fresh(shell)
      ensures this.hostname == hostname && this.userName == userName && this.port == port
      ensures shell.stream == stream && shell.pos == 0 && shell.written == []
    {
      this.hostname := hostname;
      this.userName := userName;
      this.port := port;
      shell := new Shell(hostname, stream);
    }

    /** `submit_request`: write the command once, then read, append and
        rescan until the buffer matches or a read fails.  Only the shell
        changes; the host's login data are constants. */
    method SubmitRequest(request: Request, codec: Json) returns (r: Outcome<Response>)
      requires Valid()
      modifies shell
      ensures Valid()
      ensures shell.written == old(shell.written) + [Command(codec, request)]
      ensures shell.pos == old(shell.pos) + ScanFrom(old(shell.Pending()), "").consumed
      ensures r == Reply(codec, ScanFrom(old(shell.Pending()), ""))
    {
      var reqString := codec.requestToString(request);
      var commandString := "server --request=" + reqString + "\n";
      shell.Write(commandString);

      ghost var start := shell.pos;
      ghost var pending := shell.Pending();
      ghost var total := ScanFrom(pending, "");
      var stringResponse := "";
      var json: Option<string> := None;
      while true
        invariant shell.Valid() && start <= shell.pos
        invariant shell.written == old(shell.written) + [Command(codec, request)]
        invariant Reading(shell.stream, start, shell.pos, stringResponse, total)
        decreases |shell.stream| - shell.pos
      {
        ghost var before := shell.pos;
        var byteChunk := shell.Read();
        ReadStep(shell.stream, start, before, stringResponse, total);
        if byteChunk.ReadError? {
          json := None;
          assert total == Unframed(shell.pos - start);
          break;
        }
        stringResponse := stringResponse + byteChunk.data;
        var capture := Capture(stringResponse);
        if capture.Some? {
          json := capture;
          assert total == Framed(capture.value, shell.pos - start);
          break;
        }
      }
      match json
      case Some(j) => {
        match codec.responseFromString(j)
        case Some(response) => r := Done(response);
        case None => r := Panic("cannot deserialize response");
      }
      case None =>
        r := Done(Error(RequestParse));
    }
  }
}
