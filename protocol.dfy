/** The request/response round trip over a remote shell: what
    `submit_request` returns when the remote side runs `run_server` on the
    request it was sent. */
module Protocol {
  import opened Contract
  import opened Framing
  import opened Hosts
  import opened Server

  /** serde_json reads back every response it writes. */
  ghost predicate ResponsesRoundTrip(codec: Json)
  {
    forall response :: codec.responseFromString(codec.responseToString(response)) == Some(response)
  }

  /** If the shell delivers the server's output, surrounded by any text
      without `|` and split into reads in any way, and the serialised
      response has neither `|` nor a newline, then `submit_request` returns
      exactly the response the server computed for the serialised request. */
  lemma RemoteRoundTrip(codec: Json, env: map<string, string>, fileCheck: FileCheck, request: Request,
                        cs: seq<string>, rest: seq<ReadResult>, pre: string, post: string)
    requires ResponsesRoundTrip(codec)
    requires var json := codec.responseToString(ServerResponse(codec, env, fileCheck, codec.requestToString(request)));
      '|' !in json && '\n' !in json
    requires '|' !in pre && '|' !in post
    requires Concat(cs) == pre + ServerOutput(codec, env, fileCheck, codec.requestToString(request)) + post
    ensures Reply(codec, ScanFrom(Chunks(cs) + rest, "")) ==
            Done(ServerResponse(codec, env, fileCheck, codec.requestToString(request)))
  {
    var response := ServerResponse(codec, env, fileCheck, codec.requestToString(request));
    ScanChunkedFrame(cs, rest, pre, codec.responseToString(response), post);
  }

  /** A stream that ends, or fails, before any frame has arrived gives
      `Error(RequestParse)` and consumes every read up to that point. */
  lemma NoFrameGivesRequestParse(codec: Json, cs: seq<string>)
    requires forall i, j :: !IsMatch(Concat(cs), i, j)
    ensures ScanFrom(Chunks(cs), "") == Unframed(|cs|)
    ensures Reply(codec, ScanFrom(Chunks(cs), "")) == Done(Error(RequestParse))
    ensures ScanFrom(Chunks(cs) + [ReadError], "") == Unframed(|cs| + 1)
    ensures Reply(codec, ScanFrom(Chunks(cs) + [ReadError], "")) == Done(Error(RequestParse))
  {
    NoFrameInChunks(cs, []);
    assert Chunks(cs) + [] == Chunks(cs);
    ScanEnd(Chunks(cs), "");
    var rs := Chunks(cs) + [ReadError];
    NoFrameInChunks(cs, [ReadError]);
    assert rs[..|cs|] == Chunks(cs);
    ScanReadError(rs, "", |cs|);
  }

  /** Whatever follows the chunks, no buffer built from them matches. */
  lemma NoFrameInChunks(cs: seq<string>, rest: seq<ReadResult>)
    requires forall i, j :: !IsMatch(Concat(cs), i, j)
    ensures NoFrameWithin(Chunks(cs) + rest, "", |cs|)
  {
    var c := Chunks(cs);
    forall m | 0 < m <= |cs| ensures Capture("" + Text((c + rest)[..m])).None? {
      NoMatchInPrefix(cs, m);
      TakeOfAppend(c, rest, m);
    }
  }

  lemma TakeOfAppend<T>(a: seq<T>, b: seq<T>, m: int)
    requires 0 <= m <= |a|
    ensures (a + b)[..m] == a[..m]
  {
  }

  /** Prefixes of a text without a match have none either. */
  lemma NoMatchInPrefix(cs: seq<string>, m: int)
    requires 0 <= m <= |cs|
    requires forall i, j :: !IsMatch(Concat(cs), i, j)
    ensures "" + Text(Chunks(cs)[..m]) <= Concat(cs)
    ensures Capture("" + Text(Chunks(cs)[..m])).None?
  {
    var t := "" + Text(Chunks(cs)[..m]);
    TextOfChunksPrefix(cs, m);
    MatchInPrefix(t, Concat(cs));
    CaptureMeaning(t);
  }

  /** The text of the first m chunk reads is a prefix of the whole text. */
  lemma TextOfChunksPrefix(cs: seq<string>, m: int)
    requires 0 <= m <= |cs|
    ensures Text(Chunks(cs)[..m]) <= Concat(cs)
  {
    ConcatSplit(cs, m);
    TextOfChunks(cs, m);
  }

  lemma {:induction false} ConcatAppend(a: seq<string>, b: seq<string>)
    ensures Concat(a + b) == Concat(a) + Concat(b)
    decreases |a|
  {
    if a == [] {
      assert a + b == b;
    } else {
      assert (a + b)[1..] == a[1..] + b;
      ConcatAppend(a[1..], b);
    }
  }

  /** Concat(cs) is Concat(cs[..m]) followed by Concat(cs[m..]). */
  lemma ConcatSplit(cs: seq<string>, m: int)
    requires 0 <= m <= |cs|
    ensures Concat(cs) == Concat(cs[..m]) + Concat(cs[m..])
  {
    assert cs == cs[..m] + cs[m..];
    ConcatAppend(cs[..m], cs[m..]);
  }

  /** The text of the first m reads of Chunks(cs) is Concat(cs[..m]). */
  lemma {:induction false} TextOfChunks(cs: seq<string>, m: int)
    requires 0 <= m <= |cs|
    ensures Text(Chunks(cs)[..m]) == Concat(cs[..m])
    decreases m
  {
    if m == 0 {
      assert Chunks(cs)[..0] == [] && cs[..0] == [];
    } else {
      TextOfChunks(cs, m - 1);
      var rs := Chunks(cs)[..m];
      assert rs[..m - 1] == Chunks(cs)[..m - 1];
      assert DataOf(rs[m - 1]) == cs[m - 1];
      assert cs[..m] == cs[..m - 1] + [cs[m - 1]];
      ConcatAppend(cs[..m - 1], [cs[m - 1]]);
      assert Concat([cs[m - 1]]) == cs[m - 1] by { assert [cs[m - 1]][1..] == []; }
    }
  }
}
