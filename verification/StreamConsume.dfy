/** Consuming one lifecycle stream and judging what arrived. */
module StreamConsume {
  import opened Common
  import opened Text
  import opened BytesPayload

  datatype Head = Head(
    statusCode: int,
    contentLength: Option<string>,
    contentEncoding: Option<string>,
    transferEncoding: Option<string>,
    httpVersion: Option<string>)

  datatype Sample<D> = Sample(
    bytesRead: nat,
    chunksRead: nat,
    firstChunkBytes: Option<nat>,
    eof: bool,
    head: Head,
    sha256: D)

  datatype Fault = BadHead | BadFraming | Compressed | NothingDelivered | BadPrefix | BadBody

  const HTTP_OK := 200

  function Concat(chunks: seq<Bytes>): Bytes {
    if chunks == [] then [] else Concat(chunks[..|chunks| - 1]) + chunks[|chunks| - 1]
  }

  predicate GoodHead(head: Head, body: nat) {
    && head.statusCode == HTTP_OK && head.contentLength == Some(Decimal(body))
    && head.transferEncoding.None? && (head.httpVersion == Some("HTTP/1.1") || head.httpVersion == Some("1.1"))
    && (head.contentEncoding.None? || head.contentEncoding == Some("identity"))
  }

  /** `_validate`; `prefixDigest` is the expected digest of as many bytes as were read. */
  function Validate<D(==)>(s: Sample<D>, body: nat, firstChunk: bool, prefixDigest: D, digest: D): Option<Fault> {
    if s.head.statusCode != HTTP_OK || s.head.contentLength != Some(Decimal(body)) then Some(BadHead)
    else if s.head.transferEncoding.Some?
         || (s.head.httpVersion != Some("HTTP/1.1") && s.head.httpVersion != Some("1.1")) then Some(BadFraming)
    else if s.head.contentEncoding.Some? && s.head.contentEncoding != Some("identity") then Some(Compressed)
    else if !(0 < s.bytesRead <= body) || s.firstChunkBytes.None? then Some(NothingDelivered)
    else if firstChunk && s.sha256 != prefixDigest then Some(BadPrefix)
    else if !firstChunk && (!s.eof || s.bytesRead != body || s.sha256 != digest) then Some(BadBody)
    else None
  }

  /** The bytes a consumer takes from the chunks of a stream: all of them, or the first nonempty chunk. */
  function Taken(chunks: seq<Bytes>, firstChunk: bool): Bytes {
    if !firstChunk then Concat(chunks)
    else if chunks == [] then []
    else if chunks[0] != [] then chunks[0]
    else Taken(chunks[1..], true)
  }

  function NonEmpty(chunks: seq<Bytes>): nat {
    if chunks == [] then 0 else NonEmpty(chunks[..|chunks| - 1]) + if chunks[|chunks| - 1] != [] then 1 else 0
  }

  lemma {:induction false} TakenAfterEmpty(chunks: seq<Bytes>, k: nat)
    requires k <= |chunks| && forall i :: 0 <= i < k ==> chunks[i] == []
    ensures Taken(chunks, true) == Taken(chunks[k..], true)
    ensures Concat(chunks[..k]) == []
    decreases k
  {
    if k == 0 {
      assert chunks[0..] == chunks;
    } else {
      TakenAfterEmpty(chunks, k - 1);
      assert chunks[..k][..k - 1] == chunks[..k - 1];
      assert chunks[k - 1..][1..] == chunks[k..];
    }
  }

  /** The first thing that is wrong with a response. */
  ghost predicate Explains(fault: Fault, s: Sample, body: nat, firstChunk: bool, sameDigest: bool) {
    var framed := s.head.transferEncoding.None? && s.head.httpVersion in {Some("HTTP/1.1"), Some("1.1")};
    var named := s.head.statusCode == HTTP_OK && s.head.contentLength == Some(Decimal(body));
    match fault
    case BadHead => !named
    case BadFraming => named && !framed
    case Compressed => named && framed && s.head.contentEncoding !in {None, Some("identity")}
    case NothingDelivered => GoodHead(s.head, body) && !(0 < s.bytesRead <= body)
    case BadPrefix => GoodHead(s.head, body) && 0 < s.bytesRead <= body && firstChunk && !sameDigest
    case BadBody =>
      GoodHead(s.head, body) && 0 < s.bytesRead <= body && !firstChunk && !(s.bytesRead == body && sameDigest)
  }

  /** A verdict is None exactly for a good response, and otherwise names the first thing wrong with it. */
  lemma ValidateDecides<D>(s: Sample<D>, body: nat, firstChunk: bool, prefixDigest: D, digest: D)
    requires s.firstChunkBytes.None? <==> s.bytesRead == 0
    requires s.eof == !firstChunk || s.bytesRead == 0
    ensures var fault := Validate(s, body, firstChunk, prefixDigest, digest);
      var same := s.sha256 == if firstChunk then prefixDigest else digest;
      && (fault.None? <==>
            GoodHead(s.head, body) && 0 < s.bytesRead <= body && same && (firstChunk || s.bytesRead == body))
      && (fault.Some? ==> Explains(fault.value, s, body, firstChunk, same))
  {
  }

  /** The chunks a consumer takes, counted and hashed. */
  method TakeChunks<D>(head: Head, chunks: seq<Bytes>, firstChunk: bool, sha: Bytes -> D) returns (s: Sample<D>)
    ensures s.head == head && s.bytesRead == |Taken(chunks, firstChunk)| && s.sha256 == sha(Taken(chunks, firstChunk))
    ensures s.firstChunkBytes.None? <==> s.bytesRead == 0
    ensures s.firstChunkBytes.Some? ==> s.firstChunkBytes.value == |Taken(chunks, true)| > 0
    ensures s.eof <==> !firstChunk || s.bytesRead == 0
    ensures s.chunksRead == if firstChunk && s.bytesRead > 0 then 1 else NonEmpty(chunks)
  {
    var bytesRead, chunksRead := 0, 0;
    var first: Option<nat> := None;
    var eof := true;
    var updated: Bytes := [];
    var k := 0;
    while k < |chunks|
      invariant k <= |chunks| && eof
      invariant updated == Concat(chunks[..k]) && bytesRead == |updated| && chunksRead == NonEmpty(chunks[..k])
      invariant (first.None? <==> bytesRead == 0) && (firstChunk ==> first.None?)
      invariant first.None? ==> forall i :: 0 <= i < k ==> chunks[i] == []
      invariant first.Some? ==> first.value == |Taken(chunks, true)| > 0
    {
      var chunk := chunks[k];
      assert chunks[..k + 1][..k] == chunks[..k];
      k := k + 1;
      if chunk == [] { continue; }
      if first.None? {
        FirstTaken(chunks, k - 1);
        first := Some(|chunk|);
      }
      bytesRead := bytesRead + |chunk|;
      chunksRead := chunksRead + 1;
      updated := updated + chunk;
      if firstChunk {
        eof := false;
        break;
      }
    }
    if eof {
      assert chunks[..|chunks|] == chunks;
      if firstChunk { TakenAfterEmpty(chunks, |chunks|); }
    }
    s := Sample(bytesRead, chunksRead, first, eof, head, sha(updated));
  }

  /**
   Consumes the chunks of a response that ends normally. It is accepted exactly when the response head is as declared,
   something was delivered, and the bytes taken hash to the declared digest (or, for a first chunk, to the digest of
   that many bytes of the body). A refusal names the first thing that is wrong.
   */
  method ConsumeStream<D(==)>(
    head: Head, chunks: seq<Bytes>, body: nat, firstChunk: bool, sha: Bytes -> D, expected: D)
    returns (r: Result<Sample<D>, Fault>, ghost s: Sample<D>)
    ensures r.Ok? <==>
      && GoodHead(head, body) && 0 < |Taken(chunks, firstChunk)| <= body
      && (if firstChunk then sha(Taken(chunks, true)) == sha(Pattern(|Taken(chunks, true)|))
          else |Concat(chunks)| == body && sha(Concat(chunks)) == expected)
    ensures r.Ok? ==> r.value == s && s.firstChunkBytes.Some? && s.eof == !firstChunk
    ensures s.head == head && s.bytesRead == |Taken(chunks, firstChunk)| && s.sha256 == sha(Taken(chunks, firstChunk))
    ensures s.firstChunkBytes.Some? ==> s.firstChunkBytes.value == |Taken(chunks, true)| > 0
    ensures s.chunksRead == if firstChunk && s.bytesRead > 0 then 1 else NonEmpty(chunks)
    ensures r.Err? ==>
      Explains(r.error, s, body, firstChunk,
               s.sha256 == if firstChunk then sha(Pattern(s.bytesRead)) else expected)
  {
    var sample := TakeChunks(head, chunks, firstChunk, sha);
    s := sample;
    var prefix := StreamingBytesSha256(sha, sample.bytesRead);
    ValidateDecides(sample, body, firstChunk, prefix, expected);
    var fault := Validate(sample, body, firstChunk, prefix, expected);
    r := if fault.Some? then Err(fault.value) else Ok(sample);
  }

  lemma FirstTaken(chunks: seq<Bytes>, k: nat)
    requires k < |chunks| && chunks[k] != [] && forall i :: 0 <= i < k ==> chunks[i] == []
    ensures Taken(chunks, true) == chunks[k] == Concat(chunks[..k + 1]) && NonEmpty(chunks[..k]) == 0
  {
    TakenAfterEmpty(chunks, k);
    assert chunks[..k + 1][..k] == chunks[..k];
    NoneNonEmpty(chunks[..k]);
  }

  lemma {:induction false} NoneNonEmpty(chunks: seq<Bytes>)
    requires forall i :: 0 <= i < |chunks| ==> chunks[i] == []
    ensures NonEmpty(chunks) == 0
  {
    if chunks != [] { NoneNonEmpty(chunks[..|chunks| - 1]); }
  }

  /** Whether a consumer would accept these chunks, with the digest the body declares. */
  ghost predicate Accepts<D(!new)>(head: Head, chunks: seq<Bytes>, body: nat, firstChunk: bool, sha: Bytes -> D) {
    && GoodHead(head, body) && 0 < |Taken(chunks, firstChunk)| <= body
    && (if firstChunk then sha(Taken(chunks, true)) == sha(Pattern(|Taken(chunks, true)|))
        else |Concat(chunks)| == body && sha(Concat(chunks)) == sha(Pattern(body)))
  }

  ghost predicate Injective<D(!new)>(sha: Bytes -> D) {
    forall a, b :: sha(a) == sha(b) ==> a == b
  }

  /** Any chunking of the declared body passes, empty chunks included. */
  lemma ServedBodyAccepted<D(!new)>(head: Head, chunks: seq<Bytes>, body: nat, sha: Bytes -> D)
    requires GoodHead(head, body) && body > 0 && Concat(chunks) == ServerBody(body)
    ensures Accepts(head, chunks, body, false, sha)
  {
    ServerBodyIsPattern(body);
  }

  /** So does any first nonempty chunk of it. */
  lemma ServedPrefixAccepted<D(!new)>(head: Head, chunks: seq<Bytes>, body: nat, sha: Bytes -> D)
    requires GoodHead(head, body) && Concat(chunks) != []
    requires Concat(chunks) <= StreamingBytesPayload(body)
    ensures Accepts(head, chunks, body, true, sha)
  {
    PayloadIsPattern(body);
    TakenIsPrefix(chunks);
    var taken := Taken(chunks, true);
    assert taken == Pattern(body)[..|taken|];
    PatternPrefix(body, |taken|);
  }

  /** The first nonempty chunk is a nonempty prefix of everything. */
  lemma {:induction false} TakenIsPrefix(chunks: seq<Bytes>)
    requires Concat(chunks) != []
    ensures Taken(chunks, true) != [] && Taken(chunks, true) <= Concat(chunks)
  {
    var tail := chunks[1..];
    ConcatFirst(chunks);
    if chunks[0] == [] {
      assert Concat(chunks) == Concat(tail);
      TakenIsPrefix(tail);
    }
  }

  lemma ConcatLast(chunks: seq<Bytes>)
    requires |chunks| >= 2
    ensures Concat(chunks[1..]) == Concat(chunks[..|chunks| - 1][1..]) + chunks[|chunks| - 1]
  {
    var tail := chunks[1..];
    assert tail[..|tail| - 1] == chunks[..|chunks| - 1][1..];
  }

  lemma Regroup(a: Bytes, b: Bytes, c: Bytes)
    ensures a + b + c == a + (b + c)
  {
  }

  lemma {:induction false} ConcatFirst(chunks: seq<Bytes>)
    requires chunks != []
    ensures Concat(chunks) == chunks[0] + Concat(chunks[1..])
  {
    if |chunks| == 1 {
      assert chunks[..0] == [] && chunks[1..] == [];
    } else {
      var init, last := chunks[..|chunks| - 1], chunks[|chunks| - 1];
      ConcatFirst(init);
      ConcatLast(chunks);
      Regroup(chunks[0], Concat(init[1..]), last);
    }
  }

  /** With a hash that tells all byte strings apart, acceptance pins the bytes down exactly. */
  lemma AcceptedBytes<D(!new)>(head: Head, chunks: seq<Bytes>, body: nat, firstChunk: bool, sha: Bytes -> D)
    requires Injective(sha)
    ensures !firstChunk ==>
      (Accepts(head, chunks, body, false, sha) <==>
         GoodHead(head, body) && body > 0 && Concat(chunks) == StreamingBytesPayload(body))
    ensures firstChunk ==>
      (Accepts(head, chunks, body, true, sha) <==>
         GoodHead(head, body) && Taken(chunks, true) != [] && Taken(chunks, true) <= StreamingBytesPayload(body))
  {
    PayloadIsPattern(body);
    var taken := Taken(chunks, true);
    if firstChunk && Accepts(head, chunks, body, true, sha) {
      PatternPrefix(body, |taken|);
    }
    if firstChunk && taken <= Pattern(body) {
      assert taken == Pattern(body)[..|taken|];
      PatternPrefix(body, |taken|);
    }
  }
}
