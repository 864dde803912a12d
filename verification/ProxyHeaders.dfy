/**
 The plaintext proxy's header handling: parsing a header block, printing the forwarded request, and why the two fit
 together. Octets are written as the characters latin-1 gives them.
 */
module ProxyHeaders {
  import opened HeadText

  // ---------------------------------------------------------------- parsing

  datatype Header = Header(name: string, value: string)

  /** `line.partition(":")`, each side cleaned up. */
  function HeaderOf(line: string): Header {
    var i := FirstColon(line);
    Header(Lower(Strip(line[..i])), Strip(if i == |line| then "" else line[i + 1..]))
  }

  /** Where a name is, or the length. */
  function IndexOf(headers: seq<Header>, name: string): (i: nat)
    ensures i <= |headers| && (i < |headers| ==> headers[i].name == name)
    ensures forall k :: 0 <= k < i ==> headers[k].name != name
  {
    if headers == [] then 0
    else
      var i := IndexOf(headers[..|headers| - 1], name);
      if i < |headers| - 1 || headers[|headers| - 1].name == name then i else i + 1
  }

  /** Assignment into an ordered dictionary: a repeated name keeps its place and takes the new value. */
  function Assign(headers: seq<Header>, h: Header): seq<Header> {
    var i := IndexOf(headers, h.name);
    if i < |headers| then headers[i := h] else headers + [h]
  }

  function HeadersOf(lines: seq<string>): seq<Header> {
    if lines == [] then []
    else
      var before, line := HeadersOf(lines[..|lines| - 1]), lines[|lines| - 1];
      if line == "" then before else Assign(before, HeaderOf(line))
  }

  function Parse(block: string): (string, seq<Header>) {
    var lines := Split(block);
    (lines[0], HeadersOf(lines[1..]))
  }

  method ParseRequestHeaders(block: string) returns (firstLine: string, headers: seq<Header>)
    ensures (firstLine, headers) == Parse(block)
  {
    var lines := Split(block);
    firstLine, headers := lines[0], [];
    for k := 1 to |lines|
      invariant headers == HeadersOf(lines[1..k])
    {
      assert lines[1..k + 1][..k - 1] == lines[1..k];
      if lines[k] == "" { continue; }
      headers := Assign(headers, HeaderOf(lines[k]));
    }
    assert lines[1..|lines|] == lines[1..];
  }

  // ---------------------------------------------------------------- what parsing guarantees

  ghost predicate CleanHeader(h: Header) {
    && Trimmed(h.name) && Lower(h.name) == h.name && ':' !in h.name && CrlfFree(h.name)
    && Trimmed(h.value) && CrlfFree(h.value)
  }

  ghost predicate CleanHeaders(headers: seq<Header>) {
    && (forall i :: 0 <= i < |headers| ==> CleanHeader(headers[i]))
    && (forall i, j :: 0 <= i < j < |headers| ==> headers[i].name != headers[j].name)
  }

  lemma NameClean(side: string)
    requires CrlfFree(side) && ':' !in side
    ensures var name := Lower(Strip(side));
      Trimmed(name) && Lower(name) == name && ':' !in name && CrlfFree(name)
  {
    var stripped := Strip(side);
    StripFacts(side);
    PartCrlfFree(stripped, side);
    forall c { LowerCharFacts(c); }
    assert forall k :: 0 <= k < |stripped| ==> stripped[k] in side;
  }

  lemma HeaderOfClean(line: string)
    requires CrlfFree(line)
    ensures CleanHeader(HeaderOf(line))
  {
    var i := FirstColon(line);
    var left, right := line[..i], if i == |line| then "" else line[i + 1..];
    NoColonBefore(line);
    assert left == line[0..i];
    PartCrlfFree(left, line);
    NameClean(left);
    assert i < |line| ==> right == line[i + 1..|line|];
    assert i == |line| ==> right == line[0..0];
    PartCrlfFree(right, line);
    StripFacts(right);
    PartCrlfFree(Strip(right), right);
  }

  lemma AssignFacts(headers: seq<Header>, h: Header)
    requires CleanHeaders(headers) && CleanHeader(h)
    ensures CleanHeaders(Assign(headers, h))
  {
  }

  lemma AssignFresh(headers: seq<Header>, h: Header)
    requires forall i :: 0 <= i < |headers| ==> headers[i].name != h.name
    ensures Assign(headers, h) == headers + [h]
  {
  }

  lemma {:induction false} HeadersClean(lines: seq<string>)
    requires forall i :: 0 <= i < |lines| ==> CrlfFree(lines[i])
    ensures CleanHeaders(HeadersOf(lines))
  {
    if lines != [] {
      HeadersClean(lines[..|lines| - 1]);
      HeaderOfClean(lines[|lines| - 1]);
      AssignFacts(HeadersOf(lines[..|lines| - 1]), HeaderOf(lines[|lines| - 1]));
    }
  }

  /** Whatever block is parsed, the headers are clean and no name occurs twice. */
  lemma ParseClean(block: string)
    ensures CleanHeaders(Parse(block).1)
  {
    SplitCrlfFree(block);
    HeadersClean(Split(block)[1..]);
  }

  // ---------------------------------------------------------------- printing

  datatype Request = Request(verb: string, version: string, headers: seq<Header>, body: string)

  predicate Dropped(h: Header) {
    h.name == "host" || h.name == "proxy-authorization" || h.name == "proxy-connection"
  }

  /** The headers that are forwarded, in order. */
  function Forwarded(headers: seq<Header>): seq<Header> {
    if headers == [] then []
    else Forwarded(headers[..|headers| - 1])
         + if Dropped(headers[|headers| - 1]) then [] else [headers[|headers| - 1]]
  }

  function LineOf(h: Header): string { h.name + ": " + h.value }

  function LinesOf(headers: seq<Header>): seq<string> {
    seq(|headers|, i requires 0 <= i < |headers| => LineOf(headers[i]))
  }

  function RequestLine(r: Request, path: string): string { r.verb + " " + path + " " + r.version }

  function HeadLines(r: Request, host: string, path: string): seq<string> {
    [RequestLine(r, path), "host: " + host] + LinesOf(Forwarded(r.headers))
  }

  function OriginRequest(r: Request, host: string, path: string): string {
    Join(HeadLines(r, host, path)) + CRLF + CRLF + r.body
  }

  method ProxyOriginRequest(r: Request, host: string, path: string) returns (out: string)
    ensures out == OriginRequest(r, host, path)
  {
    var lines := [RequestLine(r, path), "host: " + host];
    for k := 0 to |r.headers|
      invariant lines == [RequestLine(r, path), "host: " + host] + LinesOf(Forwarded(r.headers[..k]))
    {
      assert r.headers[..k + 1][..k] == r.headers[..k];
      var h := r.headers[k];
      if h.name == "host" || h.name == "proxy-authorization" || h.name == "proxy-connection" { continue; }
      assert LinesOf(Forwarded(r.headers[..k]) + [h]) == LinesOf(Forwarded(r.headers[..k])) + [LineOf(h)];
      lines := lines + [h.name + ": " + h.value];
    }
    assert r.headers[..|r.headers|] == r.headers;
    out := Join(lines) + CRLF + CRLF + r.body;
  }

  // ---------------------------------------------------------------- the round trip

  lemma {:induction false} ForwardedClean(headers: seq<Header>)
    requires CleanHeaders(headers)
    ensures CleanHeaders(Forwarded(headers))
    ensures forall h :: h in Forwarded(headers) <==> h in headers && !Dropped(h)
  {
    if headers != [] {
      var init, last := headers[..|headers| - 1], headers[|headers| - 1];
      ForwardedClean(init);
      assert headers == init + [last];
      forall i | 0 <= i < |Forwarded(init)| ensures Forwarded(init)[i].name != last.name {
        assert Forwarded(init)[i] in init;
      }
    }
  }

  lemma LineClean(h: Header)
    requires CleanHeader(h)
    ensures CrlfFree(LineOf(h)) && LineOf(h) != "" && HeaderOf(LineOf(h)) == h
  {
    var line := LineOf(h);
    assert line == h.name + ":" + (" " + h.value);
    ColonAfter(h.name, " " + h.value);
    assert line[..|h.name|] == h.name && line[|h.name| + 1..] == " " + h.value;
    StripTrimmed(h.name);
    StripTrimmed(h.value);
    forall k | 0 <= k < |line| - 1 ensures !(line[k] == '\r' && line[k + 1] == '\n') {
      if k < |h.name| - 1 {
        assert line[k] == h.name[k] && line[k + 1] == h.name[k + 1];
      } else if k > |h.name| + 1 {
        assert line[k] == h.value[k - |h.name| - 2] && line[k + 1] == h.value[k - |h.name| - 1];
      }
    }
  }

  /** The host line reads back as the stripped host. */
  lemma HostLine(host: string)
    requires CrlfFree(host)
    ensures CrlfFree("host: " + host) && HeaderOf("host: " + host) == Header("host", Strip(host))
  {
    var line := "host: " + host;
    assert line == "host" + ":" + (" " + host);
    ColonAfter("host", " " + host);
    assert line[..4] == "host" && line[5..] == " " + host;
    assert (" " + host)[1..] == host;
    StripTrimmed("host");
    assert Lower("host") == "host";
    forall k | 0 <= k < |line| - 1 ensures !(line[k] == '\r' && line[k + 1] == '\n') {
      if k > 5 { assert line[k] == host[k - 6] && line[k + 1] == host[k - 5]; }
    }
  }

  lemma HeadersSnoc(lines: seq<string>, line: string)
    ensures HeadersOf(lines + [line])
         == if line == "" then HeadersOf(lines) else Assign(HeadersOf(lines), HeaderOf(line))
  {
    assert (lines + [line])[..|lines|] == lines;
  }

  lemma LinesSnoc(headers: seq<Header>, h: Header)
    ensures LinesOf(headers + [h]) == LinesOf(headers) + [LineOf(h)]
  {
  }

  ghost predicate DistinctNames(headers: seq<Header>) {
    forall i, j :: 0 <= i < j < |headers| ==> headers[i].name != headers[j].name
  }

  lemma ReadBackOne(lines: seq<string>, before: seq<Header>, h: Header)
    requires HeadersOf(lines) == before && CleanHeader(h) && DistinctNames(before + [h])
    ensures HeadersOf(lines + [LineOf(h)]) == before + [h]
  {
    LineClean(h);
    HeadersSnoc(lines, LineOf(h));
    var all := before + [h];
    forall i | 0 <= i < |before| ensures before[i].name != h.name {
      assert all[i].name != all[|before|].name;
    }
    AssignFresh(before, h);
  }

  /** Reading back printed headers after lines that gave other names. */
  lemma {:induction false} ReadBack(lines: seq<string>, before: seq<Header>, headers: seq<Header>)
    requires HeadersOf(lines) == before && DistinctNames(before + headers)
    requires forall i :: 0 <= i < |headers| ==> CleanHeader(headers[i])
    ensures HeadersOf(lines + LinesOf(headers)) == before + headers
  {
    if headers == [] {
      assert lines + LinesOf(headers) == lines && before + headers == before;
    } else {
      var init, last := headers[..|headers| - 1], headers[|headers| - 1];
      assert headers == init + [last];
      assert before + headers == before + init + [last];
      assert before + init == (before + headers)[..|before| + |init|];
      ReadBack(lines, before, init);
      LinesSnoc(init, last);
      assert lines + LinesOf(headers) == lines + LinesOf(init) + [LineOf(last)];
      ReadBackOne(lines + LinesOf(init), before + init, last);
    }
  }

  lemma {:induction false} BlankLinesIgnored(lines: seq<string>)
    ensures HeadersOf(lines + ["", ""]) == HeadersOf(lines)
  {
    assert (lines + ["", ""])[..|lines| + 1] == lines + [""];
    assert (lines + [""])[..|lines|] == lines;
  }

  lemma HeadLinesClean(r: Request, host: string, path: string)
    requires CleanHeaders(r.headers) && CrlfFree(RequestLine(r, path)) && CrlfFree(host)
    ensures forall i :: 0 <= i < |HeadLines(r, host, path)| ==>
      CrlfFree(HeadLines(r, host, path)[i]) && HeadLines(r, host, path)[i] != ""
  {
    ForwardedClean(r.headers);
    HostLine(host);
    var lines, forwarded := HeadLines(r, host, path), Forwarded(r.headers);
    forall i | 0 <= i < |lines| ensures CrlfFree(lines[i]) && lines[i] != "" {
      if i >= 2 {
        assert lines[i] == LineOf(forwarded[i - 2]);
        LineClean(forwarded[i - 2]);
      }
    }
  }

  /**
   For headers that came out of the parser and a request line and host without a line end, the first blank line of
   the forwarded request is exactly its head's end, the body follows unchanged, and parsing the head again gives the
   request line, the stripped target host first, and all headers but the dropped ones, unchanged and in order.
   */
  lemma RoundTrip(block: string, r: Request, host: string, path: string)
    requires r.headers == Parse(block).1 && CrlfFree(RequestLine(r, path)) && CrlfFree(host)
    ensures var out := OriginRequest(r, host, path);
      var end := FirstBlank(out);
      && end + 4 <= |out| && out[end + 4..] == r.body
      && Parse(out[..end + 4]) == (RequestLine(r, path), [Header("host", Strip(host))] + Forwarded(r.headers))
  {
    ParseClean(block);
    HeadLinesClean(r, host, path);
    var lines := HeadLines(r, host, path);
    HeadEnds(lines, r.body);
    var out, head := OriginRequest(r, host, path), Join(lines) + CRLF + CRLF;
    assert out == head + r.body;
    assert out[..|Join(lines)| + 4] == head && out[|Join(lines)| + 4..] == r.body;
    HeadReadsBack(r, host, path);
  }

  lemma ForwardedReadBack(host: string, headers: seq<Header>)
    requires CleanHeaders(headers) && CrlfFree(host)
    ensures HeadersOf(["host: " + host] + LinesOf(Forwarded(headers)))
         == [Header("host", Strip(host))] + Forwarded(headers)
  {
    var first, forwarded := Header("host", Strip(host)), Forwarded(headers);
    ForwardedClean(headers);
    HostLine(host);
    HeadersSnoc([], "host: " + host);
    assert [] + ["host: " + host] == ["host: " + host];
    forall i | 0 <= i < |forwarded| ensures forwarded[i].name != "host" {
      assert forwarded[i] in forwarded;
    }
    assert DistinctNames([first] + forwarded);
    ReadBack(["host: " + host], [first], forwarded);
  }

  lemma HeadReadsBack(r: Request, host: string, path: string)
    requires CleanHeaders(r.headers) && CrlfFree(RequestLine(r, path)) && CrlfFree(host)
    ensures Parse(Join(HeadLines(r, host, path)) + CRLF + CRLF)
         == (RequestLine(r, path), [Header("host", Strip(host))] + Forwarded(r.headers))
  {
    var lines := HeadLines(r, host, path);
    HeadLinesClean(r, host, path);
    ParseJoined(lines);
    assert lines[1..] == ["host: " + host] + LinesOf(Forwarded(r.headers));
    ForwardedReadBack(host, r.headers);
  }

  /** Parsing joined lines reads them one by one. */
  lemma ParseJoined(lines: seq<string>)
    requires lines != [] && AllFree(lines)
    ensures Parse(Join(lines) + CRLF + CRLF) == (lines[0], HeadersOf(lines[1..]))
  {
    SplitBlank(lines);
    var all := lines + ["", ""];
    assert all[0] == lines[0] && all[1..] == lines[1..] + ["", ""];
    BlankLinesIgnored(lines[1..]);
  }
}
