/**
 * The status-line serialiser of the HTTP server: `buildHttpResponse` renders
 * `HTTP/1.1 <status> <reason>` followed by an empty header block and no body,
 * and refuses any header list that is not empty.
 */
module Server {
  import opened Wrappers
  import opened Decimal

  /** The line separator of the HTTP/1.1 wire format. */
  const CRLF: string := "\r\n"

  /** What every response begins with: the protocol version and one space. */
  const StatusLinePrefix: string := "HTTP/1.1 "

  /** Why a response could not be built. */
  datatype BuildError = HeadersNotSupported

  /** The two fields of a serialised status line. */
  datatype StatusLine = StatusLine(status: int, reason: string)

  /** Serialises a response. The header list is only checked for emptiness:
      its elements are never read, so their type is left open. */
  function BuildHttpResponse<H>(status: GoInt, reason: string, headers: seq<H>): (r: Result<string, BuildError>)
    ensures r.Failure? <==> |headers| > 0
    ensures r.Success? ==> |r.value| == |StatusLinePrefix| + |IntToDecimal(status)| + 1 + |reason| + 2 * |CRLF|
    ensures r.Success? ==> StatusLinePrefix <= r.value
    ensures r.Success? ==> r.value[|r.value| - 4..] == "\r\n\r\n"
  {
    if |headers| > 0 then Failure(HeadersNotSupported)
    else Success(StatusLinePrefix + IntToDecimal(status) + " " + reason + CRLF + CRLF)
  }

  /** Index of the first space in `s` at or after `from`, or `|s|` when there is none. */
  function FirstSpace(s: string, from: nat): (i: nat)
    requires from <= |s|
    ensures from <= i <= |s|
    ensures i < |s| ==> s[i] == ' '
    ensures forall k :: from <= k < i ==> s[k] != ' '
    decreases |s| - from
  {
    if from == |s| || s[from] == ' ' then from else FirstSpace(s, from + 1)
  }

  /** Reads a response that has no headers and no body back into its status
      line: the prefix, a numeral up to the first space, then everything up to
      the closing blank line as the reason. */
  function ParseResponse(wire: string): (r: Option<StatusLine>)
    ensures r.Some? ==> StatusLinePrefix <= wire && wire[|wire| - 4..] == "\r\n\r\n"
  {
    if |wire| < |StatusLinePrefix| + 4 || wire[..|StatusLinePrefix|] != StatusLinePrefix
       || wire[|wire| - 4..] != "\r\n\r\n"
    then None
    else
      var middle := wire[|StatusLinePrefix|..|wire| - 4];
      var sp := FirstSpace(middle, 0);
      if sp == |middle| then None
      else
        match ParseDecimal(middle[..sp])
        case None => None
        case Some(n) => Some(StatusLine(n, middle[sp + 1..]))
  }

  /** A rendered numeral contains no space, so it ends at the first space. */
  lemma DecimalHasNoSpace(n: int)
    ensures forall k :: 0 <= k < |IntToDecimal(n)| ==> IntToDecimal(n)[k] != ' '
  {
  }

  /** Layout of a successful response: the prefix, then exactly the numeral
      `%d` prints for the status, a single space, the reason verbatim (no
      validation, no escaping) and the closing blank line. */
  lemma ResponseLayout<H>(status: GoInt, reason: string, headers: seq<H>)
    requires |headers| == 0
    ensures var r := BuildHttpResponse(status, reason, headers);
            var d := IntToDecimal(status);
            && r.Success?
            && r.value[9..9 + |d|] == d
            && (forall k :: 9 <= k < 9 + |d| ==> r.value[k] != ' ')
            && r.value[9 + |d|] == ' '
            && r.value[10 + |d|..|r.value| - 4] == reason
  {
    DecimalHasNoSpace(status);
  }

  /** Round trip: reading back any response built without headers recovers
      both the status code and the reason phrase. */
  lemma ResponseRoundTrip<H>(status: GoInt, reason: string, headers: seq<H>)
    requires |headers| == 0
    ensures ParseResponse(BuildHttpResponse(status, reason, headers).value) == Some(StatusLine(status, reason))
  {
    var w := BuildHttpResponse(status, reason, headers).value;
    var d := IntToDecimal(status);
    ResponseLayout(status, reason, headers);
    var middle := w[9..|w| - 4];
    assert middle == d + " " + reason;
    DecimalHasNoSpace(status);
    var sp := FirstSpace(middle, 0);
    assert middle[|d|] == ' ';
    assert sp == |d|;
    assert middle[..sp] == d;
    assert middle[sp + 1..] == reason;
    DecimalRoundTrip(status);
  }

  /** Distinct status lines give distinct responses. */
  lemma ResponseInjective<H>(s1: GoInt, r1: string, s2: GoInt, r2: string, headers: seq<H>)
    requires |headers| == 0
    ensures BuildHttpResponse(s1, r1, headers) == BuildHttpResponse(s2, r2, headers) <==> s1 == s2 && r1 == r2
  {
    ResponseRoundTrip(s1, r1, headers);
    ResponseRoundTrip(s2, r2, headers);
  }

  /** Only the number of headers matters, never what they hold. */
  lemma HeadersOnlyByLength<H>(status: GoInt, reason: string, h1: seq<H>, h2: seq<H>)
    requires |h1| == |h2|
    ensures BuildHttpResponse(status, reason, h1) == BuildHttpResponse(status, reason, h2)
  {
  }

  /** The one response the server sends: status 200, reason "OK", no headers. */
  lemma OkResponse()
    ensures var r := BuildHttpResponse<int>(200, "OK", []);
            r.Success? && r.value == "HTTP/1.1 200 OK\r\n\r\n"
  {
  }
}
