/** The HTTP response value object, its status-text table, and the lines `send` emits. */
module HttpResponse {
  import opened Wrappers
  import opened Strings

  /** Response::$statusTexts */
  const STATUS_TEXTS: map<int, string> := map[
    200 := "OK",
    201 := "Created",
    202 := "Accepted",
    203 := "Non-Authoritative Information",
    204 := "No Content",
    301 := "Moved Permanently",
    400 := "Bad Request",
    401 := "Unauthorized",
    402 := "Payment Required",
    403 := "Forbidden",
    404 := "Not Found",
    405 := "Method Not Allowed",
    500 := "Internal Server Error"
  ]

  const UNKNOWN_STATUS := "unknown status"

  /** The protocol version every response carries. */
  const PROTOCOL_VERSION := "1.0"

  /** The text the constructor looks up for a status code. */
  function LookupStatusText(status: int): string
  {
    if status in STATUS_TEXTS then STATUS_TEXTS[status] else UNKNOWN_STATUS
  }

  /**
   * A response: its content, status code and headers (name, value) in order. The status
   * text and protocol version are derived from these, as the constructor computes them.
   * The defaults are the constructor's: empty content, status 200, no headers.
   */
  datatype Response = Response(content: string := "", status: int := 200, headers: seq<(string, string)> := [])
  {
    function GetContent(): string { content }
    function GetStatusCode(): int { status }
    function GetHeaders(): seq<(string, string)> { headers }
    function GetProtocolVersion(): string { PROTOCOL_VERSION }
    function GetStatusText(): string { LookupStatusText(status) }

    /** The status line `send` emits: "HTTP/<version> <code> <text>". */
    function StatusLine(): (line: string)
      ensures ParseStatusLine(line) == Some((status, GetStatusText()))
    {
      IntToStringHasNoSpace(status);
      IntToStringRoundTrip(status);
      StatusLineParts(IntToString(status), GetStatusText(), status);
      "HTTP/" + GetProtocolVersion() + " " + IntToString(status) + " " + GetStatusText()
    }

    /** The header lines `send` emits, "<name>: <value>", one per header, in order. */
    function HeaderLines(): (lines: seq<string>)
      ensures |lines| == |headers|
    {
      seq(|headers|, i requires 0 <= i < |headers| => headers[i].0 + ": " + headers[i].1)
    }
  }

  /** The table holds exactly 13 codes. */
  lemma StatusTable()
    ensures STATUS_TEXTS.Keys == {200, 201, 202, 203, 204, 301, 400, 401, 402, 403, 404, 405, 500}
  {
  }

  /** "unknown status" is none of the table's texts. */
  lemma StatusTextsKnown()
    ensures forall s :: s in STATUS_TEXTS ==> STATUS_TEXTS[s] != UNKNOWN_STATUS
  {
    StatusTable();
  }

  /** The status text is the table's entry exactly for the 13 listed codes, and "unknown status" otherwise. */
  lemma StatusTextUnknownIff(status: int)
    ensures LookupStatusText(status) == UNKNOWN_STATUS <==> status !in STATUS_TEXTS
    ensures status in STATUS_TEXTS ==> LookupStatusText(status) == STATUS_TEXTS[status]
  {
    StatusTextsKnown();
  }

  /** The constructor's defaults: empty content, status 200 with text "OK", no headers, version 1.0. */
  lemma DefaultResponse()
    ensures Response().GetContent() == ""
    ensures Response().GetStatusCode() == 200 && Response().GetStatusText() == "OK"
    ensures Response().GetHeaders() == [] && Response().GetProtocolVersion() == "1.0"
  {
  }

  // ---------------------------------------------------------------- reading the lines back

  /** The first position of character `c` in `s`. */
  function FindChar(s: string, c: char): (r: Option<nat>)
    ensures r.Some? ==> r.value < |s| && s[r.value] == c && forall i :: 0 <= i < r.value ==> s[i] != c
    ensures r.None? ==> forall i :: 0 <= i < |s| ==> s[i] != c
  {
    if s == [] then None
    else if s[0] == c then Some(0)
    else match FindChar(s[1..], c)
      case None => None
      case Some(i) => Some(i + 1)
  }

  lemma FindCharAfter(a: string, c: char, b: string)
    requires forall i :: 0 <= i < |a| ==> a[i] != c
    ensures FindChar(a + [c] + b, c) == Some(|a|)
  {
    var s := a + [c] + b;
    assert s[|a|] == c;
    assert forall i :: 0 <= i < |a| ==> s[i] == a[i];
  }

  /** Splits a status line "HTTP/1.0 <code> <text>" back into the code and text. */
  function ParseStatusLine(line: string): Option<(int, string)>
  {
    var prefix := "HTTP/" + PROTOCOL_VERSION + " ";
    if !(prefix <= line) then None
    else
      var rest := line[|prefix|..];
      match FindChar(rest, ' ')
      case None => None
      case Some(i) =>
        match ParseInt(rest[..i])
        case None => None
        case Some(code) => Some((code, rest[i + 1..]))
  }

  /** Splits a header line at its first colon, dropping the following space. */
  function ParseHeaderLine(line: string): Option<(string, string)>
  {
    match FindChar(line, ':')
    case None => None
    case Some(i) =>
      if i + 1 < |line| && line[i + 1] == ' ' then Some((line[..i], line[i + 2..])) else None
  }

  lemma IntToStringHasNoSpace(n: int)
    ensures forall i :: 0 <= i < |IntToString(n)| ==> IntToString(n)[i] != ' '
  {
    if n < 0 {
      var d := NatToString(-n);
      assert IntToString(n) == "-" + d;
      assert forall i :: 1 <= i < |IntToString(n)| ==> IntToString(n)[i] == d[i - 1];
    }
  }

  /** A status line built from a space-free code and any text splits back into the two. */
  lemma StatusLineParts(code: string, text: string, n: int)
    requires forall i :: 0 <= i < |code| ==> code[i] != ' '
    requires ParseInt(code) == Some(n)
    ensures ParseStatusLine("HTTP/" + PROTOCOL_VERSION + " " + code + " " + text) == Some((n, text))
  {
    var prefix := "HTTP/" + PROTOCOL_VERSION + " ";
    var line := "HTTP/" + PROTOCOL_VERSION + " " + code + " " + text;
    assert line == prefix + (code + [' '] + text);
    var rest := line[|prefix|..];
    assert rest == code + [' '] + text;
    FindCharAfter(code, ' ', text);
    assert rest[..|code|] == code;
    assert rest[|code| + 1..] == text;
  }

  /** Every header whose name has no colon comes back unchanged from its line. */
  lemma HeaderLinesRoundTrip(r: Response, i: nat)
    requires i < |r.headers|
    requires forall j :: 0 <= j < |r.headers[i].0| ==> r.headers[i].0[j] != ':'
    ensures ParseHeaderLine(r.HeaderLines()[i]) == Some(r.headers[i])
  {
    var (name, value) := r.headers[i];
    var line := r.HeaderLines()[i];
    assert line == name + [':'] + (" " + value);
    FindCharAfter(name, ':', " " + value);
    assert line[..|name|] == name;
    assert line[|name| + 2..] == value;
  }
}
