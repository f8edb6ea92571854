/** The response http_response_write of webservice/http_session.c sends, and a reader that recovers its
    body as sections 3 and 3.3.2 of RFC 7230 have it: the head ends at the first empty line, and
    Content-Length tells how many octets follow. */
module Response {
  import opened Memory
  import opened Substitution

  const CR: char := '\r'
  const CRLF := "\r\n"
  const BLANK := "\r\n\r\n"

  const STATUS_LINE := "HTTP/1.0 200 OK"
  const CONTENT_TYPE := "Content-Type: text/plain"
  const CONTENT_LENGTH := "Content-Length: "
  const SERVER := "Server: Tigera/WebServer/1.0.0"

  function Digit(d: nat): char
    requires d < 10
  {
    ('0' as int + d) as char
  }

  // What "%zu" prints.
  function Decimal(n: nat): (s: string)
    ensures s != [] && CR !in s
  {
    if n < 10 then [Digit(n)] else Decimal(n / 10) + [Digit(n % 10)]
  }

  function ReadDecimal(s: string): Option<nat> {
    if s == [] || !('0' <= s[|s| - 1] <= '9') then None
    else
      var d: nat := s[|s| - 1] as int - '0' as int;
      if |s| == 1 then Some(d)
      else
        var rest := ReadDecimal(s[..|s| - 1]);
        if rest.None? then None else Some(10 * rest.value + d)
  }

  lemma {:induction false} DecimalRoundTrip(n: nat)
    ensures ReadDecimal(Decimal(n)) == Some(n)
  {
    if n >= 10 {
      DecimalRoundTrip(n / 10);
      var s := Decimal(n);
      assert s[..|s| - 1] == Decimal(n / 10);
    }
  }

  // The lines of a head, each with its line end.
  function Head(lines: seq<string>): string {
    if lines == [] then [] else lines[0] + CRLF + Head(lines[1..])
  }

  function ResponseLines(bodyLength: nat, dateLine: string): seq<string> {
    [STATUS_LINE, CONTENT_TYPE, CONTENT_LENGTH + Decimal(bodyLength), SERVER, dateLine]
  }

  // A whole response; `dateLine` is what strftime gives, without its line end.
  function Render(body: string, dateLine: string): string {
    Head(ResponseLines(|body|, dateLine)) + CRLF + body
  }

  // The 37 characters http_get_datetime insists on, with the line end.
  predicate IsDateLine(dateLine: string) {
    |dateLine| == 35 && CR !in dateLine
  }

  // The reader

  // The rest of the first line that starts with `name`.
  function Field(lines: seq<string>, name: string): Option<string> {
    if lines == [] then None
    else if name <= lines[0] then Some(lines[0][|name|..])
    else Field(lines[1..], name)
  }

  function LengthOf(head: string): Option<nat> {
    match Field(Split(head, CRLF), CONTENT_LENGTH)
    case None => None
    case Some(length) => ReadDecimal(length)
  }

  function ReadFrom(s: string, n: nat, length: nat): Option<string> {
    if n + length <= |s| then Some(s[n..n + length]) else None
  }

  function ReadResponse(s: string): Option<string> {
    match StrStr(s, BLANK, 0)
    case None => None
    case Some(n) =>
      match LengthOf(s[..n])
      case None => None
      case Some(length) => ReadFrom(s, n + 4, length)
  }

  // The version and the code of a status line: "HTTP/", a digit, a dot, a digit, a space and three digits.
  function StatusOf(line: string): Option<(string, nat)> {
    if |line| < 12 || !("HTTP/" <= line) || line[8] != ' ' || (|line| > 12 && line[12] != ' ') then None
    else
      match ReadDecimal(line[9..12])
      case None => None
      case Some(code) => Some((line[5..8], code))
  }

  // The status of a response, from its first line.
  function ReadStatus(s: string): Option<(string, nat)> {
    match StrStr(s, CRLF, 0)
    case None => None
    case Some(n) => StatusOf(s[..n])
  }

  // The lines of a response's head.
  function ReadHead(s: string): Option<seq<string>> {
    match StrStr(s, BLANK, 0)
    case None => None
    case Some(n) => Some(Split(s[..n], CRLF))
  }

  // The round trip

  predicate PlainLines(lines: seq<string>) {
    forall i :: 0 <= i < |lines| ==> lines[i] != [] && CR !in lines[i]
  }

  // Lines joined by line ends.
  function Joined(lines: seq<string>): string
    requires lines != []
  {
    Join(lines, CRLF)
  }

  lemma {:induction false} HeadIsJoined(lines: seq<string>)
    requires lines != []
    ensures Head(lines) == Joined(lines) + CRLF
  {
    if |lines| > 1 {
      HeadIsJoined(lines[1..]);
      Assoc(lines[0] + CRLF, Joined(lines[1..]), CRLF);
    } else {
      assert lines[0] + CRLF + [] == lines[0] + CRLF;
    }
  }

  lemma {:induction false} SplitLines(lines: seq<string>)
    requires lines != [] && PlainLines(lines)
    ensures Split(Joined(lines), CRLF) == lines
  {
    var l := lines[0];
    if |lines| == 1 {
      assert l + [] == l;
      SplitSkips(l, [], CRLF);
      assert Split([], CRLF) == [[]];
    } else {
      var rest := Joined(lines[1..]);
      SplitLines(lines[1..]);
      Assoc(l, CRLF, rest);
      SplitSkips(l, CRLF + rest, CRLF);
      assert (CRLF + rest)[|CRLF|..] == rest;
      assert Split(CRLF + rest, CRLF) == [[]] + lines[1..];
      assert l + [] == l && ([[]] + lines[1..])[1..] == lines[1..];
    }
  }

  lemma BlankStarts(s: string, q: nat)
    ensures OccursAt(s, BLANK, q) ==> q + 4 <= |s| && s[q] == CR && s[q + 1] == '\n' && s[q + 2] == CR
  {
    if q + 4 <= |s| {
      var four := s[q..q + 4];
      assert four[0] == s[q] && four[1] == s[q + 1] && four[2] == s[q + 2];
    }
  }

  // Where a blank line can start: nowhere before the end of the lines.
  lemma {:induction false} NoBlankBefore(lines: seq<string>, tail: string, q: nat)
    requires lines != [] && PlainLines(lines) && q < |Joined(lines)|
    ensures !OccursAt(Joined(lines) + tail, BLANK, q)
  {
    var l, s := lines[0], Joined(lines) + tail;
    BlankStarts(s, q);
    if q < |l| {
      assert s[q] == l[q];
    } else {
      var rest := Joined(lines[1..]);
      assert s == l + CRLF + (rest + tail);
      if q < |l| + 2 {
        assert s[|l| + 2] == rest[0] == lines[1][0] && s[|l| + 1] == '\n';
      } else {
        OccursShift(l + CRLF, rest + tail, BLANK, q - |l| - 2);
        NoBlankBefore(lines[1..], tail, q - |l| - 2);
      }
    }
  }

  lemma FirstBlank(lines: seq<string>, tail: string)
    requires lines != [] && PlainLines(lines)
    ensures StrStr(Head(lines) + CRLF + tail, BLANK, 0) == Some(|Joined(lines)|)
    ensures (Head(lines) + CRLF + tail)[..|Joined(lines)|] == Joined(lines)
    ensures (Head(lines) + CRLF + tail)[|Joined(lines)| + 4..] == tail
  {
    HeadIsJoined(lines);
    var n, s := |Joined(lines)|, Head(lines) + CRLF + tail;
    assert s == Joined(lines) + (BLANK + tail);
    assert s[n..n + 4] == BLANK;
    forall q | 0 <= q < n
      ensures !OccursAt(s, BLANK, q)
    {
      NoBlankBefore(lines, BLANK + tail, q);
    }
    assert OccursAt(s, BLANK, n);
  }

  lemma LengthField(n: nat, dateLine: string)
    ensures Field(ResponseLines(n, dateLine), CONTENT_LENGTH) == Some(Decimal(n))
  {
    var lines := ResponseLines(n, dateLine);
    var two, three := lines[1..], lines[1..][1..];
    assert STATUS_LINE[0] != CONTENT_LENGTH[0] && CONTENT_TYPE[8] != CONTENT_LENGTH[8];
    assert two[0] == CONTENT_TYPE && three[0] == CONTENT_LENGTH + Decimal(n);
    assert three[0][|CONTENT_LENGTH|..] == Decimal(n);
    assert Field(three, CONTENT_LENGTH) == Some(Decimal(n));
    assert Field(two, CONTENT_LENGTH) == Field(three, CONTENT_LENGTH);
  }

  lemma HeadTellsLength(n: nat, dateLine: string)
    requires IsDateLine(dateLine)
    ensures LengthOf(Joined(ResponseLines(n, dateLine))) == Some(n)
  {
    assert PlainLines(ResponseLines(n, dateLine));
    SplitLines(ResponseLines(n, dateLine));
    LengthField(n, dateLine);
    DecimalRoundTrip(n);
  }

  lemma ReadsWhatFollows(s: string, n: nat, body: string, after: string)
    requires n <= |s| && s[n..] == body + after
    ensures ReadFrom(s, n, |body|) == Some(body)
  {
    assert s[n..n + |body|] == s[n..][..|body|];
  }

  /** Whatever the body, and whatever follows the response, the reader gets the body back. */
  lemma ResponseRoundTrip(body: string, dateLine: string, after: string)
    requires IsDateLine(dateLine)
    ensures ReadResponse(Render(body, dateLine) + after) == Some(body)
  {
    var lines := ResponseLines(|body|, dateLine);
    var n, s := |Joined(lines)|, Render(body, dateLine) + after;
    assert PlainLines(lines);
    assert s == Head(lines) + CRLF + (body + after);
    FirstBlank(lines, body + after);
    HeadTellsLength(|body|, dateLine);
    ReadsWhatFollows(s, n + 4, body, after);
  }

  lemma CrlfStarts(s: string, q: nat)
    ensures OccursAt(s, CRLF, q) ==> q < |s| && s[q] == CR
  {
    if OccursAt(s, CRLF, q) {
      var two := s[q..q + 2];
      assert two[0] == s[q];
    }
  }

  lemma FirstLine(line: string, rest: string)
    requires CR !in line
    ensures StrStr(line + CRLF + rest, CRLF, 0) == Some(|line|)
  {
    var s := line + CRLF + rest;
    assert s == line + (CRLF + rest);
    OccursShift(line, CRLF + rest, CRLF, 0);
    assert OccursAt(CRLF + rest, CRLF, 0);
    forall q | 0 <= q < |line|
      ensures !OccursAt(s, CRLF, q)
    {
      CrlfStarts(s, q);
      assert s[q] == line[q];
    }
  }

  lemma StatusIsOk()
    ensures StatusOf("HTTP/1.0 200 OK") == Some(("1.0", 200))
  {
    var line := "HTTP/1.0 200 OK";
    assert line[9..12] == "200" && line[5..8] == "1.0";
    assert "200"[..2] == "20" && "20"[..1] == "2";
    assert ReadDecimal("2") == Some(2) && ReadDecimal("20") == Some(20);
  }

  /** Whatever the body, and whatever follows the response, it says version 1.0 and status 200. */
  lemma StatusRoundTrip(body: string, dateLine: string, after: string)
    ensures ReadStatus(Render(body, dateLine) + after) == Some(("1.0", 200))
  {
    var lines, s := ResponseLines(|body|, dateLine), Render(body, dateLine) + after;
    var line, rest := "HTTP/1.0 200 OK", Head(lines[1..]) + CRLF + body + after;
    assert Head(lines) == line + CRLF + Head(lines[1..]);
    assert s == line + CRLF + rest;
    FirstLine(line, rest);
    assert s[..|line|] == line;
    StatusIsOk();
  }

  /** Whatever the body, and whatever follows the response, the reader gets the lines of the head back. */
  lemma HeadRoundTrip(body: string, dateLine: string, after: string)
    requires IsDateLine(dateLine)
    ensures ReadHead(Render(body, dateLine) + after) == Some(ResponseLines(|body|, dateLine))
  {
    var lines, s := ResponseLines(|body|, dateLine), Render(body, dateLine) + after;
    assert PlainLines(lines);
    assert s == Head(lines) + CRLF + (body + after);
    FirstBlank(lines, body + after);
    SplitLines(lines);
  }

  // These five lines are all: version and status, the body's type and length, the server and the date.
  lemma LinesSpelled(n: nat, dateLine: string)
    ensures ResponseLines(n, dateLine)
            == ["HTTP/1.0 200 OK", "Content-Type: " + "text/plain", "Content-Length: " + Decimal(n),
                "Server: " + "Tigera/WebServer/1.0.0", dateLine]
  {
    assert CONTENT_TYPE == "Content-Type: " + "text/plain";
    assert SERVER == "Server: " + "Tigera/WebServer/1.0.0";
  }

  lemma FieldHere(name: string, value: string, rest: seq<string>)
    ensures Field([name + value] + rest, name) == Some(value)
  {
    assert (name + value)[|name|..] == value;
  }

  lemma FieldFurther(line: string, rest: seq<string>, name: string, k: nat)
    requires k < |line| && k < |name| && line[k] != name[k]
    ensures Field([line] + rest, name) == Field(rest, name)
  {
    assert ([line] + rest)[1..] == rest;
  }

  // A reader that looks for the type of the body finds plain text.
  lemma TypeIsText(n: nat, dateLine: string)
    ensures Field(ResponseLines(n, dateLine), "Content-Type: ") == Some("text/plain")
  {
    LinesSpelled(n, dateLine);
    var rest := ["Content-Length: " + Decimal(n), "Server: " + "Tigera/WebServer/1.0.0", dateLine];
    var lines := ["Content-Type: " + "text/plain"] + rest;
    assert ResponseLines(n, dateLine) == ["HTTP/1.0 200 OK"] + lines;
    FieldFurther("HTTP/1.0 200 OK", lines, "Content-Type: ", 0);
    FieldHere("Content-Type: ", "text/plain", rest);
  }

  /** And so it reads, with the body behind it. */
  lemma TypeRoundTrip(body: string, dateLine: string, after: string)
    requires IsDateLine(dateLine)
    ensures var head := ReadHead(Render(body, dateLine) + after);
            head.Some? && Field(head.value, "Content-Type: ") == Some("text/plain")
  {
    HeadRoundTrip(body, dateLine, after);
    TypeIsText(|body|, dateLine);
  }

  // The writer

  lemma HeadCons(l: string, lines: seq<string>)
    ensures Head([l] + lines) == l + CRLF + Head(lines)
  {
    assert ([l] + lines)[1..] == lines;
  }

  lemma HeadSpelled(a: string, b: string, c: string, d: string, e: string)
    ensures Head([a, b, c, d, e])
            == (a + CRLF) + ((b + CRLF) + ((c + CRLF) + ((d + CRLF) + (e + CRLF))))
  {
    HeadCons(e, []);
    HeadCons(d, [e]);
    HeadCons(c, [d, e]);
    HeadCons(b, [c, d, e]);
    HeadCons(a, [b, c, d, e]);
    assert [a] + [b, c, d, e] == [a, b, c, d, e] && [b] + [c, d, e] == [b, c, d, e];
    assert [c] + [d, e] == [c, d, e] && [d] + [e] == [d, e] && [e] + [] == [e];
    assert e + CRLF + [] == e + CRLF;
  }

  lemma Regroup5(a: string, b: string, c: string, d: string, e: string, f: string)
    ensures a + (b + (c + (d + e))) + f == a + (b + (c + (d + (e + f))))
  {
    Assoc(d, e, f);
    Assoc(c, d + e, f);
    Assoc(b, c + (d + e), f);
    Assoc(a, b + (c + (d + e)), f);
  }

  lemma RenderSpelled(body: string, dateLine: string)
    ensures Render(body, dateLine)
            == (STATUS_LINE + CRLF) + ((CONTENT_TYPE + CRLF) + ((CONTENT_LENGTH + Decimal(|body|) + CRLF)
               + ((SERVER + CRLF) + ((dateLine + CRLF) + (CRLF + body)))))
  {
    var a, b, c := STATUS_LINE + CRLF, CONTENT_TYPE + CRLF, CONTENT_LENGTH + Decimal(|body|) + CRLF;
    var d, e := SERVER + CRLF, dateLine + CRLF;
    HeadSpelled(STATUS_LINE, CONTENT_TYPE, CONTENT_LENGTH + Decimal(|body|), SERVER, dateLine);
    Assoc(Head(ResponseLines(|body|, dateLine)), CRLF, body);
    Regroup5(a, b, c, d, e, CRLF + body);
  }

  lemma LineEnds()
    ensures STATUS_LINE + CRLF == "HTTP/1.0 200 OK\r\n" && CONTENT_TYPE + CRLF == "Content-Type: text/plain\r\n"
    ensures SERVER + CRLF == "Server: Tigera/WebServer/1.0.0\r\n" && CRLF == "\r\n"
  {
  }

  /** The response, letter for letter. */
  lemma RenderIs(body: string, dateLine: string)
    ensures Render(body, dateLine)
            == "HTTP/1.0 200 OK\r\n" + ("Content-Type: text/plain\r\n"
               + (("Content-Length: " + Decimal(|body|) + "\r\n") + ("Server: Tigera/WebServer/1.0.0\r\n"
               + ((dateLine + "\r\n") + ("\r\n" + body)))))
  {
    RenderSpelled(body, dateLine);
    LineEnds();
  }

  lemma DecimalExamples()
    ensures Decimal(0) == "0" && Decimal(7) == "7" && Decimal(120) == "120"
  {
    assert Decimal(1) == "1" && Decimal(12) == "12";
  }

  // `written` is a beginning of the response, with `rest` to come.
  ghost predicate Begins(written: string, rest: string, body: string, dateLine: string) {
    written + rest == Render(body, dateLine)
  }

  // `data` is `before` and a beginning of the response.
  ghost predicate PartOf(data: string, before: string, body: string, dateLine: string) {
    before <= data && data[|before|..] <= Render(body, dateLine)
  }

  lemma PartIs(before: string, written: string, rest: string, body: string, dateLine: string)
    requires Begins(written, rest, body, dateLine)
    ensures PartOf(before + written, before, body, dateLine)
  {
    assert (before + written)[|before|..] == written;
  }

  lemma Goes(written: string, piece: string, rest: string, body: string, dateLine: string)
    requires Begins(written, piece + rest, body, dateLine)
    ensures Begins(written + piece, rest, body, dateLine)
  {
    Assoc(written, piece, rest);
  }

  class OutputBuffer {
    const granting: bool  // whether it takes whatever is added
    var data: string

    // evbuffer_add and its kin: adds all or fails and adds nothing.
    method Add(piece: string) returns (ok: bool)
      modifies this
      ensures granting ==> ok
      ensures data == if ok then old(data) + piece else old(data)
    {
      ok := *;
      ok := ok || granting;
      if ok {
        data := data + piece;
      }
    }

    // One step of the writer: `written` is what it has added, `rest` what remains after this piece.
    method AddNext(piece: string, ghost before: string, ghost written: string, ghost rest: string,
                   ghost body: string, ghost dateLine: string) returns (ok: bool)
      requires data == before + written && Begins(written, piece + rest, body, dateLine)
      modifies this
      ensures granting ==> ok
      ensures if ok then data == before + (written + piece) && Begins(written + piece, rest, body, dateLine)
              else PartOf(data, before, body, dateLine)
    {
      PartIs(before, written, piece + rest, body, dateLine);
      Goes(written, piece, rest, body, dateLine);
      Assoc(before, written, piece);
      ok := Add(piece);
    }
  }

  /** http_response_write; `date` is None when the clock or strftime fails. It adds the whole response, or
      reports failure having added only a beginning of it. */
  method HttpResponseWrite(output: OutputBuffer, body: string, date: Option<string>) returns (ok: bool)
    modifies output
    ensures output.granting && date.Some? ==> ok
    ensures ok ==> date.Some? && output.data == old(output.data) + Render(body, date.value)
    ensures !ok && date.None? ==> output.data == old(output.data)
    ensures !ok && date.Some? ==> PartOf(output.data, old(output.data), body, date.value)
  {
    if date.None? {
      return false;
    }
    ghost var before := output.data;
    ghost var b, d := body, date.value;
    var bodyLength := |body|;
    RenderSpelled(body, date.value);
    var p1, p2, p3 := STATUS_LINE + CRLF, CONTENT_TYPE + CRLF, CONTENT_LENGTH + Decimal(bodyLength) + CRLF;
    var p4, p5 := SERVER + CRLF, date.value + CRLF;
    ghost var r5 := CRLF + body;
    ghost var r4 := p5 + r5;
    ghost var r3 := p4 + r4;
    ghost var r2 := p3 + r3;
    ghost var r1 := p2 + r2;
    assert before + "" == before && "" + (p1 + r1) == p1 + r1;
    ghost var w := "";
    ok := output.AddNext(p1, before, w, r1, b, d);
    if !ok { return; }
    w := w + p1;
    ok := output.AddNext(p2, before, w, r2, b, d);
    if !ok { return; }
    w := w + p2;
    ok := output.AddNext(p3, before, w, r3, b, d);
    if !ok { return; }
    w := w + p3;
    ok := output.AddNext(p4, before, w, r4, b, d);
    if !ok { return; }
    w := w + p4;
    ok := output.AddNext(p5, before, w, r5, b, d);
    if !ok { return; }
    w := w + p5;
    ok := output.AddNext(CRLF, before, w, body, b, d);
    if !ok { return; }
    w := w + CRLF;
    assert body + [] == body;
    ok := output.AddNext(body, before, w, [], b, d);
    assert w + body + [] == w + body;
  }
}
