/** The language the parser accepts: RFC 9112 sections 3, 5, 6 and 7.1 within this server's limits. */
module HttpGrammar {
  import opened Text
  import opened HttpSyntax
  import opened HttpParser
  import opened HttpFragments

  /** One header field as it stands on the wire: name, colon, optional blanks, value. */
  datatype Field = Field(name: string, blanks: string, value: string)

  datatype Chunk = Chunk(sizeLine: string, data: string)

  datatype Payload =
    | Plain(body: string)
    | Chunked(chunks: seq<Chunk>, lastLine: string, trailers: seq<string>)

  datatype Message = Message(method_: string, target: string, fields: seq<Field>, payload: Payload)

  // ----- the printer -----

  const CRLF := "\r\n"

  function FieldLine(f: Field): string { f.name + ":" + f.blanks + f.value }

  function Lines(lines: seq<string>): string {
    if lines == [] then "" else lines[0] + CRLF + Lines(lines[1..])
  }

  function FieldLines(fields: seq<Field>): seq<string> {
    seq(|fields|, i requires 0 <= i < |fields| => FieldLine(fields[i]))
  }

  function RequestLineOf(m: Message): string { m.method_ + " " + m.target + " HTTP/1.1" }

  function EncodeChunks(chunks: seq<Chunk>): string {
    if chunks == [] then ""
    else chunks[0].sizeLine + CRLF + (chunks[0].data + CRLF + EncodeChunks(chunks[1..]))
  }

  function EncodePayload(p: Payload): string {
    match p
    case Plain(body) => body
    case Chunked(chunks, lastLine, trailers) => EncodeChunks(chunks) + (lastLine + CRLF + (Lines(trailers) + CRLF))
  }

  function Encode(m: Message): string {
    RequestLineOf(m) + CRLF + (Lines(FieldLines(m.fields)) + (CRLF + EncodePayload(m.payload)))
  }

  // ----- what a message means -----

  function ChunkBytes(chunks: seq<Chunk>): string {
    if chunks == [] then "" else chunks[0].data + ChunkBytes(chunks[1..])
  }

  function BodyOf(p: Payload): string {
    match p
    case Plain(body) => body
    case Chunked(chunks, _, _) => ChunkBytes(chunks)
  }

  function Pairs(fields: seq<Field>): seq<(string, string)> {
    seq(|fields|, i requires 0 <= i < |fields| => (fields[i].name, fields[i].value))
  }

  function Meaning(m: Message): HttpRequest {
    HttpRequest(m.method_, m.target, "HTTP/1.1", Pairs(m.fields), BodyOf(m.payload))
  }

  // ----- well-formed messages -----

  function LinesSize(lines: seq<string>): nat {
    if lines == [] then 0 else LinesSize(lines[..|lines| - 1]) + |lines[|lines| - 1]| + 2
  }

  /** How many fields carry a name, whatever its case. */
  function Count(fields: seq<Field>, special: Special): nat {
    if fields == [] then 0
    else Count(fields[..|fields| - 1], special) + if Names(fields[|fields| - 1].name, special) then 1 else 0
  }

  predicate IsNumber(s: string) { s != "" && AllDigits(s, false) && Numeral(s, false) <= MAX_BODY_SIZE }

  predicate FieldOk(f: Field) {
    && IsToken(f.name) && AllBlank(f.blanks) && (f.value != "" ==> !IsBlank(f.value[0]))
    && FindCrlf(FieldLine(f), 0).None? && |FieldLine(f)| <= MAX_HEADER_LINE_SIZE
    && (Names(f.name, Host) ==> f.value != "")
    && (Names(f.name, ContentLength) ==> IsNumber(f.value))
    && (Names(f.name, TransferEncoding) ==> IsChunked(Trim(f.value)))
  }

  /** The length the last Content-Length field declares. */
  function DeclaredLength(fields: seq<Field>): Option<nat> {
    if fields == [] then None
    else
      var f := fields[|fields| - 1];
      if Names(f.name, ContentLength) && IsNumber(f.value) then Some(Numeral(f.value, false))
      else DeclaredLength(fields[..|fields| - 1])
  }

  /** Fields that may stand in a header section, finished or not. */
  predicate FieldsOk(fields: seq<Field>) {
    && |fields| <= MAX_HEADER_COUNT
    && LinesSize(FieldLines(fields)) <= MAX_HEADERS_SIZE
    && (forall i :: 0 <= i < |fields| ==> FieldOk(fields[i]))
    && Count(fields, Host) <= 1
    && Count(fields, TransferEncoding) <= 1
    && (forall i :: 0 <= i < |fields| && Names(fields[i].name, ContentLength) ==>
          DeclaredLength(fields) == Some(Numeral(fields[i].value, false)))
  }

  predicate HeadOk(fields: seq<Field>) {
    && FieldsOk(fields)
    && LinesSize(FieldLines(fields)) + 2 <= MAX_HEADERS_SIZE
    && Count(fields, Host) == 1
    && !(Count(fields, TransferEncoding) == 1 && DeclaredLength(fields).Some?)
  }

  /** A chunk-size line: hexadecimal digits between blanks, then perhaps an extension. */
  predicate SizeLineOk(line: string, size: nat) {
    var digits := Trim(BeforeSemicolon(line));
    && FindCrlf(line, 0).None? && |line| <= MAX_HEADER_LINE_SIZE
    && digits != "" && AllDigits(digits, true) && Numeral(digits, true) == size <= MAX_BODY_SIZE
  }

  predicate ChunkOk(c: Chunk) { c.data != "" && SizeLineOk(c.sizeLine, |c.data|) }

  predicate TrailerOk(line: string) {
    FindCrlf(line, 0).None? && exists k :: 0 < k < |line| && line[k] == ':' && IsToken(line[..k])
  }

  predicate ChunkedOk(chunks: seq<Chunk>, lastLine: string, trailers: seq<string>) {
    && (forall i :: 0 <= i < |chunks| ==> ChunkOk(chunks[i]))
    && |ChunkBytes(chunks)| <= MAX_BODY_SIZE
    && SizeLineOk(lastLine, 0)
    && |trailers| <= MAX_HEADER_COUNT
    && (forall i :: 0 <= i < |trailers| ==> TrailerOk(trailers[i]))
    && LinesSize(trailers) + 2 <= MAX_HEADERS_SIZE
  }

  predicate PayloadOk(p: Payload, fields: seq<Field>) {
    match p
    case Plain(body) =>
      Count(fields, TransferEncoding) == 0 && |body| == (if DeclaredLength(fields).Some? then DeclaredLength(fields).value else 0)
    case Chunked(chunks, lastLine, trailers) =>
      Count(fields, TransferEncoding) == 1 && ChunkedOk(chunks, lastLine, trailers)
  }

  predicate RequestLineOk(m: Message) {
    IsToken(m.method_) && IsTarget(m.target) && ' ' !in m.target && |RequestLineOf(m)| <= MAX_REQUEST_LINE_SIZE
  }

  predicate WellFormed(m: Message) {
    RequestLineOk(m) && HeadOk(m.fields) && PayloadOk(m.payload, m.fields)
  }

  // ----- running over one line -----

  /** From `m`, the bytes `s` bring the parser to `next` with `rest` unread; when `short`, no long line was met. */
  predicate Leads(m: Memory, s: string, next: Memory, rest: string, short: bool) {
    Run(m, s) == Run(next, rest) && (short && LinesFit(next, rest) ==> LinesFit(m, s))
  }

  lemma LeadsThrough(m: Memory, s: string, line: string, rest: string, short: bool)
    requires ReadsLines(m.state) && s == line + CRLF + rest && FindCrlf(line, 0).None? && !LineTooLong(m, |line|)
    requires short ==> |line| < MAX_HEADER_LINE_SIZE
    ensures AcceptLine(m, line).Go? ==> Leads(m, s, AcceptLine(m, line).next, rest, short)
    ensures var move := AcceptLine(m, line);
            move.Stop? ==> Run(m, s) == Outcome(move.verdict, move.next, s[move.used..]) && (short ==> LinesFit(m, s))
  {
    hide AcceptLine;
    FindAfterLine(line, rest);
    assert s[..|line|] == line;
    assert s[|line| + 2..] == rest;
    assert Step(m, s) == AcceptLine(m, line);
    LineUse(m, line);
  }

  lemma LineUse(m: Memory, line: string)
    ensures AcceptLine(m, line).Go? ==> AcceptLine(m, line).used == |line| + 2
  {
    hide IsToken, IsTarget, ChunkSizeOf, Scan, Names, IsChunked;
  }

  // ----- the request line -----

  lemma ThreeWords(line: string, a: string, b: string, c: string)
    requires line == a + " " + b + " " + c
    ensures var i, j := |a|, |a| + 1 + |b|;
            i < j < |line| && line[i] == ' ' == line[j] && line[0..i] == a == line[..i] && line[i + 1..j] == b && line[j + 1..] == c
  {
  }

  const VERSION := "HTTP/1.1"

  lemma ThreeWordsFound(line: string, a: string, b: string, c: string)
    requires line == a + " " + b + " " + c && a != "" && b != "" && c != ""
    requires ' ' !in a && ' ' !in b && ' ' !in c
    ensures RequestWords(line) == Some((a, b, c))
  {
    ThreeWords(line, a, b, c);
    IndexIs(line, ' ', 0, |a|);
    IndexIs(line, ' ', |a| + 1, |a| + 1 + |b|);
  }

  lemma RequestLineAccepted(m: Message)
    requires RequestLineOk(m)
    ensures AcceptRequestLine(INITIAL, RequestLineOf(m))
         == Go(INITIAL.(state := Headers, request := HttpRequest(m.method_, m.target, VERSION, [], "")), |RequestLineOf(m)| + 2)
  {
    TokenHasNo(m.method_, ' ');
    assert RequestLineOf(m) == m.method_ + " " + m.target + " " + VERSION;
    ThreeWordsFound(RequestLineOf(m), m.method_, m.target, VERSION);
    hide RequestWords;
  }

  lemma RequestLineHasNoCrlf(m: Message)
    requires RequestLineOk(m)
    ensures FindCrlf(RequestLineOf(m), 0).None?
  {
    TokenHasNo(m.method_, '\r');
    assert '\r' !in " HTTP/1.1" && '\r' !in " ";
    NoCrlf(RequestLineOf(m));
  }

  lemma WordsJoin(line: string)
    requires RequestWords(line).Some?
    ensures var (a, b, c) := RequestWords(line).value; line == a + " " + b + " " + c && ' ' !in b
  {
  }

  lemma RequestLineFound(line: string) returns (m: Message)
    requires AcceptRequestLine(INITIAL, line).Go? && |line| <= MAX_REQUEST_LINE_SIZE
    ensures RequestLineOk(m) && RequestLineOf(m) == line && m.fields == []
  {
    WordsJoin(line);
    hide RequestWords;
    var (a, b, _) := RequestWords(line).value;
    m := Message(a, b, [], Plain(""));
    assert RequestLineOf(m) == line;
  }

  // ----- the header section -----

  /** What the parser remembers after reading `fields`. */
  predicate Absorbed(m: Memory, fields: seq<Field>) {
    && m.state == Headers && m.request.body == "" && m.trailerSize == 0 && m.trailerCount == 0
    && m.headersSize == LinesSize(FieldLines(fields))
    && m.headerCount == |fields|
    && m.request.headers == Pairs(fields)
    && m.hostCount == Count(fields, Host)
    && m.hasTransferEncoding == (Count(fields, TransferEncoding) > 0) == m.chunkedTransferEncoding
    && m.hasContentLength == DeclaredLength(fields).Some?
    && (m.hasContentLength ==> m.contentLength == DeclaredLength(fields).value)
  }

  lemma Snoc(fields: seq<Field>, f: Field)
    ensures FieldLines(fields + [f]) == FieldLines(fields) + [FieldLine(f)]
    ensures LinesSize(FieldLines(fields + [f])) == LinesSize(FieldLines(fields)) + |FieldLine(f)| + 2
    ensures Pairs(fields + [f]) == Pairs(fields) + [(f.name, f.value)]
    ensures forall special :: Count(fields + [f], special) == Count(fields, special) + if Names(f.name, special) then 1 else 0
    ensures DeclaredLength(fields + [f]) ==
      if Names(f.name, ContentLength) && IsNumber(f.value) then Some(Numeral(f.value, false)) else DeclaredLength(fields)
  {
    hide FieldLine, Names, IsNumber;
    var all := fields + [f];
    assert all[..|all| - 1] == fields;
    var lines := FieldLines(all);
    assert lines == FieldLines(fields) + [FieldLine(f)];
    assert lines[..|lines| - 1] == FieldLines(fields);
  }

  lemma {:induction false} DeclaredWitness(fields: seq<Field>)
    requires DeclaredLength(fields).Some?
    ensures exists i :: 0 <= i < |fields| && Names(fields[i].name, ContentLength) && IsNumber(fields[i].value)
                        && DeclaredLength(fields) == Some(Numeral(fields[i].value, false))
  {
    hide Names, IsNumber;
    var last := fields[|fields| - 1];
    if !(Names(last.name, ContentLength) && IsNumber(last.value)) {
      DeclaredWitness(fields[..|fields| - 1]);
    }
  }

  /** Exactly which fields are accepted next, and what they leave behind. */
  lemma FieldExact(m: Memory, name: string, value: string, used: nat)
    ensures AcceptField(m, name, value, used).Go? <==>
      && (Names(name, Host) ==> m.hostCount == 0 && value != "")
      && (Names(name, ContentLength) ==> IsNumber(value) && (m.hasContentLength ==> m.contentLength == Numeral(value, false)))
      && (Names(name, TransferEncoding) ==> !m.hasTransferEncoding && IsChunked(Trim(value)))
    ensures AcceptField(m, name, value, used).Go? ==>
      AcceptField(m, name, value, used).next == PushHeader(
        if Names(name, Host) then m.(hostCount := m.hostCount + 1)
        else if Names(name, ContentLength) then m.(contentLength := Numeral(value, false), hasContentLength := true)
        else if Names(name, TransferEncoding) then m.(hasTransferEncoding := true, chunkedTransferEncoding := true)
        else m, name, value)
  {
    ScanExact(value, false);
    hide Names, IsChunked, Trim, Scan, Numeral;
    forall a, b | Names(name, a) && Names(name, b) ensures a == b {
      OneName(name, a, b);
    }
  }

  lemma FieldNameFound(f: Field)
    requires FieldOk(f)
    ensures NameOf(FieldLine(f)) == Some(f.name) && StripLeft(FieldLine(f)[|f.name| + 1..]) == f.value && FieldLine(f) != ""
    ensures |FieldLine(f)| <= MAX_HEADER_LINE_SIZE && FindCrlf(FieldLine(f), 0).None?
  {
    FieldParts(f);
    TokenHasNo(f.name, ':');
    hide FieldLine, AllBlank, IsBlank;
    IndexIs(FieldLine(f), ':', 0, |f.name|);
    StripLeftOf(f.blanks, f.value);
  }

  lemma FieldParts(f: Field)
    ensures var line, i := FieldLine(f), |f.name|;
            i < |line| && line[0..i] == f.name == line[..i] && line[i] == ':' && line[i + 1..] == f.blanks + f.value
  {
  }

  /** The memory a header line is judged with, once it has been counted. */
  function Counted(m: Memory, line: string): Memory {
    m.(headersSize := m.headersSize + |line| + 2).(headerCount := m.headerCount + 1)
  }

  lemma HeaderIsField(m: Memory, f: Field)
    requires FieldOk(f) && m.headerCount < MAX_HEADER_COUNT
    ensures AcceptHeader(m, FieldLine(f)) == AcceptField(Counted(m, FieldLine(f)), f.name, f.value, |FieldLine(f)| + 2)
  {
    hide FieldOk, FieldLine, NameOf, IsToken, StripLeft, AcceptField, EndHeaders;
    FieldNameFound(f);
  }

  /** Two length fields that may stand together declare the same length. */
  lemma LengthsAgree(fields: seq<Field>, f: Field)
    requires FieldsOk(fields + [f]) && Names(f.name, ContentLength)
    ensures IsNumber(f.value) && (DeclaredLength(fields).Some? ==> DeclaredLength(fields) == Some(Numeral(f.value, false)))
  {
    hide Names, Count, DeclaredLength, LinesSize, FieldLines, Numeral, FieldLine;
    var all := fields + [f];
    assert all[|fields|] == f && FieldOk(f);
    if DeclaredLength(fields).Some? {
      DeclaredWitness(fields);
      var i :| 0 <= i < |fields| && Names(fields[i].name, ContentLength) && IsNumber(fields[i].value)
               && DeclaredLength(fields) == Some(Numeral(fields[i].value, false));
      assert all[i] == fields[i];
    }
  }

  lemma LastOk(fields: seq<Field>, f: Field)
    requires FieldsOk(fields + [f])
    ensures FieldOk(f) && |fields| < MAX_HEADER_COUNT
    ensures LinesSize(FieldLines(fields)) + |FieldLine(f)| + 2 <= MAX_HEADERS_SIZE
    ensures Names(f.name, Host) ==> Count(fields, Host) == 0
    ensures Names(f.name, TransferEncoding) ==> Count(fields, TransferEncoding) == 0
  {
    hide FieldOk, FieldLine, Names, Count, DeclaredLength, LinesSize, FieldLines, Numeral;
    Snoc(fields, f);
    assert (fields + [f])[|fields|] == f;
  }

  lemma SpecialOk(f: Field)
    requires FieldOk(f)
    ensures Names(f.name, Host) ==> f.value != ""
    ensures Names(f.name, ContentLength) ==> IsNumber(f.value)
    ensures Names(f.name, TransferEncoding) ==> IsChunked(Trim(f.value))
  {
    hide FieldLine, IsToken, AllBlank, Names, IsNumber, IsChunked, Trim;
  }

  lemma FieldAccepted(m: Memory, fields: seq<Field>, f: Field)
    requires Absorbed(m, fields) && FieldsOk(fields + [f])
    ensures FieldOk(f) && FieldLine(f) != "" && !LineTooLong(m, |FieldLine(f)|)
    ensures AcceptHeader(m, FieldLine(f)).Go?
  {
    hide FieldOk, FieldLine, Names, Count, DeclaredLength, LinesSize, FieldLines, IsNumber, IsChunked, Trim, Pairs,
      AcceptHeader, AcceptField, NameOf, StripLeft, FieldsOk;
    LastOk(fields, f);
    FieldNameFound(f);
    HeaderIsField(m, f);
    SpecialOk(f);
    if Names(f.name, ContentLength) {
      LengthsAgree(fields, f);
    }
    FieldExact(Counted(m, FieldLine(f)), f.name, f.value, |FieldLine(f)| + 2);
  }

  lemma FieldAbsorbed(m: Memory, fields: seq<Field>, f: Field)
    requires Absorbed(m, fields) && FieldOk(f) && |fields| < MAX_HEADER_COUNT
    requires AcceptHeader(m, FieldLine(f)).Go?
    ensures var next := AcceptHeader(m, FieldLine(f)).next;
            Absorbed(next, fields + [f]) && next.request == m.request.(headers := Pairs(fields + [f]))
  {
    hide FieldOk, FieldLine, Names, Count, DeclaredLength, LinesSize, FieldLines, IsNumber, IsChunked, Trim, Pairs,
      AcceptHeader, AcceptField;
    HeaderIsField(m, f);
    FieldExact(Counted(m, FieldLine(f)), f.name, f.value, |FieldLine(f)| + 2);
    Snoc(fields, f);
    forall a, b | Names(f.name, a) && Names(f.name, b) ensures a == b {
      OneName(f.name, a, b);
    }
  }

  lemma {:induction false} StripLeftSplits(s: string)
    ensures var r := StripLeft(s);
            |r| <= |s| && s == s[..|s| - |r|] + r && AllBlank(s[..|s| - |r|]) && (r != "" ==> !IsBlank(r[0]))
  {
    if s != "" && IsBlank(s[0]) {
      StripLeftSplits(s[1..]);
      var r := StripLeft(s);
      assert s[..|s| - |r|] == [s[0]] + s[1..][..|s| - 1 - |r|];
    } else {
      assert s[..0] == "";
    }
  }

  lemma FieldOf(line: string) returns (f: Field)
    requires NameOf(line).Some?
    ensures FieldLine(f) == line && f.name == NameOf(line).value && f.value == StripLeft(line[|f.name| + 1..])
    ensures IsToken(f.name) && AllBlank(f.blanks) && (f.value != "" ==> !IsBlank(f.value[0]))
  {
    var name := NameOf(line).value;
    var rest := line[|name| + 1..];
    var value := StripLeft(rest);
    StripLeftSplits(rest);
    f := Field(name, rest[..|rest| - |value|], value);
    assert line == name + ":" + rest;
  }

  lemma FieldFound(m: Memory, fields: seq<Field>, line: string) returns (f: Field)
    requires Absorbed(m, fields) && FieldsOk(fields)
    requires line != "" && FindCrlf(line, 0).None? && !LineTooLong(m, |line|)
    requires AcceptHeader(m, line).Go?
    ensures FieldLine(f) == line && FieldsOk(fields + [f])
  {
    hide FieldLine, Names, Count, DeclaredLength, LinesSize, FieldLines, IsNumber, IsChunked, Trim, Pairs,
      AcceptHeader, AcceptField, NameOf, StripLeft, FieldsOk, IsToken, AllBlank, IsBlank, FindCrlf;
    HeaderHasName(m, line);
    f := FieldOf(line);
    FieldExact(Counted(m, line), f.name, f.value, |line| + 2);
    assert FieldOk(f);
    hide FieldOk;
    FieldsGrow(fields, f);
  }

  lemma HeaderHasName(m: Memory, line: string)
    requires line != "" && AcceptHeader(m, line).Go?
    ensures NameOf(line).Some? && m.headerCount < MAX_HEADER_COUNT
    ensures var name := NameOf(line).value;
            AcceptField(Counted(m, line), name, StripLeft(line[|name| + 1..]), |line| + 2).Go?
  {
    hide AcceptField, NameOf, StripLeft;
  }

  lemma FieldsGrow(fields: seq<Field>, f: Field)
    requires FieldsOk(fields) && FieldOk(f) && |fields| < MAX_HEADER_COUNT
    requires LinesSize(FieldLines(fields)) + |FieldLine(f)| + 2 <= MAX_HEADERS_SIZE
    requires Names(f.name, Host) ==> Count(fields, Host) == 0
    requires Names(f.name, TransferEncoding) ==> Count(fields, TransferEncoding) == 0
    requires Names(f.name, ContentLength) && DeclaredLength(fields).Some? ==>
               IsNumber(f.value) && DeclaredLength(fields) == Some(Numeral(f.value, false))
    ensures FieldsOk(fields + [f])
  {
    hide FieldOk, Names, FieldLine, Count, DeclaredLength, LinesSize, FieldLines, IsNumber, Numeral;
    SpecialOk(f);
    Snoc(fields, f);
    var all := fields + [f];
    assert forall i :: 0 <= i < |fields| ==> all[i] == fields[i];
  }

  lemma {:induction false} DeclaredByAny(fields: seq<Field>, i: nat)
    requires i < |fields| && Names(fields[i].name, ContentLength) && IsNumber(fields[i].value)
    ensures DeclaredLength(fields).Some?
  {
    hide Names, IsNumber, Numeral;
    if i < |fields| - 1 {
      DeclaredByAny(fields[..|fields| - 1], i);
    }
  }

  lemma FieldsShrink(fields: seq<Field>, f: Field)
    requires FieldsOk(fields + [f])
    ensures FieldsOk(fields)
  {
    hide Names, Count, DeclaredLength, LinesSize, FieldLines, Numeral, FieldLine, FieldOk;
    var all := fields + [f];
    Snoc(fields, f);
    assert forall i :: 0 <= i < |fields| ==> all[i] == fields[i];
    forall i | 0 <= i < |fields| && Names(fields[i].name, ContentLength)
      ensures IsNumber(fields[i].value) && DeclaredLength(fields) == Some(Numeral(fields[i].value, false))
    {
      assert FieldOk(all[i]);
      SpecialOk(fields[i]);
      DeclaredByAny(fields, i);
      if Names(f.name, ContentLength) {
        LengthsAgree(fields, f);
      }
    }
  }

  lemma {:induction false} FieldsPrefix(fields: seq<Field>, more: seq<Field>)
    requires FieldsOk(fields + more)
    ensures FieldsOk(fields)
  {
    hide FieldsOk;
    if more == [] {
      assert fields + more == fields;
    } else {
      var init := more[..|more| - 1];
      assert fields + more == (fields + init) + [more[|more| - 1]];
      FieldsShrink(fields + init, more[|more| - 1]);
      FieldsPrefix(fields, init);
    }
  }

  lemma LeadsOn(m: Memory, s: string, mid: Memory, s1: string, next: Memory, rest: string, short: bool)
    requires Leads(m, s, mid, s1, short) && Leads(mid, s1, next, rest, short)
    ensures Leads(m, s, next, rest, short)
  {
    hide Run, LinesFit;
  }

  lemma LinesCons(f: Field, more: seq<Field>, rest: string)
    ensures Lines(FieldLines([f] + more)) + rest == FieldLine(f) + CRLF + (Lines(FieldLines(more)) + rest)
  {
    hide FieldLine;
    var lines := FieldLines([f] + more);
    assert lines[0] == FieldLine(f) && lines[1..] == FieldLines(more);
  }

  /** A list of fields is read one line at a time. */
  lemma {:induction false} FieldsAccepted(m: Memory, fields: seq<Field>, more: seq<Field>, rest: string, short: bool) returns (next: Memory)
    requires Absorbed(m, fields) && FieldsOk(fields + more)
    requires short ==> forall i :: 0 <= i < |more| ==> |FieldLine(more[i])| < MAX_HEADER_LINE_SIZE
    ensures Leads(m, Lines(FieldLines(more)) + rest, next, rest, short)
    ensures Absorbed(next, fields + more) && next.request == m.request.(headers := Pairs(fields + more))
    decreases |more|
  {
    hide FieldsOk, FieldLine, FieldOk, Leads, Pairs, FieldLines, Lines, AcceptHeader, LineTooLong;
    if more == [] {
      NoLinesLeft(m, rest, short);
      assert fields + more == fields;
      next := m;
      AbsorbedPairs(m, fields);
    } else {
      var f, tail := more[0], more[1..];
      assert fields + more == (fields + [f]) + tail;
      assert more == [f] + tail;
      FieldsPrefix(fields + [f], tail);
      FieldAccepted(m, fields, f);
      LastOk(fields, f);
      FieldNameFound(f);
      FieldAbsorbed(m, fields, f);
      var mid := AcceptHeader(m, FieldLine(f)).next;
      LinesCons(f, tail, rest);
      HeaderLeads(m, FieldLine(f), Lines(FieldLines(tail)) + rest, short);
      next := FieldsAccepted(mid, fields + [f], tail, rest, short);
      LeadsOn(m, Lines(FieldLines(more)) + rest, mid, Lines(FieldLines(tail)) + rest, next, rest, short);
    }
  }

  lemma AbsorbedPairs(m: Memory, fields: seq<Field>)
    requires Absorbed(m, fields)
    ensures m.request == m.request.(headers := Pairs(fields))
  {
    hide Pairs, LinesSize, FieldLines, Count, DeclaredLength;
  }

  lemma NoLinesLeft(m: Memory, rest: string, short: bool)
    ensures Leads(m, Lines(FieldLines([])) + rest, m, rest, short)
  {
    hide Run, LinesFit;
    assert Lines(FieldLines([])) + rest == rest;
  }

  lemma HeaderLeads(m: Memory, line: string, rest: string, short: bool)
    requires m.state == Headers && FindCrlf(line, 0).None? && !LineTooLong(m, |line|)
    requires short ==> |line| < MAX_HEADER_LINE_SIZE
    ensures AcceptHeader(m, line).Go? ==> Leads(m, line + CRLF + rest, AcceptHeader(m, line).next, rest, short)
  {
    hide AcceptHeader, LineTooLong, Leads;
    LeadsThrough(m, line + CRLF + rest, line, rest, short);
  }

  /** What the parser remembers when a body is about to start. */
  predicate AtBody(m: Memory, fields: seq<Field>) {
    && m.request.body == "" && m.trailerSize == 0 && m.trailerCount == 0
    && m.state == (if Count(fields, TransferEncoding) == 1 then ChunkSize else Body)
    && m.hasContentLength == DeclaredLength(fields).Some?
    && (m.hasContentLength ==> m.contentLength == DeclaredLength(fields).value)
  }

  /** The empty line is accepted exactly after a complete header section. */
  lemma HeadersEnd(m: Memory, fields: seq<Field>)
    requires Absorbed(m, fields) && FieldsOk(fields)
    ensures !LineTooLong(m, 0) && AcceptHeader(m, "").Go? <==> HeadOk(fields)
    ensures AcceptHeader(m, "").Go? ==> AtBody(AcceptHeader(m, "").next, fields) && AcceptHeader(m, "").next.request == m.request
  {
    CountBounds(fields);
    hide FieldsOk, Count, DeclaredLength, LinesSize, FieldLines, Pairs, AcceptField, NameOf;
  }

  lemma CountBounds(fields: seq<Field>)
    requires FieldsOk(fields)
    ensures Count(fields, TransferEncoding) <= 1 && LinesSize(FieldLines(fields)) <= MAX_HEADERS_SIZE
  {
    hide FieldOk, Count, DeclaredLength, LinesSize, FieldLines, Names, Numeral;
  }

  // ----- bodies -----

  lemma PlainAccepted(m: Memory, fields: seq<Field>, body: string, rest: string)
    requires AtBody(m, fields) && PayloadOk(Plain(body), fields) && FieldsOk(fields)
    ensures Run(m, body + rest) == Outcome(Complete, Append(m, body), rest) && LinesFit(m, body + rest)
  {
    LengthBound(fields);
    var s := body + rest;
    RunBytes(m, s);
    BodyNeverLines(m, s);
    hide FieldsOk, Count, DeclaredLength, Step, Run, LinesFit;
    assert s[..|body|] == body && s[|body|..] == rest;
    var move := ReadBody(m, s);
    assert move == Stop(Complete, Append(m, body), |body|);
    RunRound(m, s, Some(move.verdict), move.next, move.used);
  }

  lemma BodyNeverLines(m: Memory, s: string)
    requires m.state == Body
    ensures LinesFit(m, s)
  {
    RunBytes(m, s);
    hide Step;
  }

  lemma LengthBound(fields: seq<Field>)
    requires FieldsOk(fields)
    ensures DeclaredLength(fields).Some? ==> DeclaredLength(fields).value <= MAX_BODY_SIZE
  {
    if DeclaredLength(fields).Some? {
      DeclaredWitness(fields);
    }
  }

  lemma PlainFound(m: Memory, fields: seq<Field>, s: string) returns (body: string)
    requires AtBody(m, fields) && FieldsOk(fields) && m.state == Body && Run(m, s).verdict == Complete
    ensures PayloadOk(Plain(body), fields) && s == body + Run(m, s).rest
  {
    CountBounds(fields);
    RunBytes(m, s);
    hide FieldsOk, Count, DeclaredLength, Step, Run;
    var move := ReadBody(m, s);
    RunRound(m, s, Some(move.verdict), move.next, move.used);
    body := s[..move.used];
  }

  lemma ChunkSizeExact(line: string, size: nat)
    requires FindCrlf(line, 0).None? && |line| <= MAX_HEADER_LINE_SIZE
    ensures SizeLineOk(line, size) <==> ChunkSizeOf(line) == Some(size)
  {
    ScanExact(Trim(BeforeSemicolon(line)), true);
    hide Scan, Numeral, Trim, BeforeSemicolon;
  }

  lemma SizeLineFacts(line: string, size: nat)
    requires SizeLineOk(line, size)
    ensures FindCrlf(line, 0).None? && |line| <= MAX_HEADER_LINE_SIZE && ChunkSizeOf(line) == Some(size)
  {
    ChunkSizeExact(line, size);
  }

  /** The memory after one whole chunk. */
  function AfterChunk(m: Memory, data: string): Memory {
    Append(m, data).(chunkSize := |data|, chunkBytesRead := |data|, state := ChunkSize)
  }

  lemma SizeLineLeads(m: Memory, line: string, size: nat, rest: string, short: bool)
    requires m.state == ChunkSize && SizeLineOk(line, size) && (short ==> |line| < MAX_HEADER_LINE_SIZE)
    ensures Leads(m, line + CRLF + rest,
                  m.(chunkSize := size, chunkBytesRead := 0, state := if size == 0 then ChunkTrailers else ChunkData), rest, short)
  {
    SizeLineFacts(line, size);
    LeadsThrough(m, line + CRLF + rest, line, rest, short);
    hide SizeLineOk, ChunkSizeOf, Leads, Run;
    SizeLineAccepted(m, line);
  }

  lemma SizeLineAccepted(m: Memory, line: string)
    requires m.state == ChunkSize
    ensures AcceptLine(m, line) == AcceptChunkSize(m, line)
  {
    hide AcceptChunkSize;
  }

  lemma DataLeads(m: Memory, data: string, rest: string, short: bool)
    requires m.state == ChunkData && m.chunkBytesRead == 0 && m.chunkSize == |data| > 0
    requires |m.request.body| + |data| <= MAX_BODY_SIZE
    ensures Leads(m, data + rest, Append(m, data).(chunkBytesRead := |data|, state := ChunkDataCrlf), rest, short)
  {
    var s := data + rest;
    assert s[..|data|] == data && s[|data|..] == rest;
    RunBytes(m, s);
    var next := Append(m, data).(chunkBytesRead := |data|, state := ChunkDataCrlf);
    assert ReadChunk(m, s) == Go(next, |data|);
    hide Step;
    RunRound(m, s, None, next, |data|);
  }

  lemma DataEndLeads(m: Memory, rest: string, short: bool)
    requires m.state == ChunkDataCrlf
    ensures Leads(m, CRLF + rest, m.(state := ChunkSize), rest, short)
  {
    var s := CRLF + rest;
    assert s[2..] == rest;
    RunBytes(m, s);
    hide Step;
    RunRound(m, s, None, m.(state := ChunkSize), 2);
  }

  lemma OneChunkAccepted(m: Memory, c: Chunk, rest: string, short: bool)
    requires m.state == ChunkSize && ChunkOk(c) && |m.request.body| + |c.data| <= MAX_BODY_SIZE
    requires short ==> |c.sizeLine| < MAX_HEADER_LINE_SIZE
    ensures Leads(m, c.sizeLine + CRLF + (c.data + CRLF + rest), AfterChunk(m, c.data), rest, short)
  {
    hide Leads, SizeLineOk;
    var tail := c.data + CRLF + rest;
    var s := c.sizeLine + CRLF + tail;
    SizeLineLeads(m, c.sizeLine, |c.data|, tail, short);
    var m1 := m.(chunkSize := |c.data|, chunkBytesRead := 0, state := ChunkData);
    assert tail == c.data + (CRLF + rest);
    DataLeads(m1, c.data, CRLF + rest, short);
    var m2 := Append(m1, c.data).(chunkBytesRead := |c.data|, state := ChunkDataCrlf);
    DataEndLeads(m2, rest, short);
    LeadsOn(m, s, m1, tail, m2, CRLF + rest, short);
    LeadsOn(m, s, m2, CRLF + rest, AfterChunk(m, c.data), rest, short);
  }

  lemma EncodeCons(c: Chunk, more: seq<Chunk>, rest: string)
    ensures EncodeChunks([c] + more) + rest == c.sizeLine + CRLF + (c.data + CRLF + (EncodeChunks(more) + rest))
    ensures ChunkBytes([c] + more) == c.data + ChunkBytes(more)
  {
    var all := [c] + more;
    assert all[0] == c && all[1..] == more;
    assert EncodeChunks(all) + rest == c.sizeLine + CRLF + (c.data + CRLF + EncodeChunks(more)) + rest;
  }

  lemma {:induction false} ChunksAccepted(m: Memory, chunks: seq<Chunk>, rest: string, short: bool) returns (next: Memory)
    requires m.state == ChunkSize && |m.request.body| + |ChunkBytes(chunks)| <= MAX_BODY_SIZE
    requires forall i :: 0 <= i < |chunks| ==> ChunkOk(chunks[i]) && (short ==> |chunks[i].sizeLine| < MAX_HEADER_LINE_SIZE)
    ensures Leads(m, EncodeChunks(chunks) + rest, next, rest, short)
    ensures next.state == ChunkSize && next.trailerSize == m.trailerSize && next.trailerCount == m.trailerCount
    ensures next.request == m.request.(body := m.request.body + ChunkBytes(chunks))
    decreases |chunks|
  {
    hide Leads, ChunkOk;
    if chunks == [] {
      assert EncodeChunks(chunks) + rest == rest;
      assert m.request.body + "" == m.request.body;
      next := m;
      Stays(m, rest, short);
    } else {
      var c, more := chunks[0], chunks[1..];
      assert chunks == [c] + more;
      EncodeCons(c, more, rest);
      hide EncodeChunks, ChunkBytes;
      OneChunkAccepted(m, c, EncodeChunks(more) + rest, short);
      var mid := AfterChunk(m, c.data);
      next := ChunksAccepted(mid, more, rest, short);
      LeadsOn(m, EncodeChunks(chunks) + rest, mid, EncodeChunks(more) + rest, next, rest, short);
      assert m.request.body + c.data + ChunkBytes(more) == m.request.body + ChunkBytes(chunks);
    }
  }

  lemma Stays(m: Memory, rest: string, short: bool)
    ensures Leads(m, rest, m, rest, short)
  {
    hide Run, LinesFit;
  }

  lemma {:induction false} LinesSizeCons(line: string, more: seq<string>)
    ensures LinesSize([line] + more) == |line| + 2 + LinesSize(more)
  {
    if more == [] {
      assert [line] + more == [line] && [line][..0] == [];
      assert LinesSize([]) == 0;
    } else {
      var init := more[..|more| - 1];
      LinesSizeCons(line, init);
      assert ([line] + more)[..|more|] == [line] + init;
    }
  }

  lemma TrailerAccepted(m: Memory, line: string)
    requires m.state == ChunkTrailers && m.trailerCount < MAX_HEADER_COUNT
    requires FindCrlf(line, 0).None?
    ensures AcceptLine(m, line).Go? <==> TrailerOk(line)
    ensures TrailerOk(line) ==> line != ""
    ensures AcceptLine(m, line).Go? ==>
      AcceptLine(m, line).next == m.(trailerSize := m.trailerSize + |line| + 2, trailerCount := m.trailerCount + 1)
  {
    TrailerName(line);
    hide NameOf, TrailerOk, AcceptRequestLine, AcceptHeader, AcceptChunkSize;
  }

  lemma TrailerName(line: string)
    requires FindCrlf(line, 0).None?
    ensures NameOf(line).Some? <==> TrailerOk(line)
    ensures TrailerOk(line) ==> line != ""
  {
    if TrailerOk(line) {
      var k :| 0 < k < |line| && line[k] == ':' && IsToken(line[..k]);
      TokenHasNo(line[..k], ':');
      assert line[0..k] == line[..k];
      IndexIs(line, ':', 0, k);
    }
    if NameOf(line).Some? {
      var k := |NameOf(line).value|;
      assert 0 < k < |line| && line[k] == ':' && IsToken(line[..k]);
    }
  }

  lemma TrailersEnd(m: Memory, rest: string)
    requires m.state == ChunkTrailers && m.trailerSize + 2 <= MAX_HEADERS_SIZE
    ensures Run(m, CRLF + rest) == Outcome(Complete, m.(trailerSize := m.trailerSize + 2), rest) && LinesFit(m, CRLF + rest)
  {
    NoCrlf("");
    assert CRLF + rest == "" + CRLF + rest;
    assert (CRLF + rest)[2..] == rest;
    hide NameOf;
    LeadsThrough(m, CRLF + rest, "", rest, true);
  }

  lemma {:induction false} TrailersAccepted(m: Memory, trailers: seq<string>, rest: string, short: bool) returns (next: Memory)
    requires m.state == ChunkTrailers
    requires m.trailerSize + LinesSize(trailers) + 2 <= MAX_HEADERS_SIZE && m.trailerCount + |trailers| <= MAX_HEADER_COUNT
    requires forall i :: 0 <= i < |trailers| ==> TrailerOk(trailers[i]) && (short ==> |trailers[i]| < MAX_HEADER_LINE_SIZE)
    ensures Run(m, Lines(trailers) + (CRLF + rest)) == Outcome(Complete, next, rest)
    ensures short ==> LinesFit(m, Lines(trailers) + (CRLF + rest))
    ensures next.request == m.request
    decreases |trailers|
  {
    hide AcceptLine, LinesFit, Run;
    if trailers == [] {
      assert Lines(trailers) + (CRLF + rest) == CRLF + rest;
      TrailersEnd(m, rest);
      next := m.(trailerSize := m.trailerSize + 2);
    } else {
      var line, more := trailers[0], trailers[1..];
      assert trailers == [line] + more;
      LinesSizeCons(line, more);
      var tail := Lines(more) + (CRLF + rest);
      assert Lines(trailers) + (CRLF + rest) == line + CRLF + tail;
      assert FindCrlf(line, 0).None?;
      hide TrailerOk;
      TrailerAccepted(m, line);
      LeadsThrough(m, line + CRLF + tail, line, tail, short);
      next := TrailersAccepted(AcceptLine(m, line).next, more, rest, short);
    }
  }

  predicate ShortPayload(p: Payload) {
    match p
    case Plain(_) => true
    case Chunked(chunks, lastLine, trailers) =>
      && (forall i :: 0 <= i < |chunks| ==> |chunks[i].sizeLine| < MAX_HEADER_LINE_SIZE)
      && |lastLine| < MAX_HEADER_LINE_SIZE
      && (forall i :: 0 <= i < |trailers| ==> |trailers[i]| < MAX_HEADER_LINE_SIZE)
  }

  lemma LastChunkAccepted(m: Memory, lastLine: string, trailers: seq<string>, rest: string, short: bool) returns (next: Memory)
    requires m.state == ChunkSize && m.trailerSize == 0 && m.trailerCount == 0
    requires ChunkedOk([], lastLine, trailers) && (short ==> ShortPayload(Chunked([], lastLine, trailers)))
    ensures var s := lastLine + CRLF + (Lines(trailers) + (CRLF + rest));
            Run(m, s) == Outcome(Complete, next, rest) && (short ==> LinesFit(m, s))
    ensures next.request == m.request
  {
    hide Run, LinesFit, TrailerOk, SizeLineOk, Leads;
    var last := Lines(trailers) + (CRLF + rest);
    SizeLineLeads(m, lastLine, 0, last, short);
    var m2 := m.(chunkSize := 0, chunkBytesRead := 0, state := ChunkTrailers);
    next := TrailersAccepted(m2, trailers, rest, short);
    LeadsTo(m, lastLine + CRLF + last, m2, last, short);
  }

  lemma EncodeChunked(chunks: seq<Chunk>, lastLine: string, trailers: seq<string>, rest: string)
    ensures EncodePayload(Chunked(chunks, lastLine, trailers)) + rest
         == EncodeChunks(chunks) + (lastLine + CRLF + (Lines(trailers) + (CRLF + rest)))
  {
    hide EncodeChunks, Lines;
    var a, b := EncodeChunks(chunks), Lines(trailers);
    assert (a + (lastLine + CRLF + (b + CRLF))) + rest == a + ((lastLine + CRLF + (b + CRLF)) + rest);
    assert (lastLine + CRLF + (b + CRLF)) + rest == lastLine + CRLF + ((b + CRLF) + rest);
  }

  lemma ChunkedAccepted(m: Memory, chunks: seq<Chunk>, lastLine: string, trailers: seq<string>, rest: string, short: bool)
    returns (next: Memory)
    requires m.state == ChunkSize && m.request.body == "" && m.trailerSize == 0 && m.trailerCount == 0
    requires ChunkedOk(chunks, lastLine, trailers) && (short ==> ShortPayload(Chunked(chunks, lastLine, trailers)))
    ensures var s := EncodePayload(Chunked(chunks, lastLine, trailers)) + rest;
            Run(m, s) == Outcome(Complete, next, rest) && (short ==> LinesFit(m, s))
    ensures next.request == m.request.(body := ChunkBytes(chunks))
  {
    hide Run, LinesFit, TrailerOk, SizeLineOk, ChunkOk, EncodePayload, EncodeChunks, Leads, Lines;
    EncodeChunked(chunks, lastLine, trailers, rest);
    var tail := lastLine + CRLF + (Lines(trailers) + (CRLF + rest));
    var m1 := ChunksAccepted(m, chunks, tail, short);
    assert "" + ChunkBytes(chunks) == ChunkBytes(chunks);
    LeadsTo(m, EncodeChunks(chunks) + tail, m1, tail, short);
    assert ChunkBytes([]) == "";
    next := LastChunkAccepted(m1, lastLine, trailers, rest, short);
  }

  lemma LeadsTo(m: Memory, s: string, next: Memory, rest: string, short: bool)
    requires Leads(m, s, next, rest, short)
    ensures Run(m, s) == Run(next, rest) && (short && LinesFit(next, rest) ==> LinesFit(m, s))
  {
  }
}
