/**
 The hand-written HTTP/1.1 messages: what HttpClient prints and the server's
 handle_client parses, and what http_response prints and HttpClient recovers.

 A message travels as a byte stream of which asio::read_until hands over the
 header block plus any number of bytes that happened to arrive with it; the
 rest comes with the later asio::read.
 */
module Http {
  import opened Text

  const CRLF := "\r\n"
  const BLANK := "\r\n\r\n"

  // ----------------------------------------------------------------- printers

  function StartLine(verb: string, path: string): string { verb + " " + path + " HTTP/1.1" }
  function HostLine(host: string): string { "Host: " + host }
  function LengthLine(n: nat): string { "Content-Length:" + (" " + ToDecimal(n)) }

  const STATUS_LINE := "HTTP/1.1 200 OK"
  const TYPE_LINE := "Content-Type: application/json"
  const CLOSE_LINE := "Connection: close"

  /** HttpClient::post */
  function PostText(path: string, host: string, body: string): string {
    StartLine("POST", path) + CRLF
    + HostLine(host) + CRLF
    + LengthLine(|body|) + CRLF + CRLF
    + body
  }

  /** HttpClient::get */
  function GetText(path: string, host: string): string {
    StartLine("GET", path) + CRLF
    + HostLine(host) + CRLF + CRLF
  }

  /** The server's http_response */
  function ResponseText(body: string): string {
    STATUS_LINE + CRLF
    + LengthLine(|body|) + CRLF
    + TYPE_LINE + CRLF
    + CLOSE_LINE + CRLF + CRLF
    + body
  }

  /** Lines, a blank line, a body: what all three printers produce. */
  function Block(lines: seq<string>, body: string): string {
    if lines == [] then CRLF + body else lines[0] + CRLF + Block(lines[1..], body)
  }

  lemma {:induction false} BlockSplit(lines: seq<string>, body: string)
    ensures Block(lines, body) == Block(lines, "") + body
  {
    if lines != [] {
      BlockSplit(lines[1..], body);
    }
  }

  /** A message cut somewhere behind its header block is a block with part of the body, and the other part. */
  lemma BlockCut(lines: seq<string>, body: string, head: string, tail: string) returns (part: string)
    requires Block(lines, body) == head + tail && |tail| <= |body|
    ensures head == Block(lines, part) && body == part + tail
  {
    part := body[..|body| - |tail|];
    BlockSplit(lines, body);
    BlockSplit(lines, part);
    var header := Block(lines, "");
    assert header + body == head + tail;
    assert head == (header + body)[..|head|] == header + part;
    assert tail == (header + body)[|head|..] == body[|part|..];
  }

  lemma TwoLines(a: string, b: string, body: string)
    ensures a + CRLF + b + CRLF + CRLF + body == Block([a, b], body)
  {
    assert [a, b][1..] == [b] && [b][1..] == [];
    assert Block([b], body) == b + CRLF + (CRLF + body);
  }

  lemma ThreeLines(a: string, b: string, c: string, body: string)
    ensures a + CRLF + b + CRLF + c + CRLF + CRLF + body == Block([a, b, c], body)
  {
    TwoLines(b, c, body);
    assert [a, b, c][1..] == [b, c];
    Concat(a + CRLF, b + CRLF + c + CRLF + CRLF + body, Block([b, c], body));
  }

  lemma FourLines(a: string, b: string, c: string, d: string, body: string)
    ensures a + CRLF + b + CRLF + c + CRLF + d + CRLF + CRLF + body == Block([a, b, c, d], body)
  {
    ThreeLines(b, c, d, body);
    assert [a, b, c, d][1..] == [b, c, d];
    Concat(a + CRLF, b + CRLF + c + CRLF + d + CRLF + CRLF + body, Block([b, c, d], body));
  }

  lemma Concat(a: string, b: string, c: string)
    requires b == c
    ensures a + b == a + c
  {
  }

  // ------------------------------------------------- end of the header block

  /** The least number of bytes that read_until needs: through the first blank line. */
  function HeaderEnd(stream: string): Option<nat> {
    match Find(stream, BLANK)
    case None => None
    case Some(i) => Some(i + 4)
  }

  /** A line that is neither empty nor holds a line break or starts with a carriage return. */
  predicate PlainLine(line: string) {
    line != "" && '\n' !in line && line[0] != '\r'
  }

  lemma BlankAt(s: string, j: nat)
    ensures OccursAt(s, BLANK, j) ==> s[j] == '\r' && s[j + 1] == '\n' && s[j + 2] == '\r' && s[j + 3] == '\n'
  {
    if OccursAt(s, BLANK, j) {
      var w := s[j..j + 4];
      assert w[0] == s[j] && w[1] == s[j + 1] && w[2] == s[j + 2] && w[3] == s[j + 3];
    }
  }

  lemma BlankNotInLine(line: string, rest: string, j: nat)
    requires '\n' !in line && rest != "" && rest[0] != '\r' && j < |line| + 2
    ensures !OccursAt(line + CRLF + rest, BLANK, j)
  {
    var s := line + CRLF + rest;
    BlankAt(s, j);
    assert s[|line|] == '\r' && s[|line| + 1] == '\n' && s[|line| + 2] == rest[0];
    if j + 1 < |line| {
      assert s[j + 1] == line[j + 1] != '\n';
    }
  }

  /** The search for the blank line passes over a line followed by another line. */
  lemma HeaderEndAfterLine(line: string, rest: string)
    requires '\n' !in line && rest != "" && rest[0] != '\r'
    requires HeaderEnd(rest).Some?
    ensures HeaderEnd(line + CRLF + rest) == Some(|line| + 2 + HeaderEnd(rest).value)
  {
    var s := line + CRLF + rest;
    var i := HeaderEnd(rest).value - 4;
    var n := |line| + 2;
    OccursAfter(line + CRLF, rest, BLANK, i);
    forall j: nat | j < n + i
      ensures !OccursAt(s, BLANK, j)
    {
      if j < n {
        BlankNotInLine(line, rest, j);
      } else {
        OccursAfter(line + CRLF, rest, BLANK, j - n);
      }
    }
    FindIs(s, BLANK, n + i);
  }

  /** ... and stops at the blank line after the last one. */
  lemma HeaderEndAtBlank(line: string, body: string)
    requires PlainLine(line)
    ensures HeaderEnd(line + BLANK + body) == Some(|line| + 4)
  {
    var s := line + BLANK + body;
    assert s[|line|..|line| + 4] == BLANK;
    assert s[0] == line[0] && s[|line|] == '\r';
    forall j: nat | j < |line|
      ensures !OccursAt(s, BLANK, j)
    {
      BlankAt(s, j);
      assert j + 1 < |line| ==> s[j + 1] == line[j + 1];
    }
    FindIs(s, BLANK, |line|);
  }

  /** Headers are lines that start with no carriage return, so a block's header ends where its body starts. */
  lemma {:induction false} BlockHeaderEnd(lines: seq<string>, body: string)
    requires lines != [] && forall i :: 0 <= i < |lines| ==> PlainLine(lines[i])
    ensures |body| <= |Block(lines, body)|
    ensures HeaderEnd(Block(lines, body)) == Some(|Block(lines, body)| - |body|)
  {
    var rest := Block(lines[1..], body);
    if |lines| == 1 {
      assert lines[0] + CRLF + rest == lines[0] + BLANK + body;
      HeaderEndAtBlank(lines[0], body);
    } else {
      BlockHeaderEnd(lines[1..], body);
      assert rest[0] == lines[1][0];
      HeaderEndAfterLine(lines[0], rest);
    }
  }

  // ------------------------------------------------------------ input streams

  /** `in >> word`: skip white space, take characters up to the next white space. */
  function WordRun(s: string): (r: string)
    ensures r <= s
    ensures forall i :: 0 <= i < |r| ==> !IsSpace(r[i])
    ensures |r| < |s| ==> IsSpace(s[|r|])
  {
    if s == "" || IsSpace(s[0]) then "" else
    assert forall r: string :: r <= s[1..] ==> [s[0]] + r <= s;
    [s[0]] + WordRun(s[1..])
  }

  /** What is left after skipping white space and reading one word. */
  function AfterWord(s: string): (r: string)
    ensures |r| <= |s|
  {
    SkipSpace(s)[|WordRun(SkipSpace(s))|..]
  }

  /** A non-empty text without white space: what one extraction can deliver. */
  predicate IsWord(s: string) {
    s != "" && forall i :: 0 <= i < |s| ==> !IsSpace(s[i])
  }

  lemma {:induction false} WordRunOf(word: string, rest: string)
    requires forall i :: 0 <= i < |word| ==> !IsSpace(word[i])
    requires rest == "" || IsSpace(rest[0])
    ensures WordRun(word + rest) == word
  {
    if word == "" {
      assert word + rest == rest;
    } else {
      WordRunOf(word[1..], rest);
      assert (word + rest)[1..] == word[1..] + rest;
    }
  }

  lemma ExtractWord(word: string, rest: string)
    requires IsWord(word) && rest != "" && IsSpace(rest[0])
    ensures WordRun(SkipSpace(word + rest)) == word && AfterWord(word + rest) == rest
  {
    assert SkipSpace(word + rest) == word + rest;
    WordRunOf(word, rest);
  }

  lemma SkipOneSpace(c: char, s: string)
    requires IsSpace(c)
    ensures SkipSpace([c] + s) == SkipSpace(s)
  {
    assert ([c] + s)[1..] == s;
  }

  /** std::istream over an asio::streambuf; `ok` is the negation of failbit. */
  class InputStream {
    var data: string
    var ok: bool

    constructor (data: string)
      ensures this.data == data && ok
    {
      this.data := data;
      ok := true;
    }

    method ExtractWord() returns (word: string)
      modifies this
      ensures word == if old(ok) then WordRun(SkipSpace(old(data))) else ""
      ensures data == if old(ok) then AfterWord(old(data)) else old(data)
      ensures ok == (old(ok) && word != "")
    {
      word := "";
      if ok {
        data := SkipSpace(data);
        word := WordRun(data);
        data := data[|word|..];
        ok := word != "";
      }
    }

    method GetLine() returns (line: string)
      modifies this
      ensures ok == (old(ok) && old(data) != "")
      ensures ok ==> (line, data) == Text.GetLine(old(data))
      ensures !ok ==> data == old(data)
    {
      line := "";
      if ok {
        ok := data != "";
        if ok {
          var (l, rest) := Text.GetLine(data);
          line, data := l, rest;
        }
      }
    }
  }

  /** std::ostringstream as used with `ss << &buf`. */
  class OutputStream {
    var text: string
    var ok: bool

    constructor ()
      ensures text == "" && ok
    {
      text := "";
      ok := true;
    }

    /** `ss << &buf`: drains the buffer; inserting nothing sets failbit, and then it does nothing ever after. */
    method InsertBuffer(buf: InputStream)
      modifies this, buf`data
      ensures text == if old(ok) then old(text) + old(buf.data) else old(text)
      ensures ok == (old(ok) && old(buf.data) != "")
      ensures buf.data == if old(ok) then "" else old(buf.data)
    {
      if ok {
        ok := buf.data != "";
        text := text + buf.data;
        buf.data := "";
      }
    }

    /** `ss.str("")`: forgets the text but not the failbit. */
    method Reset()
      modifies `text
      ensures text == ""
    {
      text := "";
    }
  }

  // ------------------------------------------------------------ server parser

  datatype Request = Request(verb: string, path: string, body: string)

  /** handle_client swallows every exception and closes the connection. */
  datatype Parsed = Dropped | Parsed(request: Request)

  function ToLower(s: string): (t: string)
    ensures |t| == |s|
    ensures forall i :: 0 <= i < |s| ==> t[i] == if 'A' <= s[i] <= 'Z' then s[i] - 'A' + 'a' else s[i]
  {
    seq(|s|, i requires 0 <= i < |s| => if 'A' <= s[i] <= 'Z' then s[i] - 'A' + 'a' else s[i])
  }

  const CONTENT_LENGTH := "content-length:"

  /** Does this header line carry the length? */
  predicate IsLengthLine(line: string) {
    CONTENT_LENGTH <= ToLower(line)
  }

  /** What follows the colon of a length line, without leading blanks. */
  function LengthValue(line: string): string
    requires IsLengthLine(line)
  {
    assert ToLower(line)[14] == CONTENT_LENGTH[14];
    SkipBlanks(line[IndexOfChar(line, ':') + 1..])
  }

  function SkipBlanks(s: string): string {
    if s != "" && s[0] in " \t\r\n" then SkipBlanks(s[1..]) else s
  }

  /** The length after one header line; None when std::stoul throws. */
  function LengthAfter(line: string, length: nat): Option<nat> {
    if !IsLengthLine(line) || LengthValue(line) == "" then Some(length) else Stoul(LengthValue(line))
  }

  datatype Headers = BadLength | Headers(length: nat, rest: string)

  /** The header loop: lines up to the blank one, the last length winning. */
  function ReadHeaders(data: string, length: nat): Headers
    decreases |data|
  {
    if data == "" then Headers(length, "")
    else
      var (line, rest) := GetLine(data);
      if line == "\r" then Headers(length, rest)
      else
        match LengthAfter(line, length)
        case None => BadLength
        case Some(l) => ReadHeaders(rest, l)
  }

  /** The body of `length` bytes, of which `rest` is already buffered and `later` still to come. */
  function ReadBody(rest: string, later: string, length: nat): Option<string> {
    if |rest + later| < length then None // asio::read throws at end of stream
    else Some((rest + later)[..length])
  }

  datatype RequestLine = RequestLine(verb: string, path: string, version: string, rest: string)

  /** `request >> method >> path >> httpver`: after a failed extraction the others deliver nothing. */
  function ReadRequestLine(data: string): RequestLine {
    var verb := WordRun(SkipSpace(data));
    var data1 := AfterWord(data);
    if verb == "" then RequestLine("", "", "", data1) else
    var path := WordRun(SkipSpace(data1));
    var data2 := AfterWord(data1);
    if path == "" then RequestLine(verb, "", "", data2) else
    RequestLine(verb, path, WordRun(SkipSpace(data2)), AfterWord(data2))
  }

  /** handle_client's parser on a buffered part and what comes later. */
  function ServerParse(buffered: string, later: string): Parsed {
    var l := ReadRequestLine(buffered);
    if l.version == "" || l.rest == "" then
      Parsed(Request(l.verb, l.path, "")) // the stream has failed: no header is read, no length known
    else
      match ReadHeaders(GetLine(l.rest).1, 0)
      case BadLength => Dropped
      case Headers(length, rest) =>
        match ReadBody(rest, later, length)
        case None => Dropped
        case Some(body) => Parsed(Request(l.verb, l.path, body))
  }

  method HandleClient(buffered: string, later: string) returns (r: Parsed)
    ensures r == ServerParse(buffered, later)
  {
    var request := new InputStream(buffered);
    var verb := request.ExtractWord();
    var path := request.ExtractWord();
    var version := request.ExtractWord();
    var _ := request.GetLine();
    var length := ReadHeaderLines(request);
    if length.None? {
      return Dropped;
    }
    var body := ReadRequestBody(request, later, length.value);
    if body.None? {
      return Dropped;
    }
    return Parsed(Request(verb, path, body.value));
  }

  method ReadHeaderLines(request: InputStream) returns (length: Option<nat>)
    modifies request
    ensures !old(request.ok) ==> length == Some(0)
    ensures old(request.ok) ==>
      match ReadHeaders(old(request.data), 0)
      case BadLength => length == None
      case Headers(l, rest) => length == Some(l) && request.data == rest
  {
    var l := 0;
    var line := request.GetLine();
    while request.ok && line != "\r"
      invariant !old(request.ok) ==> !request.ok && l == 0
      invariant old(request.ok) ==> ReadHeaders(old(request.data), 0) == Pending(request.ok, line, request.data, l)
      decreases request.ok, |request.data|
    {
      var next := LengthAfter(line, l);
      if next.None? {
        return None;
      }
      l := next.value;
      line := request.GetLine();
    }
    return Some(l);
  }

  /** What the header loop still has to do once a line has been fetched. */
  ghost function Pending(ok: bool, line: string, data: string, length: nat): Headers {
    if !ok then Headers(length, data)
    else if line == "\r" then Headers(length, data)
    else
      match LengthAfter(line, length)
      case None => BadLength
      case Some(l) => ReadHeaders(data, l)
  }

  method ReadRequestBody(request: InputStream, later: string, length: nat) returns (body: Option<string>)
    modifies request
    ensures body == ReadBody(old(request.data), later, length)
  {
    if length == 0 {
      return Some("");
    }
    var available := |request.data|;
    if available < length {
      if |later| < length - available {
        return None;
      }
      request.data := request.data + later[..length - available];
    }
    var ss := new OutputStream();
    ss.InsertBuffer(request);
    var text := ss.text;
    if |text| > length {
      text := text[..length];
    }
    assert text == (old(request.data) + later)[..length];
    return Some(text);
  }

  // ---------------------------------------------------------- client receiver

  /** What follows the first blank line, or nothing. */
  function AfterHeaders(data: string): string
    decreases |data|
  {
    if data == "" then "" else
    var (line, rest) := GetLine(data);
    if line == "\r" then rest else AfterHeaders(rest)
  }

  /**
   The text that HttpClient's request() returns when `arrived` was buffered with
   the headers and `later` was read afterwards; `clean` tells whether that second
   read ended at end of stream rather than with an error.
   */
  function ClientReceive(arrived: string, later: string, clean: bool): string {
    var first := AfterHeaders(arrived);
    if !clean || first == "" then first else first + later
  }

  method Receive(arrived: string, later: string, clean: bool) returns (body: string)
    ensures body == ClientReceive(arrived, later, clean)
  {
    var buf := new InputStream(arrived);
    SkipHeaders(buf);
    body := CollectBody(buf, later, clean);
  }

  /** The two insertions into one string stream, with the second read between them. */
  method CollectBody(buf: InputStream, later: string, clean: bool) returns (body: string)
    modifies buf
    ensures body == if !clean || old(buf.data) == "" then old(buf.data) else old(buf.data) + later
  {
    var ss := new OutputStream();
    ss.InsertBuffer(buf);
    body := ss.text;
    buf.data := buf.data + later;
    if clean {
      ss.Reset();
      ss.InsertBuffer(buf);
      body := body + ss.text;
    }
  }

  method SkipHeaders(buf: InputStream)
    requires buf.ok
    modifies buf
    ensures buf.data == AfterHeaders(old(buf.data))
  {
    var line := buf.GetLine();
    while buf.ok && line != "\r"
      invariant AfterHeaders(old(buf.data)) == if buf.ok && line != "\r" then AfterHeaders(buf.data) else buf.data
      decreases buf.ok, |buf.data|
    {
      line := buf.GetLine();
    }
  }

  // ------------------------------------------------- requests survive the trip

  lemma WordsRead(verb: string, path: string, version: string, rest: string)
    requires IsWord(verb) && IsWord(path) && IsWord(version) && rest != "" && IsSpace(rest[0])
    ensures ReadRequestLine(verb + (" " + (path + (" " + (version + rest))))) == RequestLine(verb, path, version, rest)
  {
    var r2 := " " + (version + rest);
    var r1 := " " + (path + r2);
    ExtractWord(verb, r1);
    SkipOneSpace(' ', path + r2);
    ExtractWord(path, r2);
    SkipOneSpace(' ', version + rest);
    ExtractWord(version, rest);
  }

  lemma RequestLineRead(verb: string, path: string, rest: string)
    requires IsWord(verb) && IsWord(path)
    ensures ReadRequestLine(StartLine(verb, path) + CRLF + rest) == RequestLine(verb, path, "HTTP/1.1", CRLF + rest)
  {
    WordsRead(verb, path, "HTTP/1.1", CRLF + rest);
    StartLineWords(verb, path, CRLF, rest);
  }

  lemma StartLineWords(verb: string, path: string, crlf: string, rest: string)
    ensures StartLine(verb, path) + crlf + rest == verb + (" " + (path + (" " + ("HTTP/1.1" + (crlf + rest)))))
  {
    assert " HTTP/1.1" == " " + "HTTP/1.1";
  }

  lemma LineEnd(line: string, rest: string)
    requires '\n' !in line
    ensures GetLine(line + CRLF + rest) == (line + "\r", rest)
  {
    assert line + CRLF + rest == (line + "\r") + "\n" + rest;
    GetLineOf(line + "\r", rest);
  }

  lemma EmptyLine(rest: string)
    ensures GetLine(CRLF + rest) == ("\r", rest)
  {
    assert CRLF + rest == "" + CRLF + rest && "" + "\r" == "\r";
    LineEnd("", rest);
  }

  /** The length that a block of header lines announces. */
  function Announced(lines: seq<string>, length: nat): Option<nat> {
    if lines == [] then Some(length) else
    match LengthAfter(lines[0] + "\r", length)
    case None => None
    case Some(l) => Announced(lines[1..], l)
  }

  /** The header loop reads a block line by line and stops in front of the body. */
  lemma {:induction false} BlockHeadersRead(lines: seq<string>, body: string, length: nat)
    requires forall i :: 0 <= i < |lines| ==> PlainLine(lines[i])
    ensures ReadHeaders(Block(lines, body), length)
         == match Announced(lines, length) case None => BadLength case Some(l) => Headers(l, body)
  {
    if lines == [] {
      EmptyLine(body);
    } else {
      LineEnd(lines[0], Block(lines[1..], body));
      match LengthAfter(lines[0] + "\r", length)
      case None =>
      case Some(l) => BlockHeadersRead(lines[1..], body, l);
    }
  }

  lemma LowerConcat(a: string, b: string)
    ensures ToLower(a + b) == ToLower(a) + ToLower(b)
  {
  }

  lemma LengthNameIsLength(rest: string)
    ensures IsLengthLine("Content-Length:" + rest)
  {
    LowerConcat("Content-Length:", rest);
    assert ToLower("Content-Length:") == CONTENT_LENGTH;
  }

  lemma LengthValueRead(digits: string)
    requires digits != "" && IsDigit(digits[0])
    ensures IsLengthLine("Content-Length:" + (" " + digits))
    ensures LengthValue("Content-Length:" + (" " + digits)) == digits
  {
    LengthNameIsLength(" " + digits);
    var name := "Content-Length";
    assert "Content-Length:" + (" " + digits) == name + [':'] + (" " + digits);
    IndexOfCharIs(name, ':', " " + digits);
    assert (" " + digits)[1..] == digits;
    assert digits[0] !in " \t\r\n";
    assert SkipBlanks(" " + digits) == digits;
    assert ("Content-Length:" + (" " + digits))[15..] == " " + digits;
  }

  lemma Regroup(a: string, b: string, c: string, d: string)
    ensures a + (b + c) + d == a + (b + (c + d))
  {
  }

  /** A printed Content-Length is understood. */
  lemma LengthLineRead(n: nat, length: nat)
    requires n <= ULONG_MAX
    ensures LengthAfter(LengthLine(n) + "\r", length) == Some(n)
  {
    var digits := ToDecimal(n) + "\r";
    LengthValueRead(digits);
    Regroup("Content-Length:", " ", ToDecimal(n), "\r");
    StoulOfDecimal(n, "\r");
  }

  lemma HostLineRead(host: string, length: nat)
    ensures LengthAfter(HostLine(host) + "\r", length) == Some(length)
  {
    assert ToLower(HostLine(host) + "\r")[0] == 'h';
  }

  lemma PlainHeaders(path: string, host: string, n: nat)
    ensures '\n' !in host ==> PlainLine(HostLine(host))
    ensures PlainLine(LengthLine(n))
    ensures '\n' !in path ==> PlainLine(StartLine("POST", path)) && PlainLine(StartLine("GET", path))
  {
  }

  function PostLines(path: string, host: string, n: nat): seq<string> {
    [StartLine("POST", path), HostLine(host), LengthLine(n)]
  }

  /** The printed lines, character by character; each ends in a carriage return and a newline. */
  lemma PrintedLines(path: string, host: string, n: nat)
    ensures CRLF == [13 as char, 10 as char]
    ensures PostLines(path, host, n) == [StartLine("POST", path), "Host: " + host, "Content-Length: " + ToDecimal(n)]
    ensures GetLines(path, host) == [StartLine("GET", path), "Host: " + host]
    ensures StartLine("POST", path) == "POST " + path + " HTTP/1.1"
    ensures StartLine("GET", path) == "GET " + path + " HTTP/1.1"
    ensures ResponseLines(n)
         == ["HTTP/1.1 200 OK", "Content-Length: " + ToDecimal(n), "Content-Type: application/json", "Connection: close"]
  {
    assert "Content-Length:" + " " == "Content-Length: ";
    assert LengthLine(n) == "Content-Length: " + ToDecimal(n);
  }

  lemma PlainPostLines(path: string, host: string, n: nat)
    requires '\n' !in path && '\n' !in host
    ensures forall i :: 0 <= i < |PostLines(path, host, n)| ==> PlainLine(PostLines(path, host, n)[i])
  {
    PlainHeaders(path, host, n);
  }

  lemma PostIsBlock(path: string, host: string, body: string)
    ensures PostText(path, host, body) == Block(PostLines(path, host, |body|), body)
  {
    ThreeLines(StartLine("POST", path), HostLine(host), LengthLine(|body|), body);
  }

  /** The header block of a POST is everything but its body. */
  lemma PostHeaderEnd(path: string, host: string, body: string)
    requires '\n' !in path && '\n' !in host
    ensures PostText(path, host, body) == Block(PostLines(path, host, |body|), body)
    ensures |body| <= |PostText(path, host, body)|
    ensures HeaderEnd(PostText(path, host, body)) == Some(|PostText(path, host, body)| - |body|)
  {
    PostIsBlock(path, host, body);
    PlainPostLines(path, host, |body|);
    BlockHeaderEnd(PostLines(path, host, |body|), body);
  }

  lemma PostAnnounced(host: string, n: nat)
    requires n <= ULONG_MAX
    ensures Announced([HostLine(host), LengthLine(n)], 0) == Some(n)
  {
    HostLineRead(host, 0);
    LengthLineRead(n, 0);
    AnnouncedByTwo(HostLine(host), LengthLine(n));
  }

  lemma AnnouncedByTwo(a: string, b: string)
    ensures Announced([a, b], 0)
         == match LengthAfter(a + "\r", 0) case None => None case Some(l) => LengthAfter(b + "\r", l)
  {
    assert [a, b][1..] == [b];
    assert forall l: nat :: Announced([b][1..], l) == Some(l);
  }

  /** Parsing a block: the words of its first line, the length its headers announce, that much of the body. */
  lemma BlockParsed(verb: string, path: string, lines: seq<string>, part: string, later: string, n: nat)
    requires IsWord(verb) && IsWord(path)
    requires lines != [] && lines[0] == StartLine(verb, path)
    requires forall i :: 1 <= i < |lines| ==> PlainLine(lines[i])
    requires Announced(lines[1..], 0) == Some(n)
    ensures ServerParse(Block(lines, part), later)
         == match ReadBody(part, later, n) case None => Dropped case Some(body) => Parsed(Request(verb, path, body))
  {
    RequestLineRead(verb, path, Block(lines[1..], part));
    EmptyLine(Block(lines[1..], part));
    BlockHeadersRead(lines[1..], part, 0);
  }

  /** However the stream was split behind the header block, the server sees the request that was printed. */
  lemma {:induction false} PostRoundTrip(path: string, host: string, body: string, head: string, tail: string)
    requires IsWord(path) && '\n' !in host && |body| <= ULONG_MAX
    requires PostText(path, host, body) == head + tail
    requires HeaderEnd(head + tail).Some? && HeaderEnd(head + tail).value <= |head|
    ensures ServerParse(head, tail) == Parsed(Request("POST", path, body))
  {
    PostHeaderEnd(path, host, body);
    PostLinesOk(path, host, |body|);
    var part := BlockCut(PostLines(path, host, |body|), body, head, tail);
    BlockSent("POST", path, PostLines(path, host, |body|), part, tail);
  }

  lemma PostLinesOk(path: string, host: string, n: nat)
    requires '\n' !in host && n <= ULONG_MAX
    ensures IsWord("POST")
    ensures var lines := PostLines(path, host, n);
            && lines != [] && lines[0] == StartLine("POST", path)
            && (forall i :: 1 <= i < |lines| ==> PlainLine(lines[i]))
            && Announced(lines[1..], 0) == Some(n)
  {
    PlainHeaders(path, host, n);
    PostAnnounced(host, n);
    assert PostLines(path, host, n)[1..] == [HostLine(host), LengthLine(n)];
  }

  lemma BodyWhole(part: string, tail: string)
    ensures ReadBody(part, tail, |part + tail|) == Some(part + tail)
  {
    var body := part + tail;
    assert body[..|body|] == body;
  }

  lemma {:induction false} BlockSent(verb: string, path: string, lines: seq<string>, part: string, tail: string)
    requires IsWord(verb) && IsWord(path)
    requires lines != [] && lines[0] == StartLine(verb, path)
    requires forall i :: 1 <= i < |lines| ==> PlainLine(lines[i])
    requires Announced(lines[1..], 0) == Some(|part + tail|)
    ensures ServerParse(Block(lines, part), tail) == Parsed(Request(verb, path, part + tail))
  {
    BlockParsed(verb, path, lines, part, tail, |part + tail|);
    BodyWhole(part, tail);
  }

  lemma PartRead(part: string, tail: string, later: string)
    ensures ReadBody(part, later, |part + tail|) == if |later| < |tail| then None else Some(part + later[..|tail|])
  {
    if |tail| <= |later| {
      assert (part + later)[..|part + tail|] == part + later[..|tail|];
    }
  }

  /**
   A POST whose header block is followed by something else than was sent: it is
   dropped exactly when too few bytes follow, and no byte beyond the announced
   length is looked at.
   */
  lemma PostPartReceived(path: string, host: string, body: string, head: string, tail: string, later: string)
    requires IsWord(path) && '\n' !in host && |body| <= ULONG_MAX
    requires PostText(path, host, body) == head + tail
    requires HeaderEnd(head + tail).Some? && HeaderEnd(head + tail).value <= |head|
    ensures |tail| <= |body|
    ensures ServerParse(head, later)
         == if |later| < |tail| then Dropped
            else Parsed(Request("POST", path, body[..|body| - |tail|] + later[..|tail|]))
  {
    PostHeaderEnd(path, host, body);
    PostLinesOk(path, host, |body|);
    var part := BlockCut(PostLines(path, host, |body|), body, head, tail);
    assert part == body[..|body| - |tail|];
    BlockParsed("POST", path, PostLines(path, host, |body|), part, later, |body|);
    PartRead(part, tail, later);
  }

  /** Of a request line with fewer than three words only these words are seen, and no header, so there is no body. */
  lemma TwoWordRequest(verb: string, path: string, rest: string, later: string)
    requires IsWord(verb) && IsWord(path) && rest != "" && AllSpace(rest)
    ensures ServerParse(verb + (" " + (path + rest)), later) == Parsed(Request(verb, path, ""))
  {
    ExtractWord(verb, " " + (path + rest));
    SkipOneSpace(' ', path + rest);
    ExtractWord(path, rest);
    SkipSpaces(rest, "");
    assert rest + "" == rest;
  }

  /** A message of white space is a request without method, path and body. */
  lemma NoWordRequest(spaces: string, later: string)
    requires AllSpace(spaces)
    ensures ServerParse(spaces, later) == Parsed(Request("", "", ""))
  {
    SkipSpaces(spaces, "");
    assert spaces + "" == spaces;
  }

  lemma OneWordRequest(verb: string, rest: string, later: string)
    requires IsWord(verb) && rest != "" && AllSpace(rest)
    ensures ServerParse(verb + rest, later) == Parsed(Request(verb, "", ""))
  {
    ExtractWord(verb, rest);
    SkipSpaces(rest, "");
    assert rest + "" == rest;
  }

  /** White space in front of the method is skipped, line ends included. */
  lemma LeadingSpaceSkipped(spaces: string, message: string, later: string)
    requires AllSpace(spaces) && message != "" && !IsSpace(message[0])
    ensures ServerParse(spaces + message, later) == ServerParse(message, later)
  {
    SkipSpaces(spaces, message);
    assert SkipSpace(spaces + message) == SkipSpace(message);
    assert AfterWord(spaces + message) == AfterWord(message);
    assert ReadRequestLine(spaces + message) == ReadRequestLine(message);
  }

  /** The third word of the request line has to be there, and may be anything. */
  lemma VersionIgnored(verb: string, path: string, v: string, w: string, rest: string, later: string)
    requires IsWord(verb) && IsWord(path) && IsWord(v) && IsWord(w) && rest != "" && IsSpace(rest[0])
    ensures ServerParse(verb + (" " + (path + (" " + (v + rest)))), later)
         == ServerParse(verb + (" " + (path + (" " + (w + rest)))), later)
  {
    WordsRead(verb, path, v, rest);
    WordsRead(verb, path, w, rest);
  }

  /** Headers end at the first line that is a carriage return alone; an empty line without one is a header like any other. */
  lemma HeadersLineByLine(line: string, rest: string, length: nat)
    requires '\n' !in line
    ensures AfterHeaders(line + "\n" + rest) == if line == "\r" then rest else AfterHeaders(rest)
    ensures ReadHeaders(line + "\n" + rest, length)
         == if line == "\r" then Headers(length, rest)
            else match LengthAfter(line, length) case None => BadLength case Some(l) => ReadHeaders(rest, l)
  {
    GetLineOf(line, rest);
  }

  // ------------------------------------------------------------- header lines

  /** A name in which every character is that of the lower-case or of the upper-case name. */
  predicate AnyCase(name: string, lower: string, upper: string) {
    |name| == |lower| == |upper| && forall i :: 0 <= i < |name| ==> name[i] == lower[i] || name[i] == upper[i]
  }

  predicate Blanks(s: string) {
    forall i :: 0 <= i < |s| ==> s[i] in " \t\r\n"
  }

  lemma {:induction false} SkipBlanksOf(blanks: string, rest: string)
    requires Blanks(blanks) && (rest == "" || rest[0] !in " \t\r\n")
    ensures SkipBlanks(blanks + rest) == rest
  {
    if blanks == "" {
      assert blanks + rest == rest;
    } else {
      assert (blanks + rest)[1..] == blanks[1..] + rest;
      SkipBlanksOf(blanks[1..], rest);
    }
  }

  lemma AnyCaseIsLength(name: string, rest: string)
    requires AnyCase(name, "content-length", "CONTENT-LENGTH")
    ensures IsLengthLine(name + [':'] + rest)
    ensures ':' !in name
  {
    NameLowers(name, "content-length", "CONTENT-LENGTH");
    LowerConcat(name + [':'], rest);
    LowerConcat(name, [':']);
    assert CONTENT_LENGTH == "content-length" + [':'];
  }

  lemma NameLowers(name: string, lower: string, upper: string)
    requires AnyCase(name, lower, upper)
    requires forall i :: 0 <= i < |lower| ==> !('A' <= lower[i] <= 'Z') && ToLower([upper[i]]) == [lower[i]] && upper[i] != ':'
    requires ':' !in lower
    ensures ToLower(name) == lower && ':' !in name
  {
    forall i | 0 <= i < |name|
      ensures ToLower(name)[i] == lower[i] && name[i] != ':'
    {
      assert ToLower([upper[i]])[0] == lower[i];
    }
  }

  lemma AnyCaseValue(name: string, blanks: string, value: string)
    requires AnyCase(name, "content-length", "CONTENT-LENGTH") && Blanks(blanks)
    requires value == "" || value[0] !in " \t\r\n"
    ensures var line := name + [':'] + (blanks + value); IsLengthLine(line) && LengthValue(line) == value
  {
    var rest := blanks + value;
    AnyCaseIsLength(name, rest);
    IndexOfCharIs(name, ':', rest);
    SkipBlanksOf(blanks, value);
    assert (name + [':'] + rest)[|name| + 1..] == rest;
  }

  /**
   A length line, its name in letters of any case: a number replaces the length, no
   value at all leaves it, and anything else has std::stoul throw.
   */
  lemma LengthLineAnyCase(name: string, blanks: string, value: string, length: nat)
    requires AnyCase(name, "content-length", "CONTENT-LENGTH") && Blanks(blanks)
    requires value == "" || value[0] !in " \t\r\n"
    ensures var line := name + [':'] + (blanks + value);
            && (value == "" ==> LengthAfter(line, length) == Some(length))
            && (value != "" ==> LengthAfter(line, length) == Stoul(value))
  {
    AnyCaseValue(name, blanks, value);
  }

  /** Every other header line leaves the length alone. */
  lemma OtherLineIgnored(line: string, length: nat)
    requires |line| < 15 || !AnyCase(line[..15], "content-length:", "CONTENT-LENGTH:")
    ensures LengthAfter(line, length) == Some(length)
  {
    if IsLengthLine(line) {
      forall i | 0 <= i < 15
        ensures line[i] == "content-length:"[i] || line[i] == "CONTENT-LENGTH:"[i]
      {
        assert ToLower(line)[i] == CONTENT_LENGTH[i];
        UpperOf(line[i], i);
      }
    }
  }

  lemma UpperOf(c: char, i: nat)
    requires i < 15 && ToLower([c])[0] == "content-length:"[i]
    ensures c == "content-length:"[i] || c == "CONTENT-LENGTH:"[i]
  {
  }

  /** The last length line wins; one that is no number spoils the headers, wherever it stands. */
  lemma {:induction false} LastLengthWins(lines: seq<string>, last: string, length: nat)
    ensures Announced(lines + [last], length)
         == match Announced(lines, length) case None => None case Some(l) => LengthAfter(last + "\r", l)
  {
    if lines == [] {
      assert [] + [last] == [last] && [last][1..] == [];
      assert forall l: nat :: Announced([last][1..], l) == Some(l);
    } else {
      assert (lines + [last])[1..] == lines[1..] + [last];
      match LengthAfter(lines[0] + "\r", length)
      case None =>
      case Some(l) => LastLengthWins(lines[1..], last, l);
    }
  }

  lemma ParsedPathIsWord(buffered: string, later: string)
    ensures var r := ServerParse(buffered, later);
            r.Parsed? ==> r.request.path == "" || IsWord(r.request.path)
  {
  }

  /** An empty path makes the version slide into its place. */
  lemma EmptyPathRead(verb: string, rest: string)
    requires IsWord(verb)
    ensures ReadRequestLine(StartLine(verb, "") + CRLF + rest).path == "HTTP/1.1"
  {
    StartLineWords(verb, "", CRLF, rest);
    SlidesInto(verb, "HTTP/1.1", CRLF + rest);
  }

  lemma SlidesInto(verb: string, version: string, rest: string)
    requires IsWord(verb) && IsWord(version) && rest != "" && IsSpace(rest[0])
    ensures ReadRequestLine(verb + (" " + ("" + (" " + (version + rest))))).path == version
  {
    var r2 := " " + (version + rest);
    assert "" + r2 == r2;
    ExtractWord(verb, " " + r2);
    SkipOneSpace(' ', r2);
    SkipOneSpace(' ', version + rest);
    ExtractWord(version, rest);
  }

  lemma EmptyPathParsed(host: string, body: string, head: string, tail: string)
    requires '\n' !in host
    requires PostText("", host, body) == head + tail && |tail| <= |body|
    ensures ServerParse(head, tail) != Parsed(Request("POST", "", body))
  {
    PostHeaderEnd("", host, body);
    var lines := PostLines("", host, |body|);
    var part := BlockCut(lines, body, head, tail);
    assert lines[0] == StartLine("POST", "");
    EmptyPathRead("POST", Block(lines[1..], part));
  }

  /** A POST arrives as it was sent exactly when its path is one word; a caller can check that. */
  lemma PostFaithfulIff(path: string, host: string, body: string, head: string, tail: string)
    requires '\n' !in host && |body| <= ULONG_MAX
    requires PostText(path, host, body) == head + tail
    requires HeaderEnd(head + tail).Some? && HeaderEnd(head + tail).value <= |head|
    ensures ServerParse(head, tail) == Parsed(Request("POST", path, body)) <==> IsWord(path)
  {
    if IsWord(path) {
      PostRoundTrip(path, host, body, head, tail);
    } else if path == "" {
      PostHeaderEnd(path, host, body);
      EmptyPathParsed(host, body, head, tail);
    } else {
      ParsedPathIsWord(head, tail);
    }
  }

  function GetLines(path: string, host: string): seq<string> { [StartLine("GET", path), HostLine(host)] }

  /** A GET has no body, and its header block is the whole message. */
  lemma GetHeaderEnd(path: string, host: string)
    requires '\n' !in path && '\n' !in host
    ensures GetText(path, host) == Block(GetLines(path, host), "")
    ensures HeaderEnd(GetText(path, host)) == Some(|GetText(path, host)|)
  {
    TwoLines(StartLine("GET", path), HostLine(host), "");
    assert GetText(path, host) + "" == GetText(path, host);
    PlainHeaders(path, host, 0);
    BlockHeaderEnd(GetLines(path, host), "");
  }

  lemma GetAnnounced(path: string, host: string)
    ensures Announced(GetLines(path, host)[1..], 0) == Some(0)
  {
    HostLineRead(host, 0);
    assert GetLines(path, host)[1..] == [HostLine(host)] && [HostLine(host)][1..] == [];
  }

  /** However a GET for one word is cut, it arrives as it was sent. */
  lemma GetRoundTrip(path: string, host: string, later: string)
    requires IsWord(path) && '\n' !in host
    ensures HeaderEnd(GetText(path, host)) == Some(|GetText(path, host)|)
    ensures ServerParse(GetText(path, host), later) == Parsed(Request("GET", path, ""))
  {
    GetHeaderEnd(path, host);
    PlainHeaders(path, host, 0);
    GetAnnounced(path, host);
    BlockParsed("GET", path, GetLines(path, host), "", later, 0);
  }

  /** A GET arrives as it was sent exactly when its path is one word, whatever follows it and wherever it is cut. */
  lemma GetFaithfulIff(path: string, host: string, head: string, tail: string, later: string)
    requires '\n' !in host
    requires GetText(path, host) == head + tail
    requires HeaderEnd(head + tail).Some? && HeaderEnd(head + tail).value <= |head|
    ensures ServerParse(head, tail + later) == Parsed(Request("GET", path, "")) <==> IsWord(path)
  {
    if IsWord(path) {
      GetRoundTrip(path, host, later);
      assert head == head + tail && tail + later == later;
    } else if path == "" {
      GetHeaderEnd(path, host);
      assert head == head + tail;
      EmptyPathRead("GET", Block(GetLines(path, host)[1..], ""));
    } else {
      ParsedPathIsWord(head, tail + later);
    }
  }

  lemma FirstWordsRead(verb: string, path: string, rest: string)
    requires IsWord(verb) && IsWord(path) && rest != "" && IsSpace(rest[0])
    ensures ReadRequestLine(verb + (" " + (path + rest))).verb == verb
    ensures ReadRequestLine(verb + (" " + (path + rest))).path == path
  {
    ExtractWord(verb, " " + (path + rest));
    SkipOneSpace(' ', path + rest);
    ExtractWord(path, rest);
  }

  /** A header block holds every word in front of its blank line, and a separator. */
  lemma WordInHead(word: string, rest: string, head: string, tail: string)
    requires '\r' !in word && word + rest == head + tail
    requires HeaderEnd(head + tail).Some? && HeaderEnd(head + tail).value <= |head|
    ensures |word| < |head| && head == word + head[|word|..] && rest != "" && head[|word|] == rest[0]
  {
    var s := head + tail;
    var i := HeaderEnd(s).value - 4;
    BlankAt(s, i);
    assert forall j :: 0 <= j < |word| ==> s[j] == word[j] != '\r';
    assert head[|word|] == s[|word|] == (word + rest)[|word|];
    assert forall j :: 0 <= j < |word| ==> head[j] == s[j];
  }

  /** Of a path with white space in it the server sees the first word. */
  lemma GetPathCut(word: string, more: string, host: string, head: string, tail: string, later: string)
    requires IsWord(word) && (more == "" || IsSpace(more[0]))
    requires GetText(word + more, host) == head + tail
    requires HeaderEnd(head + tail).Some? && HeaderEnd(head + tail).value <= |head|
    ensures var r := ServerParse(head, later); r.Parsed? ==> r.request.verb == "GET" && r.request.path == word
  {
    var rest := more + " HTTP/1.1" + CRLF + HostLine(host) + CRLF + CRLF;
    GetWords(word, more, host);
    NoReturnInWord(word);
    WordInHead("GET " + word, rest, head, tail);
    var behind := head[4 + |word|..];
    assert head == "GET" + (" " + (word + behind));
    FirstWordsRead("GET", word, behind);
  }

  lemma GetWords(word: string, more: string, host: string)
    ensures GetText(word + more, host) == ("GET " + word) + (more + " HTTP/1.1" + CRLF + HostLine(host) + CRLF + CRLF)
    ensures var rest := more + " HTTP/1.1" + CRLF + HostLine(host) + CRLF + CRLF;
            rest != "" && rest[0] == if more == "" then ' ' else more[0]
  {
  }

  lemma NoReturnInWord(word: string)
    requires IsWord(word)
    ensures '\r' !in "GET " + word
  {
  }

  // ------------------------------------------------ responses survive the trip

  lemma {:induction false} BlockSkipped(lines: seq<string>, body: string)
    requires forall i :: 0 <= i < |lines| ==> PlainLine(lines[i])
    ensures AfterHeaders(Block(lines, body)) == body
  {
    if lines == [] {
      EmptyLine(body);
    } else {
      LineEnd(lines[0], Block(lines[1..], body));
      BlockSkipped(lines[1..], body);
    }
  }

  lemma LineBrokenOff(line: string, s: string)
    requires PlainLine(line) && s <= line + "\r"
    ensures AfterHeaders(s) == ""
  {
    if s != "" {
      assert s[0] == line[0];
      assert forall i :: 0 <= i < |s| ==> s[i] == (line + "\r")[i] != '\n';
      assert IndexOfChar(s, '\n') == |s| && s[..|s|] == s;
      assert GetLine(s) == (s, "");
    }
  }

  /** Of a message that breaks off in its headers nothing is left behind them. */
  lemma {:induction false} HeadersBrokenOff(lines: seq<string>, s: string)
    requires forall i :: 0 <= i < |lines| ==> PlainLine(lines[i])
    requires s <= Block(lines, "")
    ensures AfterHeaders(s) == ""
  {
    if lines == [] {
      BlankBrokenOff(s);
    } else {
      var first, rest := lines[0] + CRLF, Block(lines[1..], "");
      if |s| < |first| {
        assert lines[0] + CRLF == lines[0] + "\r" + "\n";
        assert s <= lines[0] + "\r";
        LineBrokenOff(lines[0], s);
      } else {
        var s' := s[|first|..];
        assert s' <= rest && s == first + s';
        LineEnd(lines[0], s');
        assert lines[0] + "\r" != "\r";
        HeadersBrokenOff(lines[1..], s');
      }
    }
  }

  lemma BlankBrokenOff(s: string)
    requires s <= CRLF + ""
    ensures AfterHeaders(s) == ""
  {
    if |s| == 2 {
      assert s == CRLF + "";
      EmptyLine("");
    } else if |s| == 1 {
      assert s == "\r";
      assert IndexOfChar(s, '\n') == 1 && s[..1] == s;
    }
  }

  function ResponseLines(n: nat): seq<string> { [STATUS_LINE, LengthLine(n), TYPE_LINE, CLOSE_LINE] }

  lemma PlainResponseLines(n: nat)
    ensures forall i :: 0 <= i < 4 ==> PlainLine(ResponseLines(n)[i])
  {
    PlainHeaders("", "", n);
  }

  /** The header block of a response is everything but its body. */
  lemma ResponseHeaderEnd(body: string)
    ensures ResponseText(body) == Block(ResponseLines(|body|), body)
    ensures |body| <= |ResponseText(body)|
    ensures HeaderEnd(ResponseText(body)) == Some(|ResponseText(body)| - |body|)
  {
    FourLines(STATUS_LINE, LengthLine(|body|), TYPE_LINE, CLOSE_LINE, body);
    PlainResponseLines(|body|);
    BlockHeaderEnd(ResponseLines(|body|), body);
  }

  /** What the client makes of a response, by how it was split and how the second read ended. */
  lemma ResponseReceived(body: string, head: string, tail: string, clean: bool)
    requires ResponseText(body) == head + tail
    requires HeaderEnd(head + tail).Some? && HeaderEnd(head + tail).value <= |head|
    ensures |tail| <= |body| && body[..|body| - |tail|] + tail == body
    ensures ClientReceive(head, tail, clean)
         == if |head| == HeaderEnd(head + tail).value then "" else if clean then body else body[..|body| - |tail|]
  {
    ResponseHeaderEnd(body);
    PlainResponseLines(|body|);
    var part := BlockCut(ResponseLines(|body|), body, head, tail);
    BlockSkipped(ResponseLines(|body|), part);
    assert part == body[..|body| - |tail|];
  }

  /**
   The body is recovered exactly when it is empty, or some of it came with the
   headers and the rest arrived without an error: otherwise the first insertion
   leaves failbit set and the second one is lost, or there is no second one.
   */
  lemma ResponseRecoveredIff(body: string, head: string, tail: string, clean: bool)
    requires ResponseText(body) == head + tail
    requires HeaderEnd(head + tail).Some? && HeaderEnd(head + tail).value <= |head|
    ensures ClientReceive(head, tail, clean) == body <==>
            body == "" || (HeaderEnd(head + tail).value < |head| && (clean || tail == ""))
  {
    ResponseReceived(body, head, tail, clean);
    ResponseHeaderEnd(body);
  }
}
