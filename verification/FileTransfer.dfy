/**
 Uploading and downloading a stored file, end to end: the client encodes,
 posts and gets; the server parses the request, sanitises the name, decodes,
 stores, looks up and encodes again. Messages are datatypes; how they become
 text is a parameter of which only faithfulness is assumed.
 */
module FileTransfer {
  import opened Text
  import opened Http
  import Base64

  type Bytes = seq<bv8>

  datatype Message =
    | Upload(filename: string, content: Bytes)
    | Stored(filename: string)
    | Content(content: Bytes, filename: string)
    | Failure(error: string)

  /** The JSON library: dump and parse. */
  datatype Json = Json(dump: Message -> string, parse: string -> Option<Message>) {
    /** Parsing undoes dumping, and neither an empty text nor a dumped object that breaks off is JSON. */
    ghost predicate Faithful() {
      && (forall m :: parse(dump(m)) == Some(m)) && parse("") == None
      && (forall m, n: nat :: n < |dump(m)| ==> parse(dump(m)[..n]) == None)
    }
  }

  // -------------------------------------------------------------------- names

  /** What follows the last '/' or '\'. */
  function BaseName(s: string): (r: string)
    ensures |r| <= |s|
  {
    if s == "" then ""
    else if s[|s| - 1] == '/' || s[|s| - 1] == '\\' then ""
    else BaseName(s[..|s| - 1]) + [s[|s| - 1]]
  }

  predicate IsNameChar(c: char) {
    'a' <= c <= 'z' || 'A' <= c <= 'Z' || '0' <= c <= '9' || c == '.' || c == '_' || c == '-'
  }

  /** A name that may be stored. */
  predicate IsSafeName(s: string) {
    s != "" && s[0] != '.' && forall i :: 0 <= i < |s| ==> IsNameChar(s[i])
  }

  /** sanitize_filename: the empty string stands for a refused name. */
  function Sanitize(filename: string): string {
    if IsSafeName(BaseName(filename)) then BaseName(filename) else ""
  }

  lemma {:induction false} BaseNameOfPlain(s: string)
    requires forall i :: 0 <= i < |s| ==> s[i] != '/' && s[i] != '\\'
    ensures BaseName(s) == s
  {
    if s != "" {
      BaseNameOfPlain(s[..|s| - 1]);
    }
  }

  /** Exactly the safe names are kept as they are; what comes out is safe or empty; once is enough. */
  lemma SanitizeFixes(filename: string)
    ensures filename != "" ==> (Sanitize(filename) == filename <==> IsSafeName(filename))
    ensures Sanitize(filename) == "" || IsSafeName(Sanitize(filename))
    ensures Sanitize(Sanitize(filename)) == Sanitize(filename)
  {
    if IsSafeName(filename) {
      BaseNameOfPlain(filename);
    }
    if IsSafeName(Sanitize(filename)) {
      BaseNameOfPlain(Sanitize(filename));
    }
  }

  lemma {:induction false} BaseNameBehind(directory: string, name: string)
    requires directory == "" || directory[|directory| - 1] in "/\\"
    requires forall i :: 0 <= i < |name| ==> name[i] != '/' && name[i] != '\\'
    ensures BaseName(directory + name) == name
    decreases |name|
  {
    if name == "" {
      assert directory + name == directory;
    } else {
      var n := |name| - 1;
      BaseNameBehind(directory, name[..n]);
      assert (directory + name)[..|directory + name| - 1] == directory + name[..n];
    }
  }

  /** Whatever directory stands in front of it, only the name behind the last slash of either kind counts. */
  lemma SanitizeDropsDirectory(directory: string, name: string)
    requires directory == "" || directory[|directory| - 1] in "/\\"
    requires forall i :: 0 <= i < |name| ==> name[i] != '/' && name[i] != '\\'
    ensures Sanitize(directory + name) == if IsSafeName(name) then name else ""
  {
    BaseNameBehind(directory, name);
  }

  /** The names that may be stored: not empty, no leading dot, and only letters, digits, '.', '_' and '-', by their codes. */
  lemma IsSafeNameIff(s: string)
    ensures IsSafeName(s)
       <==> && s != "" && s[0] as int != 46
            && forall i :: 0 <= i < |s| ==> var c := s[i] as int;
                 48 <= c <= 57 || 65 <= c <= 90 || 97 <= c <= 122 || c in {45, 46, 95}
  {
    if IsSafeName(s) {
      assert forall i :: 0 <= i < |s| ==> IsNameChar(s[i]);
    }
  }

  const UPLOAD := "/files/upload"
  const DOWNLOAD := "/files/download"
  const NAME := "name="

  /** The client's download path. */
  function DownloadPath(name: string): string { "/files/download?" + (NAME + name) }

  /** The server's `path.substr(path.find("name=") + 5)`. */
  function DownloadName(path: string): Option<string> {
    match Find(path, NAME)
    case None => None
    case Some(i) => Some(path[i + 5..])
  }

  lemma NameAt(s: string, j: nat)
    ensures OccursAt(s, NAME, j) ==> s[j] == 'n' && s[j + 1] == 'a'
  {
    if OccursAt(s, NAME, j) {
      var w := s[j..j + 5];
      assert w[0] == s[j] && w[1] == s[j + 1];
    }
  }

  lemma NameNotBefore(name: string, j: nat)
    requires j < 16
    ensures !OccursAt(DownloadPath(name), NAME, j)
  {
    var path, prefix := DownloadPath(name), "/files/download?";
    NameAt(path, j);
    assert path[j] == prefix[j] && path[11] == prefix[11];
    assert prefix[j] == 'n' ==> j == 10;
  }

  /** The name in a download path is read back, whatever it contains. */
  lemma DownloadNameRead(name: string)
    ensures DOWNLOAD <= DownloadPath(name) && DownloadName(DownloadPath(name)) == Some(name)
  {
    var path := DownloadPath(name);
    OccursAfter("/files/download?", NAME + name, NAME, 0);
    assert OccursAt(NAME + name, NAME, 0);
    forall j: nat | j < 16
      ensures !OccursAt(path, NAME, j)
    {
      NameNotBefore(name, j);
    }
    FindIs(path, NAME, 16);
    assert path[21..] == name;
  }

  lemma DownloadPathIsWord(name: string)
    requires forall i :: 0 <= i < |name| ==> !IsSpace(name[i])
    ensures IsWord(DownloadPath(name))
  {
    var prefix := "/files/download?" + NAME;
    assert DownloadPath(name) == prefix + name;
    assert forall i :: 0 <= i < |prefix| ==> !IsSpace(prefix[i]);
  }

  // ------------------------------------------------------------------- server

  type Storage = map<string, Bytes>

  /** The reply to an upload and the storage after it. */
  function Store(files: Storage, filename: string, content: Bytes): (Storage, Message) {
    var name := Sanitize(filename);
    if name == "" then (files, Failure("Invalid filename"))
    else (files[name := Base64.Decode(content)], Stored(name))
  }

  function Lookup(files: Storage, name: string): Message {
    if name in files then Content(Base64.Encode(files[name]), name) else Failure("File not found")
  }

  function Fetch(files: Storage, path: string): Message {
    match DownloadName(path)
    case None => Failure("No filename")
    case Some(name) => Lookup(files, name)
  }

  /** A closed connection, a printed response, or a request for a branch that is not modelled here. */
  datatype Reply = Closed | Answer(text: string) | Elsewhere

  function Answered(json: Json, message: Message): Reply {
    Answer(ResponseText(json.dump(message)))
  }

  /** handle_client on these two paths. */
  function Serve(json: Json, files: Storage, head: string, tail: string): (Storage, Reply) {
    match ServerParse(head, tail)
    case Dropped => (files, Closed)
    case Parsed(request) =>
      if request.verb == "GET" && DOWNLOAD <= request.path then
        (files, Answered(json, Fetch(files, request.path)))
      else if request.verb == "POST" && request.path == UPLOAD then
        match json.parse(request.body) {
          case Some(Upload(filename, content)) =>
            var (files', reply) := Store(files, filename, content);
            (files', Answered(json, reply))
          case _ => (files, Answered(json, Failure("Missing required fields")))
        }
      else (files, Elsewhere)
  }

  class FileServer {
    const json: Json
    var files: Storage

    constructor (json: Json)
      ensures this.json == json && files == map[]
    {
      this.json := json;
      files := map[];
    }

    method HandleRequest(head: string, tail: string) returns (response: Reply)
      modifies this
      ensures (files, response) == Serve(json, old(files), head, tail)
    {
      var parsed := HandleClient(head, tail);
      if parsed.Dropped? {
        return Closed;
      }
      var request := parsed.request;
      var reply;
      if request.verb == "GET" && DOWNLOAD <= request.path {
        reply := OnDownload(request.path);
      } else if request.verb == "POST" && request.path == UPLOAD {
        reply := OnUpload(request.body);
      } else {
        return Elsewhere;
      }
      return Answered(json, reply);
    }

    method OnUpload(body: string) returns (reply: Message)
      modifies this
      ensures match json.parse(body)
              case Some(Upload(filename, content)) => (files, reply) == Store(old(files), filename, content)
              case _ => files == old(files) && reply == Failure("Missing required fields")
    {
      var message := json.parse(body);
      if message.None? || !message.value.Upload? {
        return Failure("Missing required fields");
      }
      var name := Sanitize(message.value.filename);
      if name == "" {
        return Failure("Invalid filename");
      }
      var content := Base64.Base64Decode(message.value.content);
      files := files[name := content];
      return Stored(name);
    }

    method OnDownload(path: string) returns (reply: Message)
      ensures reply == Fetch(files, path)
    {
      var name := DownloadName(path);
      if name.None? {
        return Failure("No filename");
      }
      if name.value !in files {
        return Failure("File not found");
      }
      var encoded := Base64.Base64Encode(files[name.value]);
      return Content(encoded, name.value);
    }
  }

  // ------------------------------------------------------------------- client

  /** TaskManager::uploadFile's request. */
  function UploadText(json: Json, host: string, name: string, content: Bytes): string {
    PostText(UPLOAD, host, json.dump(Upload(name, Base64.Encode(content))))
  }

  /** TaskManager::downloadFile's request. */
  function DownloadText(host: string, name: string): string {
    GetText(DownloadPath(name), host)
  }

  /** What downloadFile writes; None when it returns false. */
  function Downloaded(json: Json, head: string, tail: string, clean: bool): Option<Bytes> {
    match json.parse(ClientReceive(head, tail, clean))
    case Some(Content(content, _)) => Some(Base64.Decode(content))
    case _ => None
  }

  method ReceiveDownload(json: Json, head: string, tail: string, clean: bool) returns (r: Option<Bytes>)
    ensures r == Downloaded(json, head, tail, clean)
  {
    var text := Receive(head, tail, clean);
    var message := json.parse(text);
    if message.None? || !message.value.Content? {
      return None;
    }
    var decoded := Base64.Base64Decode(message.value.content);
    return Some(decoded);
  }

  /** A stream cut somewhere behind its header block. */
  predicate CutBehindHeaders(text: string, head: string, tail: string) {
    text == head + tail && HeaderEnd(text).Some? && HeaderEnd(text).value <= |head|
  }

  // --------------------------------------------------------------- end to end

  /** However the upload request is cut, the server stores exactly the client's bytes, or refuses the name. */
  lemma UploadServed(json: Json, files: Storage, host: string, name: string, content: Bytes, head: string, tail: string)
    requires json.Faithful() && '\n' !in host
    requires |json.dump(Upload(name, Base64.Encode(content)))| <= ULONG_MAX
    requires CutBehindHeaders(UploadText(json, host, name, content), head, tail)
    ensures Serve(json, files, head, tail)
         == if Sanitize(name) == "" then (files, Answered(json, Failure("Invalid filename")))
            else (files[Sanitize(name) := content], Answered(json, Stored(Sanitize(name))))
  {
    var body := json.dump(Upload(name, Base64.Encode(content)));
    UploadIsWord();
    PostRoundTrip(UPLOAD, host, body, head, tail);
    Base64.RoundTrip(content);
  }

  lemma UploadIsWord()
    ensures IsWord(UPLOAD)
  {
  }

  /** A posted body that is no upload is refused, and stores nothing. */
  lemma NoUploadRefused(json: Json, files: Storage, host: string, body: string, head: string, tail: string)
    requires '\n' !in host && |body| <= ULONG_MAX
    requires CutBehindHeaders(PostText("/files/upload", host, body), head, tail)
    requires json.parse(body).None? || !json.parse(body).value.Upload?
    ensures Serve(json, files, head, tail) == (files, Answered(json, Failure("Missing required fields")))
  {
    UploadIsWord();
    PostRoundTrip(UPLOAD, host, body, head, tail);
  }

  /** A download path without "name=" names no file. */
  lemma NoNameRefused(json: Json, files: Storage, head: string, tail: string, path: string, body: string)
    requires ServerParse(head, tail) == Parsed(Request("GET", path, body)) && "/files/download" <= path
    requires forall j: nat :: !OccursAt(path, "name=", j)
    ensures Serve(json, files, head, tail) == (files, Answered(json, Failure("No filename")))
  {
  }

  /** Every other request goes to another branch, and touches no stored file here. */
  lemma OthersElsewhere(json: Json, files: Storage, head: string, tail: string, r: Request)
    requires ServerParse(head, tail) == Parsed(r)
    requires r.verb == "GET" ==> !("/files/download" <= r.path)
    requires r.verb == "POST" ==> r.path != "/files/upload"
    ensures Serve(json, files, head, tail) == (files, Elsewhere)
  {
  }

  /** What the client prints: the two requests with their paths. */
  lemma TransferTexts(json: Json, host: string, name: string, content: Bytes)
    ensures UploadText(json, host, name, content)
         == PostText("/files/upload", host, json.dump(Upload(name, Base64.Encode(content))))
    ensures DownloadText(host, name) == GetText("/files/download?" + ("name=" + name), host)
  {
  }

  predicate NoSpaces(s: string) {
    forall i :: 0 <= i < |s| ==> !IsSpace(s[i])
  }

  /** The path of a download request, as one word and what the first white space of the name cuts off. */
  lemma DownloadPathCut(name: string) returns (more: string)
    ensures DownloadPath(name) == DownloadPath(WordRun(name)) + more
    ensures IsWord(DownloadPath(WordRun(name))) && (more == "" || IsSpace(more[0]))
    ensures WordRun(name) == name <==> NoSpaces(name)
  {
    var word := WordRun(name);
    more := name[|word|..];
    DownloadPathIsWord(word);
    assert name == word + more;
    Reassociate("/files/download?", NAME, word, more);
  }

  lemma Reassociate(a: string, b: string, c: string, d: string)
    ensures a + (b + (c + d)) == a + (b + c) + d
  {
  }

  /** The server looks up the asked name up to its first white space. */
  lemma DownloadNameSeen(host: string, name: string, head: string, tail: string, later: string)
    requires CutBehindHeaders(DownloadText(host, name), head, tail)
    ensures match ServerParse(head, tail + later)
            case Dropped => true
            case Parsed(request) => && request.verb == "GET" && DOWNLOAD <= request.path
                                    && DownloadName(request.path) == Some(WordRun(name))
  {
    var more := DownloadPathCut(name);
    GetPathCut(DownloadPath(WordRun(name)), more, host, head, tail, tail + later);
    DownloadNameRead(WordRun(name));
  }

  /** So exactly the names without white space arrive as they were asked for. */
  lemma DownloadNameFaithfulIff(host: string, name: string, head: string, tail: string, later: string)
    requires '\n' !in host && CutBehindHeaders(DownloadText(host, name), head, tail)
    ensures (match ServerParse(head, tail + later)
             case Dropped => false
             case Parsed(request) => DownloadName(request.path) == Some(name))
            <==> NoSpaces(name)
  {
    DownloadNameSeen(host, name, head, tail, later);
    var _ := DownloadPathCut(name);
    if NoSpaces(name) {
      DownloadPathIsWord(name);
      GetFaithfulIff(DownloadPath(name), host, head, tail, later);
    }
  }

  /**
   However the download request is cut, the server changes nothing and, unless it
   drops the request, answers with what it has under the name it sees; a name
   without white space is seen as it is, and not dropped.
   */
  lemma DownloadServed(json: Json, files: Storage, host: string, name: string, head: string, tail: string, later: string)
    requires CutBehindHeaders(DownloadText(host, name), head, tail)
    ensures var seen := WordRun(name);
            Serve(json, files, head, tail + later)
            == (files, if ServerParse(head, tail + later).Dropped? then Closed
                       else if seen in files then Answered(json, Content(Base64.Encode(files[seen]), seen))
                       else Answered(json, Failure("File not found")))
    ensures NoSpaces(name) && '\n' !in host ==>
      Serve(json, files, head, tail + later)
      == (files, if name in files then Answered(json, Content(Base64.Encode(files[name]), name))
                 else Answered(json, Failure("File not found")))
  {
    DownloadNameSeen(host, name, head, tail, later);
    if NoSpaces(name) && '\n' !in host {
      DownloadNameFaithfulIff(host, name, head, tail, later);
    }
  }

  /** The client gets a stored file's bytes exactly when a body byte came with the headers and no error cut the rest off. */
  lemma DownloadRecoveredIff(json: Json, bytes: Bytes, name: string, head: string, tail: string, clean: bool)
    requires json.Faithful()
    requires CutBehindHeaders(ResponseText(json.dump(Content(Base64.Encode(bytes), name))), head, tail)
    ensures Downloaded(json, head, tail, clean) == Some(bytes) <==>
            HeaderEnd(head + tail).value < |head| && (clean || tail == "")
    ensures Downloaded(json, head, tail, clean) in {Some(bytes), None}
  {
    var message := Content(Base64.Encode(bytes), name);
    var body := json.dump(message);
    assert json.parse(body) == Some(message);
    ResponseReceived(body, head, tail, clean);
    Base64.RoundTrip(bytes);
    if tail == "" {
      assert body[..|body| - |tail|] == body;
    }
  }

  /**
   Upload, then download: for every safe name and every content, however the streams
   are cut, the file is stored and no other file changes; and the client gets its
   bytes back exactly when a body byte of the reply comes with its headers and no
   error cuts the rest off.
   */
  lemma UploadThenDownload(
    json: Json, files: Storage, host: string, name: string, content: Bytes, head: string, tail: string,
    getHead: string, getTail: string, later: string, responseHead: string, responseTail: string, clean: bool)
    requires json.Faithful() && '\n' !in host && IsSafeName(name)
    requires |json.dump(Upload(name, Base64.Encode(content)))| <= ULONG_MAX
    requires CutBehindHeaders(UploadText(json, host, name, content), head, tail)
    requires CutBehindHeaders(DownloadText(host, name), getHead, getTail)
    ensures var stored := Serve(json, files, head, tail).0;
            var (kept, response) := Serve(json, stored, getHead, getTail + later);
            && stored == files[name := content] && kept == stored
            && response.Answer?
            && (CutBehindHeaders(response.text, responseHead, responseTail) ==>
                  (Downloaded(json, responseHead, responseTail, clean) == Some(content)
                   <==> HeaderEnd(response.text).value < |responseHead| && (clean || responseTail == "")))
  {
    SanitizeFixes(name);
    UploadServed(json, files, host, name, content, head, tail);
    var stored := files[name := content];
    DownloadServed(json, stored, host, name, getHead, getTail, later);
    if CutBehindHeaders(ResponseText(json.dump(Content(Base64.Encode(content), name))), responseHead, responseTail) {
      DownloadRecoveredIff(json, content, name, responseHead, responseTail, clean);
    }
  }
}
