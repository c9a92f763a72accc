/**
 runTask, the body of a server's worker thread: a `cd` changes the recorded
 directory, anything else is run through a pipe whose output is stored and
 streamed chunk by chunk.
 */
module Worker {
  import opened Text

  /** The messages given to broadcast_ws; Notice stands for those that belong to no task. */
  datatype Event =
    | DirChange(id: string, directory: string)
    | TaskStart(id: string, command: string, directory: string)
    | TaskOutput(id: string, chunk: string, directory: string)
    | TaskComplete(id: string, exitCode: int)
    | Notice(text: string)

  /** The directory every task starts in. */
  const START_DIR := "/root"
  const BUFFER := 128

  /** What the operating system makes of a command. */
  datatype Launch = ChangeDir | PopenFails | Pipe(content: string, status: int)

  /** The command starts with "cd ". */
  predicate IsCd(command: string) {
    |command| >= 3 && command[0] == 'c' && command[1] == 'd' && command[2] == ' '
  }

  lemma IsCdIff(command: string)
    ensures IsCd(command) <==> "cd " <= command
  {
  }

  /** Where a task starts, and $HOME. */
  datatype Dirs = Dirs(start: string, home: string)

  /** A `cd` never reaches popen, and everything else does. */
  predicate Fits(command: string, launch: Launch) {
    launch.ChangeDir? <==> IsCd(command)
  }

  function TrimRight(s: string): string {
    if s != "" && IsSpace(s[|s| - 1]) then TrimRight(s[..|s| - 1]) else s
  }

  /** The directory a `cd` command records. */
  function CdTarget(command: string, dirs: Dirs): string
    requires IsCd(command)
  {
    var dir := TrimRight(SkipSpace(command[3..]));
    if dir == "~" || "~/" <= dir then dirs.home + dir[1..]
    else if dir == "" || dir[0] != '/' then dirs.start + "/" + dir
    else dir
  }

  predicate Blank(s: string) {
    forall i :: 0 <= i < |s| ==> IsSpace(s[i])
  }

  /** No white space at either end. */
  predicate Trimmed(s: string) {
    s != "" ==> !IsSpace(s[0]) && !IsSpace(s[|s| - 1])
  }

  lemma {:induction false} SkipBlank(blank: string, s: string)
    requires Blank(blank) && (s != "" ==> !IsSpace(s[0]))
    ensures SkipSpace(blank + s) == s
  {
    if blank == "" {
      assert blank + s == s;
    } else {
      assert (blank + s)[1..] == blank[1..] + s;
      SkipBlank(blank[1..], s);
    }
  }

  lemma {:induction false} TrimBlank(s: string, blank: string)
    requires Blank(blank) && (s != "" ==> !IsSpace(s[|s| - 1]))
    ensures TrimRight(s + blank) == s
  {
    if blank == "" {
      assert s + blank == s;
    } else {
      assert (s + blank)[..|s + blank| - 1] == s + blank[..|blank| - 1];
      TrimBlank(s, blank[..|blank| - 1]);
    }
  }

  lemma AllBlank(blank: string)
    requires Blank(blank)
    ensures SkipSpace(blank) == ""
  {
    SkipBlank(blank, "");
    assert blank + "" == blank;
  }

  /**
   Where `cd` goes, whatever white space stands around its argument: to the home
   directory, below it, to an absolute path, or below the current directory.
   */
  lemma CdGoes(before: string, dir: string, after: string, dirs: Dirs)
    requires Blank(before) && Blank(after) && Trimmed(dir)
    ensures IsCd("cd " + (before + (dir + after)))
    ensures CdTarget("cd " + (before + (dir + after)), dirs)
         == if dir == "~" then dirs.home
            else if "~/" <= dir then dirs.home + dir[1..]
            else if "/" <= dir then dir
            else dirs.start + "/" + dir
  {
    var command := "cd " + (before + (dir + after));
    IsCdIff(command);
    assert command[3..] == before + (dir + after);
    if dir == "" {
      assert Blank(before + (dir + after));
      AllBlank(before + (dir + after));
    } else {
      SkipBlank(before, dir + after);
      TrimBlank(dir, after);
    }
    if dir == "~" {
      assert dirs.home + dir[1..] == dirs.home;
    }
  }

  // -------------------------------------------------------------------- fgets

  /** fgets(buffer, 128, pipe): up to 127 characters, through the first newline. */
  function Chunk(pipe: string): (c: string)
    requires pipe != ""
    ensures 0 < |c| < BUFFER && |c| <= |pipe| && c == pipe[..|c|]
  {
    pipe[..ChunkSize(|pipe|, IndexOfChar(pipe, '\n') + 1)]
  }

  /** The smallest of: what there is, the characters up to the newline, the room in the buffer. */
  function ChunkSize(length: nat, line: nat): (n: nat)
    requires length > 0 && line > 0
    ensures 0 < n < BUFFER && n <= length
  {
    if line <= length && line < BUFFER then line else if length < BUFFER then length else BUFFER - 1
  }

  /** A chunk breaks off at a newline, at 127 characters or at the end of the pipe, whichever comes first. */
  lemma ChunkIs(pipe: string)
    requires pipe != ""
    ensures var c := Chunk(pipe);
            && 1 <= |c| <= 127 && '\n' !in c[..|c| - 1]
            && (|c| == |pipe| || |c| == 127 || c[|c| - 1] == '\n')
  {
    var c, i := Chunk(pipe), IndexOfChar(pipe, '\n');
    assert c[..|c| - 1] == pipe[..|c| - 1] && |c| - 1 <= i;
    assert forall k :: 0 <= k < |c| - 1 ==> pipe[k] == pipe[..i][k];
  }

  function Chunks(pipe: string): seq<string> {
    if pipe == "" then [] else [Chunk(pipe)] + Chunks(pipe[|Chunk(pipe)|..])
  }

  function Concat(chunks: seq<string>): string {
    if chunks == [] then "" else chunks[0] + Concat(chunks[1..])
  }

  lemma {:induction false} ConcatStart(chunk: string, rest: seq<string>)
    ensures Concat([chunk] + rest) == chunk + Concat(rest)
  {
    assert ([chunk] + rest)[1..] == rest;
  }

  /** Cutting a stream into chunks loses nothing. */
  lemma {:induction false} ChunksKeepContent(pipe: string)
    ensures Concat(Chunks(pipe)) == pipe
  {
    if pipe != "" {
      var c := Chunk(pipe);
      ChunksKeepContent(pipe[|c|..]);
      ChunksStart(pipe);
      ConcatStart(c, Chunks(pipe[|c|..]));
      Rejoin(pipe, |c|);
    }
  }

  // -------------------------------------------------------------------- UTF-8

  predicate InRange(s: string, i: nat, low: int, high: int) {
    i < |s| && low <= s[i] as int <= high
  }

  /** How many bytes the UTF-8 character at the start has, by section 4 of RFC 3629; 0 if there is none. */
  function Utf8Length(s: string): (n: nat)
    ensures n <= |s|
  {
    if InRange(s, 0, 0x00, 0x7F) then 1
    else if InRange(s, 0, 0xC2, 0xDF) then if InRange(s, 1, 0x80, 0xBF) then 2 else 0
    else if InRange(s, 0, 0xE0, 0xEF) then if SecondOfThree(s) && InRange(s, 2, 0x80, 0xBF) then 3 else 0
    else if InRange(s, 0, 0xF0, 0xF4) then
      if SecondOfFour(s) && InRange(s, 2, 0x80, 0xBF) && InRange(s, 3, 0x80, 0xBF) then 4 else 0
    else 0
  }

  predicate SecondOfThree(s: string)
    requires s != ""
  {
    InRange(s, 1, if s[0] as int == 0xE0 then 0xA0 else 0x80, if s[0] as int == 0xED then 0x9F else 0xBF)
  }

  predicate SecondOfFour(s: string)
    requires s != ""
  {
    InRange(s, 1, if s[0] as int == 0xF0 then 0x90 else 0x80, if s[0] as int == 0xF4 then 0x8F else 0xBF)
  }

  // Section 3 of RFC 3629: how a character number is spread over bytes.

  predicate ScalarValue(code: nat) {
    code < 0xD800 || 0xE000 <= code < 0x11_0000
  }

  function Byte(value: nat): (c: char)
    requires value < 256
    ensures c as int == value
  {
    value as char
  }

  function EncodeCharacter(code: nat): (s: string)
    requires ScalarValue(code)
    ensures 1 <= |s| <= 4
  {
    if code < 0x80 then [Byte(code)]
    else if code < 0x800 then [Byte(0xC0 + code / 64), Byte(0x80 + code % 64)]
    else if code < 0x1_0000 then [Byte(0xE0 + code / 64 / 64), Byte(0x80 + code / 64 % 64), Byte(0x80 + code % 64)]
    else [Byte(0xF0 + code / 64 / 64 / 64), Byte(0x80 + code / 64 / 64 % 64), Byte(0x80 + code / 64 % 64), Byte(0x80 + code % 64)]
  }

  /** The text starts with this character. */
  predicate StartsWith(s: string, code: nat)
    requires ScalarValue(code)
  {
    EncodeCharacter(code) <= s
  }

  lemma EncodedLength(s: string, code: nat)
    requires ScalarValue(code) && StartsWith(s, code)
    ensures Utf8Length(s) == |EncodeCharacter(code)|
  {
    var e := EncodeCharacter(code);
    assert forall i :: 0 <= i < |e| ==> s[i] == e[i];
    assert s[0] == e[0];
    if code >= 0x80 {
      assert s[1] == e[1];
      if code >= 0x800 {
        assert s[2] == e[2];
        if code >= 0x1_0000 {
          assert s[3] == e[3];
        }
      }
    }
  }

  lemma Sixtyfourths(high: nat, low: nat)
    requires low < 64
    ensures (high * 64 + low) / 64 == high && (high * 64 + low) % 64 == low
  {
  }

  /** The number of the character at the start. */
  function CodeAt(s: string): nat
    requires Utf8Length(s) > 0
  {
    match Utf8Length(s)
    case 1 => s[0] as int
    case 2 => (s[0] as int - 0xC0) * 64 + (s[1] as int - 0x80)
    case 3 => ((s[0] as int - 0xE0) * 64 + (s[1] as int - 0x80)) * 64 + (s[2] as int - 0x80)
    case _ =>
      (((s[0] as int - 0xF0) * 64 + (s[1] as int - 0x80)) * 64 + (s[2] as int - 0x80)) * 64 + (s[3] as int - 0x80)
  }

  lemma DecodedTwo(s: string)
    requires Utf8Length(s) == 2
    ensures ScalarValue(CodeAt(s)) && EncodeCharacter(CodeAt(s)) == s[..2]
  {
    Sixtyfourths(s[0] as int - 0xC0, s[1] as int - 0x80);
  }

  lemma DecodedThree(s: string)
    requires Utf8Length(s) == 3
    ensures ScalarValue(CodeAt(s)) && EncodeCharacter(CodeAt(s)) == s[..3]
  {
    var high := (s[0] as int - 0xE0) * 64 + (s[1] as int - 0x80);
    Sixtyfourths(s[0] as int - 0xE0, s[1] as int - 0x80);
    Sixtyfourths(high, s[2] as int - 0x80);
  }

  lemma DecodedFour(s: string)
    requires Utf8Length(s) == 4
    ensures ScalarValue(CodeAt(s)) && EncodeCharacter(CodeAt(s)) == s[..4]
  {
    var high := (s[0] as int - 0xF0) * 64 + (s[1] as int - 0x80);
    var middle := high * 64 + (s[2] as int - 0x80);
    Sixtyfourths(s[0] as int - 0xF0, s[1] as int - 0x80);
    Sixtyfourths(high, s[2] as int - 0x80);
    Sixtyfourths(middle, s[3] as int - 0x80);
  }

  lemma DecodedCharacter(s: string)
    requires Utf8Length(s) > 0
    ensures ScalarValue(CodeAt(s)) && EncodeCharacter(CodeAt(s)) == s[..Utf8Length(s)]
  {
    match Utf8Length(s)
    case 1 =>
    case 2 => DecodedTwo(s);
    case 3 => DecodedThree(s);
    case _ => DecodedFour(s);
  }

  /** There is a character at the start exactly when it is the encoding of a character number. */
  lemma CharacterIff(s: string)
    ensures Utf8Length(s) > 0 <==> exists code: nat :: ScalarValue(code) && StartsWith(s, code)
  {
    if Utf8Length(s) > 0 {
      DecodedCharacter(s);
      assert StartsWith(s, CodeAt(s));
    }
    forall code: nat | ScalarValue(code) && StartsWith(s, code)
      ensures Utf8Length(s) > 0
    {
      EncodedLength(s, code);
    }
  }

  /** What json::dump accepts; it throws on anything else. */
  predicate Utf8(s: string) {
    s == "" || (Utf8Length(s) > 0 && Utf8(s[Utf8Length(s)..]))
  }

  predicate AllUtf8(chunks: seq<string>) {
    forall i :: 0 <= i < |chunks| ==> Utf8(chunks[i])
  }

  /** The chunks of a pipe that are sent: those before the first that cannot be dumped. */
  function SentChunks(pipe: string): seq<string> {
    if pipe == "" || !Utf8(Chunk(pipe)) then [] else [Chunk(pipe)] + SentChunks(pipe[|Chunk(pipe)|..])
  }

  /** What is stored of a pipe: all of it, or up to and with the first chunk that cannot be dumped. */
  function StoredText(pipe: string): string {
    if pipe == "" then ""
    else if !Utf8(Chunk(pipe)) then Chunk(pipe)
    else Chunk(pipe) + StoredText(pipe[|Chunk(pipe)|..])
  }

  /** Every chunk can be dumped, so everything is sent and stored. */
  lemma {:induction false} AllSent(pipe: string)
    requires AllUtf8(Chunks(pipe))
    ensures SentChunks(pipe) == Chunks(pipe) && StoredText(pipe) == pipe
    decreases |pipe|
  {
    if pipe != "" {
      var c, rest := Chunk(pipe), pipe[|Chunk(pipe)|..];
      ChunksStart(pipe);
      FirstUtf8(c, Chunks(rest));
      AllSent(rest);
      Rejoin(pipe, |c|);
    }
  }

  /** The first chunk that cannot is stored, and the last. */
  lemma {:induction false} SentUpTo(pipe: string)
    requires !AllUtf8(Chunks(pipe))
    ensures var sent, chunks := SentChunks(pipe), Chunks(pipe);
            && sent < chunks && AllUtf8(sent) && !Utf8(chunks[|sent|])
            && StoredText(pipe) == Concat(sent) + chunks[|sent|]
    decreases |pipe|
  {
    var c, rest := Chunk(pipe), pipe[|Chunk(pipe)|..];
    ChunksStart(pipe);
    FirstUtf8(c, Chunks(rest));
    if Utf8(c) {
      SentUpTo(rest);
      ConcatStart(c, SentChunks(rest));
      Associate(c, Concat(SentChunks(rest)), Chunks(rest)[|SentChunks(rest)|]);
    } else {
      assert "" + c == c;
    }
  }

  lemma FirstUtf8(chunk: string, rest: seq<string>)
    ensures AllUtf8([chunk] + rest) <==> Utf8(chunk) && AllUtf8(rest)
  {
    var all := [chunk] + rest;
    assert all[0] == chunk && forall i :: 0 <= i < |rest| ==> all[i + 1] == rest[i];
    assert forall i :: 0 < i < |all| ==> all[i] == rest[i - 1];
  }

  lemma Utf8LengthConcat(a: string, b: string)
    requires Utf8Length(a) > 0
    ensures Utf8Length(a + b) == Utf8Length(a)
  {
    assert forall i :: 0 <= i < |a| ==> (a + b)[i] == a[i];
  }

  lemma {:induction false} Utf8Concat(a: string, b: string)
    requires Utf8(a)
    ensures Utf8(a + b) <==> Utf8(b)
    decreases |a|
  {
    if a == "" {
      assert a + b == b;
    } else {
      var n := Utf8Length(a);
      Utf8LengthConcat(a, b);
      assert (a + b)[n..] == a[n..] + b;
      Utf8Concat(a[n..], b);
    }
  }

  /** Only the output of a process that writes UTF-8 can be sent to its end. */
  lemma {:induction false} SentIsUtf8(pipe: string)
    requires AllUtf8(Chunks(pipe))
    ensures Utf8(pipe)
    decreases |pipe|
  {
    if pipe != "" {
      var c, rest := Chunk(pipe), pipe[|Chunk(pipe)|..];
      ChunksStart(pipe);
      FirstUtf8(c, Chunks(rest));
      SentIsUtf8(rest);
      Utf8Concat(c, rest);
      Rejoin(pipe, |c|);
    }
  }

  predicate Ascii(s: string) {
    forall i :: 0 <= i < |s| ==> s[i] as int < 0x80
  }

  lemma {:induction false} AsciiIsUtf8(s: string)
    requires Ascii(s)
    ensures Utf8(s)
  {
    if s != "" {
      AsciiIsUtf8(s[1..]);
    }
  }

  /** Plain ASCII output always can. */
  lemma {:induction false} AsciiSendable(pipe: string)
    requires Ascii(pipe)
    ensures AllUtf8(Chunks(pipe))
    decreases |pipe|
  {
    if pipe != "" {
      ChunksStart(pipe);
      FirstUtf8(Chunk(pipe), Chunks(pipe[|Chunk(pipe)|..]));
      AsciiIsUtf8(Chunk(pipe));
      AsciiSendable(pipe[|Chunk(pipe)|..]);
    }
  }

  /** UTF-8 output need not: a character that straddles byte 127 of a line is cut, and neither half can be sent. */
  lemma CutInsideCharacter(line: string, first: char, second: char)
    requires |line| == 126 && Ascii(line) && '\n' !in line
    requires 0xC2 <= first as int <= 0xDF && 0x80 <= second as int <= 0xBF
    ensures Utf8(line + [first, second])
    ensures Chunk(line + [first, second]) == line + [first] && !Utf8(line + [first])
    ensures !AllUtf8(Chunks(line + [first, second]))
  {
    var pipe := line + [first, second];
    AsciiIsUtf8(line);
    Utf8Concat(line, [first, second]);
    Utf8Concat(line, [first]);
    OneCharacter(first, second);
    assert IndexOfChar(pipe, '\n') == |pipe| by { assert forall i :: 0 <= i < |pipe| ==> pipe[i] != '\n'; }
    assert pipe[..BUFFER - 1] == line + [first];
    ChunksStart(pipe);
    assert Chunks(pipe)[0] == Chunk(pipe);
  }

  lemma OneCharacter(first: char, second: char)
    requires 0xC2 <= first as int <= 0xDF && 0x80 <= second as int <= 0xBF
    ensures Utf8([first, second]) && !Utf8([first])
  {
    assert [first, second][2..] == "";
  }

  // -------------------------------------------------------------------- trace

  function Outputs(id: string, dir: string, chunks: seq<string>): (events: seq<Event>)
    ensures |events| == |chunks|
    ensures forall i :: 0 <= i < |events| ==> events[i] == TaskOutput(id, chunks[i], dir)
  {
    seq(|chunks|, i requires 0 <= i < |chunks| => TaskOutput(id, chunks[i], dir))
  }

  /** Everything a task broadcasts, start to finish. */
  function FullTrace(id: string, command: string, dirs: Dirs, launch: Launch): seq<Event>
    requires Fits(command, launch)
  {
    match launch
    case ChangeDir => [DirChange(id, CdTarget(command, dirs)), TaskComplete(id, 0)]
    case PopenFails => [TaskComplete(id, -1)]
    case Pipe(content, status) =>
      [TaskStart(id, command, dirs.start)] + Outputs(id, dirs.start, Chunks(content)) + [TaskComplete(id, status)]
  }

  /** A server's Task: the fields its worker thread updates. */
  class Task {
    const id: string
    const command: string
    var output: string
    var currentDir: string
    var running: bool

    constructor (id: string, command: string)
      ensures this.id == id && this.command == command
      ensures output == "" && currentDir == START_DIR && running
    {
      this.id, this.command := id, command;
      output, currentDir, running := "", START_DIR, true;
    }
  }

  /** The messages broadcast so far. */
  class Broadcaster {
    var log: seq<Event>

    constructor ()
      ensures log == []
    {
      log := [];
    }

    method Broadcast(e: Event)
      modifies this
      ensures log == old(log) + [e]
    {
      log := log + [e];
    }
  }

  /**
   Runs a task. An output chunk that is not UTF-8 is stored, but its message cannot be
   dumped: the exception ends the thread and with it the server.
   */
  method RunTask(t: Task, ws: Broadcaster, home: string, launch: Launch) returns (alive: bool)
    requires Fits(t.command, launch)
    requires t.output == "" && t.running
    modifies t, ws
    ensures alive <==> launch.Pipe? ==> AllUtf8(Chunks(launch.content))
    ensures alive ==> ws.log == old(ws.log) + FullTrace(t.id, t.command, Dirs(old(t.currentDir), home), launch)
    ensures alive ==> !t.running && t.output == if launch.Pipe? then launch.content else ""
    ensures !alive ==>
      && ws.log == old(ws.log) + [TaskStart(t.id, t.command, old(t.currentDir))]
                   + Outputs(t.id, old(t.currentDir), SentChunks(launch.content))
      && t.running && t.output == StoredText(launch.content)
    ensures t.currentDir ==
            if IsCd(t.command) then CdTarget(t.command, Dirs(old(t.currentDir), home)) else old(t.currentDir)
  {
    if IsCd(t.command) {
      t.currentDir := CdTarget(t.command, Dirs(t.currentDir, home));
      t.running := false;
      TwoLogged(ws.log, DirChange(t.id, t.currentDir), TaskComplete(t.id, 0));
      ws.Broadcast(DirChange(t.id, t.currentDir));
      ws.Broadcast(TaskComplete(t.id, 0));
      return true;
    }
    if launch.PopenFails? {
      t.running := false;
      ws.Broadcast(TaskComplete(t.id, -1));
      return true;
    }
    ThreeLogged(ws.log, TaskStart(t.id, t.command, t.currentDir), Outputs(t.id, t.currentDir, Chunks(launch.content)),
                TaskComplete(t.id, launch.status));
    ws.Broadcast(TaskStart(t.id, t.command, t.currentDir));
    alive := StreamPipe(t, ws, launch.content);
    if !alive {
      return;
    }
    AllSent(launch.content);
    t.running := false;
    ws.Broadcast(TaskComplete(t.id, launch.status));
  }

  /** `while (fgets(...))`: store the chunk, then broadcast it, up to a chunk that cannot be dumped. */
  method StreamPipe(t: Task, ws: Broadcaster, content: string) returns (alive: bool)
    modifies t`output, ws
    ensures alive <==> AllUtf8(Chunks(content))
    ensures ws.log == old(ws.log) + Outputs(t.id, t.currentDir, SentChunks(content))
    ensures t.output == old(t.output) + StoredText(content)
  {
    var pipe := content;
    ghost var sent: seq<string> := [];
    while pipe != ""
      invariant AllUtf8(Chunks(pipe)) <==> AllUtf8(Chunks(content))
      invariant sent + SentChunks(pipe) == SentChunks(content)
      invariant ws.log == old(ws.log) + Outputs(t.id, t.currentDir, sent)
      invariant t.output + StoredText(pipe) == old(t.output) + StoredText(content)
      decreases |pipe|
    {
      var chunk := Chunk(pipe);
      ChunkTaken(pipe, sent, t.output);
      OutputsAppend(old(ws.log), t.id, t.currentDir, sent, chunk);
      var dumped := SendChunk(t, ws, chunk);
      if !dumped {
        return false;
      }
      sent := sent + [chunk];
      pipe := pipe[|chunk|..];
    }
    return true;
  }

  /** One round: the chunk is stored; then it is broadcast, or dump throws. */
  method SendChunk(t: Task, ws: Broadcaster, chunk: string) returns (dumped: bool)
    modifies t`output, ws
    ensures dumped == Utf8(chunk) && t.output == old(t.output) + chunk
    ensures ws.log == if dumped then old(ws.log) + [TaskOutput(t.id, chunk, t.currentDir)] else old(ws.log)
  {
    t.output := t.output + chunk;
    dumped := Utf8(chunk);
    if dumped {
      ws.Broadcast(TaskOutput(t.id, chunk, t.currentDir));
    }
  }

  /** What one round does to what is sent, what is stored and what can be dumped. */
  lemma {:induction false} ChunkTaken(pipe: string, sent: seq<string>, output: string)
    requires pipe != ""
    ensures var chunk, rest := Chunk(pipe), pipe[|Chunk(pipe)|..];
            && (AllUtf8(Chunks(pipe)) <==> Utf8(chunk) && AllUtf8(Chunks(rest)))
            && (Utf8(chunk) ==> sent + SentChunks(pipe) == sent + [chunk] + SentChunks(rest))
            && (Utf8(chunk) ==> output + StoredText(pipe) == output + chunk + StoredText(rest))
            && (!Utf8(chunk) ==> sent + SentChunks(pipe) == sent && StoredText(pipe) == chunk)
  {
    var chunk, rest := Chunk(pipe), pipe[|Chunk(pipe)|..];
    ChunksStart(pipe);
    FirstUtf8(chunk, Chunks(rest));
    if Utf8(chunk) {
      Associate(sent, [chunk], SentChunks(rest));
      Associate(output, chunk, StoredText(rest));
    }
  }

  lemma OutputsAppend(log: seq<Event>, id: string, dir: string, chunks: seq<string>, chunk: string)
    ensures log + Outputs(id, dir, chunks + [chunk]) == log + Outputs(id, dir, chunks) + [TaskOutput(id, chunk, dir)]
  {
  }

  lemma {:induction false} ChunksStart(pipe: string)
    requires pipe != ""
    ensures Chunks(pipe) == [Chunk(pipe)] + Chunks(pipe[|Chunk(pipe)|..])
  {
  }

  lemma Rejoin(s: string, n: nat)
    requires n <= |s|
    ensures s[..n] + s[n..] == s
  {
  }

  lemma ThreeLogged(log: seq<Event>, first: Event, middle: seq<Event>, last: Event)
    ensures log + [first] + middle + [last] == log + ([first] + middle + [last])
  {
  }

  lemma TwoLogged(log: seq<Event>, first: Event, last: Event)
    ensures log + [first] + [last] == log + [first, last]
  {
  }

  lemma Associate<T>(a: seq<T>, b: seq<T>, c: seq<T>)
    ensures a + b + c == a + (b + c)
  {
  }
}
