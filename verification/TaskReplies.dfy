/**
 What a server's reply to /tasks becomes on its way: printed, cut, perhaps broken
 off, received, parsed; and what that means for a refresh, for the key that asks
 for one, and for the main loop that polls in every round.
 */
module TaskReplies {
  import opened Text
  import opened Http
  import C = TaskManager
  import Ui

  /** A row as the server prints it. */
  datatype Row = Row(entry: C.Entry, command: string)

  function EntriesOf(rows: seq<Row>): seq<C.Entry> {
    seq(|rows|, i requires 0 <= i < |rows| => rows[i].entry)
  }

  /** The JSON library on /tasks: dump on the server, parse and the reading of the rows on the client. */
  datatype Json = Json(dump: seq<Row> -> string, parse: string -> C.Reply) {
    /**
     Parsing undoes dumping; neither an empty text nor an array that breaks off is
     JSON; and the "{}" that stands in for an unreachable server has no rows.
     */
    ghost predicate Faithful() {
      && (forall rows :: parse(dump(rows)) == C.Entries(EntriesOf(rows)))
      && (forall rows, n: nat :: n < |dump(rows)| ==> parse(dump(rows)[..n]) == C.Malformed)
      && parse("") == C.Malformed && parse("{}") == C.Entries([])
    }
  }

  /** What the client gets of a reply: nothing, as it cannot connect, or a stream that may break off. */
  datatype Delivery = Unreachable | Stream(arrived: string, later: string, clean: bool)

  /** A stream of this text: read_until goes on to the blank line or to the end. */
  predicate Carries(d: Delivery, text: string) {
    d.Stream? ==> d.arrived + d.later <= text && (HeaderEnd(d.arrived).Some? || d.later == "")
  }

  /** A body byte came with the headers, and all the rest before the end of the stream or an error. */
  predicate Whole(d: Delivery, text: string) {
    d.Stream? ==>
      && HeaderEnd(text).Some? && HeaderEnd(text).value < |d.arrived|
      && (d.arrived == text || (d.clean && d.arrived + d.later == text))
  }

  function Received(d: Delivery): string {
    if d.Unreachable? then "{}" else ClientReceive(d.arrived, d.later, d.clean)
  }

  /** Where the body of a printed response starts. */
  function BodyStart(body: string): nat {
    |Block(ResponseLines(|body|), "")|
  }

  lemma ResponseParts(body: string)
    ensures ResponseText(body) == Block(ResponseLines(|body|), "") + body
    ensures HeaderEnd(ResponseText(body)) == Some(BodyStart(body))
  {
    ResponseHeaderEnd(body);
    BlockSplit(ResponseLines(|body|), body);
  }

  lemma NoBodyArrived(lines: seq<string>, body: string, arrived: string, later: string)
    requires forall i :: 0 <= i < |lines| ==> PlainLine(lines[i])
    requires arrived + later <= Block(lines, "") + body && |arrived| <= |Block(lines, "")|
    ensures AfterHeaders(arrived) == ""
  {
    Prefixes(Block(lines, ""), body, arrived, later);
    HeadersBrokenOff(lines, arrived);
  }

  lemma SomeBodyArrived(lines: seq<string>, body: string, arrived: string, later: string)
    requires forall i :: 0 <= i < |lines| ==> PlainLine(lines[i])
    requires arrived + later <= Block(lines, "") + body && |arrived| > |Block(lines, "")|
    ensures var first := AfterHeaders(arrived);
            && first != "" && first + later <= body
            && (first == body <==> arrived == Block(lines, "") + body)
            && (first + later == body <==> arrived + later == Block(lines, "") + body)
  {
    PartArrived(Block(lines, ""), body, arrived, later);
    var part := body[..|arrived| - |Block(lines, "")|];
    BlockSplit(lines, part);
    BlockSkipped(lines, part);
  }

  /** What is left of a response that may have broken off: nothing, or the first so many bytes of its body. */
  lemma BrokenResponse(body: string, d: Delivery)
    requires d.Stream? && Carries(d, ResponseText(body))
    ensures Received(d) <= body
    ensures body != "" ==> (Received(d) == body <==> Whole(d, ResponseText(body)))
  {
    var lines := ResponseLines(|body|);
    ResponseParts(body);
    PlainResponseLines(|body|);
    if |d.arrived| <= BodyStart(body) {
      NoBodyArrived(lines, body, d.arrived, d.later);
    } else {
      SomeBodyArrived(lines, body, d.arrived, d.later);
      FirstOfMore(AfterHeaders(d.arrived), d.later, body);
    }
  }

  lemma FirstOfMore(first: string, later: string, body: string)
    requires first + later <= body
    ensures first <= body
    ensures first == body ==> first + later == body
  {
    assert first == (first + later)[..|first|] == body[..|first|];
  }

  lemma Prefixes(header: string, body: string, arrived: string, later: string)
    requires arrived + later <= header + body && |arrived| <= |header|
    ensures arrived <= header
  {
    assert arrived == (arrived + later)[..|arrived|] == (header + body)[..|arrived|] == header[..|arrived|];
  }

  lemma PartArrived(header: string, body: string, arrived: string, later: string)
    requires arrived + later <= header + body && |header| < |arrived|
    ensures var part := body[..|arrived| - |header|];
            && arrived == header + part && part + later <= body
            && (arrived == header + body <==> part == body)
            && (arrived + later == header + body <==> part + later == body)
  {
    var part := body[..|arrived| - |header|];
    var text := header + body;
    assert arrived == (arrived + later)[..|arrived|] == text[..|arrived|] == header + part;
    assert header + (part + later) == arrived + later == text[..|arrived + later|];
    assert (header + (part + later))[|header|..] == part + later;
    assert text[|header|..] == body;
    assert part + later == text[..|arrived + later|][|header|..] == body[..|part + later|];
  }

  /** A reply is read as the rows that were printed, or as no JSON at all; the former exactly when all of it got through. */
  lemma ReplyReadIff(json: Json, rows: seq<Row>, d: Delivery)
    requires json.Faithful() && Carries(d, ResponseText(json.dump(rows)))
    ensures var text, reply := ResponseText(json.dump(rows)), json.parse(Received(d));
            && (Whole(d, text) ==> reply == C.Entries(if d.Unreachable? then [] else EntriesOf(rows)))
            && (!Whole(d, text) ==> reply == C.Malformed)
  {
    if d.Stream? {
      var body := json.dump(rows);
      assert json.parse(body) == C.Entries(EntriesOf(rows));
      BrokenResponse(body, d);
      var got := Received(d);
      assert got == body[..|got|];
    }
  }

  /** The replies of all servers, by how each was delivered. */
  function Replies(json: Json, ds: seq<Delivery>): (r: seq<C.Reply>)
    ensures |r| == |ds|
  {
    seq(|ds|, i requires 0 <= i < |ds| => json.parse(Received(ds[i])))
  }

  ghost predicate AllCarry(json: Json, rows: seq<seq<Row>>, ds: seq<Delivery>) {
    |rows| == |ds| && forall i :: 0 <= i < |ds| ==> Carries(ds[i], ResponseText(json.dump(rows[i])))
  }

  /** Every server was unreachable, or its reply got through. */
  ghost predicate AllWhole(json: Json, rows: seq<seq<Row>>, ds: seq<Delivery>) {
    |rows| == |ds| && forall i :: 0 <= i < |ds| ==> Whole(ds[i], ResponseText(json.dump(rows[i])))
  }

  lemma BadReplyIff(json: Json, rows: seq<seq<Row>>, ds: seq<Delivery>)
    requires json.Faithful() && AllCarry(json, rows, ds)
    ensures Ui.BadReply(Replies(json, ds)) <==> !AllWhole(json, rows, ds)
  {
    forall i | 0 <= i < |ds|
      ensures Replies(json, ds)[i].Entries? <==> Whole(ds[i], ResponseText(json.dump(rows[i])))
    {
      ReplyReadIff(json, rows[i], ds[i]);
    }
  }

  /** A refresh completes exactly when every reply that was sent got through, its first body byte with its headers. */
  lemma RefreshCompletesIff(json: Json, tasks: seq<C.Task>, servers: seq<C.Server>, rows: seq<seq<Row>>, ds: seq<Delivery>)
    requires json.Faithful() && |servers| == |ds| && AllCarry(json, rows, ds)
    ensures C.RefreshedAll(tasks, servers, Replies(json, ds)).1 <==> AllWhole(json, rows, ds)
  {
    BadReplyIff(json, rows, ds);
  }

  /**
   A refresh end to end, over servers with distinct names: when every reply gets
   through, each task takes the state in the rows that its own server printed, and
   keeps its state if that server was unreachable or printed no row for it.
   */
  lemma RefreshShowsPrintedRows(json: Json, tasks: seq<C.Task>, servers: seq<C.Server>, rows: seq<seq<Row>>,
                                ds: seq<Delivery>, k: nat, s: nat)
    requires json.Faithful() && |servers| == |ds| && C.DistinctNames(servers)
    requires AllCarry(json, rows, ds) && AllWhole(json, rows, ds)
    requires k < |tasks| && s < |servers| && tasks[k].server == servers[s].name
    ensures var t, t' := tasks[k], C.RefreshedAll(tasks, servers, Replies(json, ds)).0[k];
            && t' == t.(state := t'.state)
            && (ds[s].Unreachable? || !C.Mentions(EntriesOf(rows[s]), t.id) ==> t' == t)
            && (forall running :: ds[s].Stream? && C.Reports(EntriesOf(rows[s]), t.id, running) ==>
                  t'.state == if running then C.Running else C.Finished)
  {
    BadReplyIff(json, rows, ds);
    ReplyReadIff(json, rows[s], ds[s]);
    C.RefreshCopiesReports(tasks, servers, Replies(json, ds), k, s);
  }

  /** A response cut right behind its header block is read as no JSON, so one such cut ends any refresh. */
  lemma CutAtBlankLineThrows(json: Json, rows: seq<Row>, later: string, clean: bool)
    requires json.Faithful()
    ensures var text := ResponseText(json.dump(rows));
            HeaderEnd(text).Some? && HeaderEnd(text).value <= |text|
            && json.parse(ClientReceive(text[..HeaderEnd(text).value], text[HeaderEnd(text).value..], clean)) == C.Malformed
  {
    var body := json.dump(rows);
    var text := ResponseText(body);
    ResponseHeaderEnd(body);
    var n := HeaderEnd(text).value;
    assert text == text[..n] + text[n..];
    ResponseReceived(body, text[..n], text[n..], clean);
  }

  /** The key that asks for a refresh ends the program exactly when some reply does not get through. */
  lemma RefreshKeyThrowsIff(json: Json, u: Ui.UiState, servers: seq<C.Server>, input: Ui.Input,
                            rows: seq<seq<Row>>, ds: seq<Delivery>)
    requires Ui.Inv(u, servers) && Ui.OnePerServer(input, servers) && Ui.AsksRefresh(u.mode, input.key)
    requires json.Faithful() && AllCarry(json, rows, ds) && input.replies == Replies(json, ds)
    ensures Ui.Handle(u, servers, input).threw <==> !AllWhole(json, rows, ds)
  {
    Ui.HandleThrowsIff(u, servers, input);
    BadReplyIff(json, rows, ds);
  }

  /** The poll of one round of the main loop, as the network delivers it. */
  ghost predicate Delivered(json: Json, input: Ui.Input, rows: seq<seq<Row>>, ds: seq<Delivery>) {
    AllCarry(json, rows, ds) && input.poll == Replies(json, ds)
  }

  /** A round ends the program exactly when a reply to its poll or to its key is lost, or the editor's column is too far right. */
  lemma RoundCrashesIff(json: Json, u: Ui.UiState, servers: seq<C.Server>, input: Ui.Input,
                        polled: seq<seq<Row>>, ps: seq<Delivery>, asked: seq<seq<Row>>, ds: seq<Delivery>)
    requires Ui.Inv(u, servers) && Ui.OnePerServer(input, servers) && json.Faithful()
    requires Delivered(json, input, polled, ps)
    requires AllCarry(json, asked, ds) && input.replies == Replies(json, ds)
    ensures Ui.Iterate(u, servers, input).1 == Ui.Crashed <==>
            || !AllWhole(json, polled, ps)
            || (Ui.AsksRefresh(u.mode, input.key) && !AllWhole(json, asked, ds))
            || (u.mode == Ui.FileEditor && Ui.ColumnThrows(u.editor, input.key))
  {
    Ui.IterateCrashesIff(u, servers, input);
    BadReplyIff(json, polled, ps);
    BadReplyIff(json, asked, ds);
  }

  /** Every reply of every round gets through. */
  ghost predicate RoundsWhole(json: Json, rows: seq<seq<seq<Row>>>, ds: seq<seq<Delivery>>) {
    |rows| == |ds| && forall i :: 0 <= i < |ds| ==> AllWhole(json, rows[i], ds[i])
  }

  lemma FirstRoundWhole(json: Json, rows: seq<seq<seq<Row>>>, ds: seq<seq<Delivery>>)
    requires |rows| == |ds| > 0
    ensures RoundsWhole(json, rows, ds) <==> AllWhole(json, rows[0], ds[0]) && RoundsWhole(json, rows[1..], ds[1..])
  {
    if RoundsWhole(json, rows[1..], ds[1..]) {
      assert forall i :: 0 < i < |ds| ==> rows[i] == rows[1..][i - 1] && ds[i] == ds[1..][i - 1];
    }
  }

  lemma IdleRound(json: Json, u: Ui.UiState, servers: seq<C.Server>, input: Ui.Input, rows: seq<seq<Row>>, ds: seq<Delivery>)
    requires Ui.Inv(u, servers) && Ui.OnePerServer(input, servers) && json.Faithful()
    requires input.key == Ui.ERR && Delivered(json, input, rows, ds)
    ensures Ui.Iterate(u, servers, input).1 == if AllWhole(json, rows, ds) then Ui.Going else Ui.Crashed
  {
    BadReplyIff(json, rows, ds);
  }

  /**
   While no one presses a key the client runs on exactly as long as every reply to its
   polls gets through.
   */
  lemma {:induction false} IdleRunsIff(json: Json, u: Ui.UiState, servers: seq<C.Server>, inputs: seq<Ui.Input>,
                                       rows: seq<seq<seq<Row>>>, ds: seq<seq<Delivery>>)
    requires Ui.Inv(u, servers) && Ui.AllOnePerServer(inputs, servers) && json.Faithful()
    requires |rows| == |ds| == |inputs|
    requires forall i :: 0 <= i < |inputs| ==> inputs[i].key == Ui.ERR && Delivered(json, inputs[i], rows[i], ds[i])
    ensures Ui.Reach(u, servers, inputs).1 == if RoundsWhole(json, rows, ds) then Ui.Going else Ui.Crashed
    decreases |inputs|
  {
    if inputs != [] {
      FirstRoundWhole(json, rows, ds);
      IdleRound(json, u, servers, inputs[0], rows[0], ds[0]);
      Ui.IterateKeepsInv(u, servers, inputs[0]);
      var (v, status) := Ui.Iterate(u, servers, inputs[0]);
      if status == Ui.Going {
        IdleRunsIff(json, v, servers, inputs[1..], rows[1..], ds[1..]);
      }
    }
  }
}
