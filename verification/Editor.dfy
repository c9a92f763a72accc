/**
 The file editor's meaning, on values: what each key does to the lines, the
 cursor and the scroll offset, and the flat text with one offset that this
 implements. UI.dfy holds the class that updates these fields in place.
 */
module Editor {
  import opened Text

  const KEY_DOWN := 258
  const KEY_UP := 259
  const KEY_BACKSPACE := 263
  const CTRL_Q := 17
  const CTRL_S := 19
  const ESC := 27
  const ENTER := 10

  /** isprint in the "C" locale; false outside the range of unsigned char. */
  predicate IsPrint(key: int) { 32 <= key <= 126 }

  predicate IsBackspace(key: int) { key == KEY_BACKSPACE || key == 127 || key == 8 }

  datatype State = State(lines: seq<string>, row: int, col: int, scroll: int)

  /** Throws is the out_of_range of substr, insert or erase; nothing catches it. */
  datatype Outcome = Continue | Save(content: string) | Quit | Throws

  /** What holds in every state of a run: there is a cursor line, and nothing is negative. */
  predicate InBounds(s: State) {
    0 <= s.row < |s.lines| && 0 <= s.col && 0 <= s.scroll
  }

  /** The loop that builds the saved text: every line gets a newline. */
  function Terminated(lines: seq<string>): string {
    if lines == [] then "" else lines[0] + "\n" + Terminated(lines[1..])
  }

  function StepUp(s: State): (s': State)
    requires InBounds(s)
  {
    if s.row == 0 then s
    else s.(row := s.row - 1, scroll := if s.row - 1 < s.scroll then s.scroll - 1 else s.scroll)
  }

  function StepDown(s: State, height: int): (s': State)
    requires InBounds(s)
  {
    if s.row == |s.lines| - 1 then s
    else s.(row := s.row + 1, scroll := if s.row + 1 >= s.scroll + (height - 6) then s.scroll + 1 else s.scroll)
  }

  /** Splits the line at the cursor; needs the column to lie in the line. */
  function StepEnter(s: State): State
    requires InBounds(s) && s.col <= |s.lines[s.row]|
  {
    var line := s.lines[s.row];
    s.(lines := s.lines[..s.row] + [line[..s.col], line[s.col..]] + s.lines[s.row + 1..], row := s.row + 1, col := 0)
  }

  /** Erases one character; just behind the end of the line there is none and only the cursor moves. */
  function StepErase(s: State): State
    requires InBounds(s) && 0 < s.col <= |s.lines[s.row]| + 1
  {
    var line := s.lines[s.row];
    if s.col - 1 == |line| then s.(col := s.col - 1)
    else s.(lines := s.lines[s.row := line[..s.col - 1] + line[s.col..]], col := s.col - 1)
  }

  /** Joins the line with the one above. */
  function StepJoin(s: State): State
    requires InBounds(s) && s.row > 0
  {
    var above := s.lines[s.row - 1];
    s.(lines := s.lines[..s.row - 1] + [above + s.lines[s.row]] + s.lines[s.row + 1..], row := s.row - 1, col := |above|)
  }

  function StepInsert(s: State, c: char): State
    requires InBounds(s) && s.col <= |s.lines[s.row]|
  {
    var line := s.lines[s.row];
    s.(lines := s.lines[s.row := line[..s.col] + [c] + line[s.col..]], col := s.col + 1)
  }

  /** One key in the FILE_EDITOR branch, with a terminal `height` lines high. */
  function Step(s: State, key: int, height: int): (r: (State, Outcome))
    requires InBounds(s)
  {
    var n := |s.lines[s.row]|;
    if key == CTRL_S then (s, Save(Terminated(s.lines)))
    else if key == CTRL_Q || key == ESC then (s, Quit)
    else if key == KEY_UP then (StepUp(s), Continue)
    else if key == KEY_DOWN then (StepDown(s, height), Continue)
    else if key == ENTER then
      if s.col > n then (s, Throws) else (StepEnter(s), Continue)
    else if IsBackspace(key) then
      if s.col > n + 1 then (s, Throws)
      else if s.col > 0 then (StepErase(s), Continue)
      else if s.row > 0 then (StepJoin(s), Continue)
      else (s, Continue)
    else if IsPrint(key) then
      if s.col > n then (s, Throws) else (StepInsert(s, key as char), Continue)
    else (s, Continue)
  }

  /** A key never leaves the bounds, throwing or not. */
  lemma StepInBounds(s: State, key: int, height: int)
    requires InBounds(s)
    ensures InBounds(Step(s, key, height).0)
  {
  }

  // ------------------------------------------------------------ the flat text

  datatype Flat = Flat(text: string, offset: nat)

  /** The start of the line that holds position i. */
  function LineStart(text: string, i: nat): (r: nat)
    requires i <= |text|
    ensures r <= i
  {
    if i == 0 || text[i - 1] == '\n' then i else LineStart(text, i - 1)
  }

  /** The end of the line that holds position i: a newline or the end of the text. */
  function LineEnd(text: string, i: nat): (r: nat)
    requires i <= |text|
    ensures i <= r <= |text|
    ensures r < |text| ==> text[r] == '\n'
    decreases |text| - i
  {
    if i == |text| || text[i] == '\n' then i else LineEnd(text, i + 1)
  }

  function FlatInsert(f: Flat, c: char): Flat
    requires f.offset <= |f.text|
  {
    Flat(f.text[..f.offset] + [c] + f.text[f.offset..], f.offset + 1)
  }

  /** Deletes the character before the offset, if there is one. */
  function FlatDelete(f: Flat): Flat
    requires f.offset <= |f.text|
  {
    if f.offset == 0 then f else Flat(f.text[..f.offset - 1] + f.text[f.offset..], f.offset - 1)
  }

  /** To the same column of the line before. */
  function FlatUp(f: Flat): Flat
    requires f.offset <= |f.text|
  {
    var start := LineStart(f.text, f.offset);
    if start == 0 then f else Flat(f.text, LineStart(f.text, start - 1) + (f.offset - start))
  }

  /** To the same column of the line after. */
  function FlatDown(f: Flat): Flat
    requires f.offset <= |f.text|
  {
    var end := LineEnd(f.text, f.offset);
    if end == |f.text| then f else Flat(f.text, end + 1 + (f.offset - LineStart(f.text, f.offset)))
  }

  /** The editor a user has in mind: a text and one offset into it. */
  function FlatStep(f: Flat, key: int): Flat {
    if f.offset > |f.text| then f
    else if key == ENTER then FlatInsert(f, '\n')
    else if IsPrint(key) then FlatInsert(f, key as char)
    else if IsBackspace(key) then FlatDelete(f)
    else if key == KEY_UP then FlatUp(f)
    else if key == KEY_DOWN then FlatDown(f)
    else f
  }

  // ------------------------------------------------------ lines as a flat text

  /** The lines joined by newlines. */
  function Joined(lines: seq<string>): string
    requires lines != []
  {
    if |lines| == 1 then lines[0] else lines[0] + "\n" + Joined(lines[1..])
  }

  /** A newline in front of every line. */
  function Preceded(lines: seq<string>): string {
    if lines == [] then "" else "\n" + lines[0] + Preceded(lines[1..])
  }

  function LengthSum(lines: seq<string>): nat {
    if lines == [] then 0 else |lines[0]| + LengthSum(lines[1..])
  }

  predicate NewlineFree(lines: seq<string>) {
    forall i :: 0 <= i < |lines| ==> '\n' !in lines[i]
  }

  predicate Valid(s: State) {
    InBounds(s) && s.col <= |s.lines[s.row]| && NewlineFree(s.lines)
  }

  /** The flat text and offset: earlier line lengths, one newline each, and the column. */
  function Flatten(s: State): Flat
    requires InBounds(s)
  {
    Flat(Joined(s.lines), LengthSum(s.lines[..s.row]) + s.row + s.col)
  }

  lemma {:induction false} TerminatedConcat(a: seq<string>, b: seq<string>)
    ensures Terminated(a + b) == Terminated(a) + Terminated(b)
  {
    if a == [] {
      assert a + b == b;
    } else {
      TerminatedConcat(a[1..], b);
      assert (a + b)[1..] == a[1..] + b;
    }
  }

  lemma {:induction false} TerminatedLength(lines: seq<string>)
    ensures |Terminated(lines)| == LengthSum(lines) + |lines|
  {
    if lines != [] {
      TerminatedLength(lines[1..]);
    }
  }

  /** Saving writes the flat text and one final newline. */
  lemma {:induction false} SavedIsJoined(lines: seq<string>)
    requires lines != []
    ensures Terminated(lines) == Joined(lines) + "\n"
  {
    if |lines| == 1 {
      assert lines[1..] == [];
    } else {
      SavedIsJoined(lines[1..]);
    }
  }

  lemma {:induction false} JoinedHead(line: string, after: seq<string>)
    ensures Joined([line] + after) == line + Preceded(after)
    decreases |after|
  {
    if after != [] {
      assert ([line] + after)[1..] == [after[0]] + after[1..] == after;
      JoinedHead(after[0], after[1..]);
    } else {
      assert [line] + after == [line];
    }
  }

  /** The flat text around one line. */
  lemma {:induction false} JoinedAround(before: seq<string>, line: string, after: seq<string>)
    ensures Joined(before + [line] + after) == Terminated(before) + line + Preceded(after)
  {
    var lines := before + [line] + after;
    if before == [] {
      assert lines == [line] + after;
      JoinedHead(line, after);
    } else {
      assert lines[1..] == before[1..] + [line] + after;
      JoinedAround(before[1..], line, after);
    }
  }

  /** A valid state's text splits at the cursor's line, and its offset is behind the earlier lines. */
  lemma FlattenAround(s: State)
    requires InBounds(s)
    ensures var before, after := Terminated(s.lines[..s.row]), Preceded(s.lines[s.row + 1..]);
            Flatten(s) == Flat(before + s.lines[s.row] + after, |before| + s.col)
  {
    var a, b := s.lines[..s.row], s.lines[s.row + 1..];
    assert s.lines == a + [s.lines[s.row]] + b;
    JoinedAround(a, s.lines[s.row], b);
    TerminatedLength(a);
  }

  lemma FlattenTo(s: State, before: seq<string>, line: string, after: seq<string>, col: nat)
    requires InBounds(s) && s.lines == before + [line] + after && s.row == |before| && s.col == col
    ensures Flatten(s) == Flat(Terminated(before) + line + Preceded(after), |Terminated(before)| + col)
  {
    assert s.lines[..s.row] == before && s.lines[s.row + 1..] == after;
    FlattenAround(s);
  }

  lemma {:induction false} LineStartIs(text: string, start: nat, i: nat)
    requires start <= i <= |text|
    requires start == 0 || text[start - 1] == '\n'
    requires forall j :: start <= j < i ==> text[j] != '\n'
    ensures LineStart(text, i) == start
  {
    if start < i {
      LineStartIs(text, start, i - 1);
    }
  }

  lemma {:induction false} LineEndIs(text: string, i: nat, end: nat)
    requires i <= end <= |text|
    requires end == |text| || text[end] == '\n'
    requires forall j :: i <= j < end ==> text[j] != '\n'
    ensures LineEnd(text, i) == end
    decreases end - i
  {
    if i < end {
      LineEndIs(text, i + 1, end);
    }
  }

  /** Where the cursor's line starts and ends in the flat text. */
  lemma CursorLine(before: string, line: string, after: string, col: nat)
    requires before == "" || before[|before| - 1] == '\n'
    requires after == "" || after[0] == '\n'
    requires '\n' !in line && col <= |line|
    ensures LineStart(before + line + after, |before| + col) == |before|
    ensures LineEnd(before + line + after, |before| + col) == |before| + |line|
  {
    var text := before + line + after;
    assert forall j :: |before| <= j < |before| + |line| ==> text[j] == line[j - |before|];
    LineStartIs(text, |before|, |before| + col);
    LineEndIs(text, |before| + col, |before| + |line|);
  }

  lemma TerminatedEnds(lines: seq<string>, last: string)
    ensures Terminated(lines + [last]) == Terminated(lines) + last + "\n"
  {
    TerminatedConcat(lines, [last]);
    assert [last][1..] == [];
    assert Terminated([last]) == last + "\n";
  }

  lemma TerminatedEndsInNewline(lines: seq<string>)
    ensures lines != [] ==> Terminated(lines) != "" && Terminated(lines)[|Terminated(lines)| - 1] == '\n'
  {
    if lines != [] {
      var n := |lines| - 1;
      TerminatedEnds(lines[..n], lines[n]);
      assert lines == lines[..n] + [lines[n]];
    }
  }

  // ---------------------------------------------- each key refines the flat key

  /** Inserting a text of one character between l and r. */
  lemma FlatInsertAt(before: string, l: string, c: char, r: string, after: string)
    ensures FlatInsert(Flat(before + (l + r) + after, |before| + |l|), c)
         == Flat(before + (l + [c] + r) + after, |before| + |l| + 1)
  {
    var text := before + (l + r) + after;
    assert text[..|before| + |l|] == before + l && text[|before| + |l|..] == r + after;
    assert before + l + [c] + (r + after) == before + (l + [c] + r) + after;
  }

  lemma FlatDeleteAt(before: string, l: string, c: char, r: string, after: string)
    ensures FlatDelete(Flat(before + (l + [c] + r) + after, |before| + |l| + 1))
         == Flat(before + (l + r) + after, |before| + |l|)
  {
    var text := before + (l + [c] + r) + after;
    assert text[..|before| + |l|] == before + l && text[|before| + |l| + 1..] == r + after;
    assert before + l + (r + after) == before + (l + r) + after;
  }

  lemma AppendTwo(a: seq<string>, l: string, r: string, b: seq<string>)
    ensures a + [l, r] + b == (a + [l]) + [r] + b
  {
  }

  lemma Replaced(lines: seq<string>, row: nat, line: string)
    requires row < |lines|
    ensures lines[row := line] == lines[..row] + [line] + lines[row + 1..]
  {
  }

  lemma EnterStaysValid(s: State)
    requires Valid(s)
    ensures Valid(StepEnter(s))
  {
  }

  lemma InsertStaysValid(s: State, c: char)
    requires Valid(s) && c != '\n'
    ensures Valid(StepInsert(s, c))
  {
  }

  lemma EnterRefines(s: State)
    requires Valid(s)
    ensures Flatten(s).offset <= |Flatten(s).text|
    ensures Valid(StepEnter(s)) && Flatten(StepEnter(s)) == FlatInsert(Flatten(s), '\n')
  {
    var a, b, line := s.lines[..s.row], s.lines[s.row + 1..], s.lines[s.row];
    var l, r := line[..s.col], line[s.col..];
    assert line == l + r;
    FlattenAround(s);
    FlatInsertAt(Terminated(a), l, '\n', r, Preceded(b));
    AppendTwo(a, l, r, b);
    EnterStaysValid(s);
    FlattenTo(StepEnter(s), a + [l], r, b, 0);
    TerminatedEnds(a, l);
    Reassociate(Terminated(a), l, ['\n'], r, Preceded(b));
  }

  lemma Reassociate(a: string, b: string, c: string, d: string, e: string)
    ensures a + b + c + d + e == a + (b + c + d) + e
  {
  }

  lemma InsertRefines(s: State, c: char)
    requires Valid(s) && c != '\n'
    ensures Flatten(s).offset <= |Flatten(s).text|
    ensures Valid(StepInsert(s, c)) && Flatten(StepInsert(s, c)) == FlatInsert(Flatten(s), c)
  {
    var a, b, line := s.lines[..s.row], s.lines[s.row + 1..], s.lines[s.row];
    var l, r := line[..s.col], line[s.col..];
    assert line == l + r;
    FlattenAround(s);
    FlatInsertAt(Terminated(a), l, c, r, Preceded(b));
    Replaced(s.lines, s.row, l + [c] + r);
    InsertStaysValid(s, c);
    FlattenTo(StepInsert(s, c), a, l + [c] + r, b, s.col + 1);
  }

  lemma EraseRefines(s: State)
    requires Valid(s) && s.col > 0
    ensures Flatten(s).offset <= |Flatten(s).text|
    ensures Valid(StepErase(s)) && Flatten(StepErase(s)) == FlatDelete(Flatten(s))
  {
    var a, b, line := s.lines[..s.row], s.lines[s.row + 1..], s.lines[s.row];
    var l, c, r := line[..s.col - 1], line[s.col - 1], line[s.col..];
    assert line == l + [c] + r;
    FlattenAround(s);
    FlatDeleteAt(Terminated(a), l, c, r, Preceded(b));
    Replaced(s.lines, s.row, l + r);
    FlattenTo(StepErase(s), a, l + r, b, s.col - 1);
  }

  lemma JoinRefines(s: State)
    requires Valid(s) && s.col == 0 && s.row > 0
    ensures Flatten(s).offset <= |Flatten(s).text|
    ensures Valid(StepJoin(s)) && Flatten(StepJoin(s)) == FlatDelete(Flatten(s))
  {
    var a, b, line := s.lines[..s.row - 1], s.lines[s.row + 1..], s.lines[s.row];
    var above := s.lines[s.row - 1];
    FlattenAround(s);
    assert s.lines[..s.row] == a + [above];
    TerminatedEnds(a, above);
    FlatDeleteAt(Terminated(a), above, '\n', line, Preceded(b));
    Reassociate(Terminated(a), above, ['\n'], line, Preceded(b));
    FlattenTo(StepJoin(s), a, above + line, b, |above|);
  }

  /** Does an arrow move, if there is one, land on a line at least as long as the column? */
  predicate LandsInside(s: State, key: int)
    requires InBounds(s)
  {
    && (key == KEY_UP && s.row > 0 ==> s.col <= |s.lines[s.row - 1]|)
    && (key == KEY_DOWN && s.row < |s.lines| - 1 ==> s.col <= |s.lines[s.row + 1]|)
  }

  lemma FlatDownTo(before: string, upper: string, lower: string, after: string, col: nat)
    requires before == "" || before[|before| - 1] == '\n'
    requires '\n' !in upper && col <= |upper|
    ensures FlatDown(Flat(before + upper + (['\n'] + lower + after), |before| + col))
         == Flat(before + upper + (['\n'] + lower + after), |before| + |upper| + 1 + col)
  {
    CursorLine(before, upper, ['\n'] + lower + after, col);
  }

  lemma FlatUpTo(before: string, upper: string, lower: string, after: string, col: nat)
    requires before == "" || before[|before| - 1] == '\n'
    requires after == "" || after[0] == '\n'
    requires '\n' !in upper && '\n' !in lower && col <= |lower|
    ensures FlatUp(Flat((before + upper + ['\n']) + lower + after, |before| + |upper| + 1 + col))
         == Flat((before + upper + ['\n']) + lower + after, |before| + col)
  {
    var text := (before + upper + ['\n']) + lower + after;
    CursorLine(before + upper + ['\n'], lower, after, col);
    assert LineStart(text, |before| + |upper| + 1 + col) == |before| + |upper| + 1;
    UpperLineStart(before, upper, lower, after);
  }

  lemma UpperLineStart(before: string, upper: string, lower: string, after: string)
    requires before == "" || before[|before| - 1] == '\n'
    requires '\n' !in upper
    ensures LineStart((before + upper + ['\n']) + lower + after, |before| + |upper|) == |before|
  {
    CursorLine(before, upper, ['\n'] + (lower + after), |upper|);
    assert (before + upper + ['\n']) + lower + after == before + upper + (['\n'] + (lower + after));
  }

  lemma FlatEdgesOf(f: Flat, before: string, line: string, after: string)
    requires before == "" || before[|before| - 1] == '\n'
    requires after == "" || after[0] == '\n'
    requires f.text == before + line + after && |before| <= f.offset <= |before| + |line| && '\n' !in line
    ensures f.offset <= |f.text|
    ensures before == "" ==> FlatUp(f) == f
    ensures after == "" ==> FlatDown(f) == f
  {
    CursorLine(before, line, after, f.offset - |before|);
  }

  /** No line above or below: the flat editor stays where it is, too. */
  lemma FlatEdges(s: State)
    requires Valid(s)
    ensures Flatten(s).offset <= |Flatten(s).text|
    ensures s.row == 0 ==> FlatUp(Flatten(s)) == Flatten(s)
    ensures s.row == |s.lines| - 1 ==> FlatDown(Flatten(s)) == Flatten(s)
  {
    FlatEdgesAround(s, Flatten(s), s.lines[..s.row], s.lines[s.row + 1..]);
  }

  lemma FlatEdgesAround(s: State, f: Flat, above: seq<string>, below: seq<string>)
    requires Valid(s) && f == Flatten(s) && above == s.lines[..s.row] && below == s.lines[s.row + 1..]
    ensures f.offset <= |f.text|
    ensures above == [] ==> FlatUp(f) == f
    ensures below == [] ==> FlatDown(f) == f
  {
    FlattenAround(s);
    TerminatedEndsInNewline(above);
    PrecededStarts(below);
    FlatEdgesOf(f, Terminated(above), s.lines[s.row], Preceded(below));
  }

  lemma PrecededConcat(line: string, lines: seq<string>)
    ensures Preceded([line] + lines) == ['\n'] + line + Preceded(lines)
  {
    assert ([line] + lines)[1..] == lines;
  }

  /** Down from s to t: the same text, the next line's offset. */
  lemma DownRefines(s: State, t: State)
    requires Valid(s) && InBounds(t)
    requires t.lines == s.lines && t.col == s.col && t.row == s.row + 1
    ensures Flatten(s).offset <= |Flatten(s).text| && FlatDown(Flatten(s)) == Flatten(t)
  {
    DownMoves(s);
    OffsetBelow(s, t);
  }

  lemma DownMoves(s: State)
    requires Valid(s) && s.row < |s.lines| - 1
    ensures Flatten(s).offset <= |Flatten(s).text|
    ensures FlatDown(Flatten(s)) == Flat(Flatten(s).text, Flatten(s).offset + |s.lines[s.row]| + 1)
  {
    var a, b := s.lines[..s.row], s.lines[s.row + 2..];
    var upper, lower := s.lines[s.row], s.lines[s.row + 1];
    TerminatedEndsInNewline(a);
    FlatDownTo(Terminated(a), upper, lower, Preceded(b), s.col);
    FlattenAbove(s, a, upper, lower, b);
  }

  lemma FlattenAbove(s: State, a: seq<string>, upper: string, lower: string, b: seq<string>)
    requires InBounds(s) && s.row < |s.lines| - 1
    requires a == s.lines[..s.row] && upper == s.lines[s.row] && lower == s.lines[s.row + 1] && b == s.lines[s.row + 2..]
    ensures Flatten(s) == Flat(Terminated(a) + upper + (['\n'] + lower + Preceded(b)), |Terminated(a)| + s.col)
  {
    FlattenAround(s);
    assert s.lines[s.row + 1..] == [lower] + b;
    PrecededConcat(lower, b);
  }

  /** Up from t to s. */
  lemma UpRefines(s: State, t: State)
    requires InBounds(s) && Valid(t)
    requires t.lines == s.lines && t.col == s.col && t.row == s.row + 1
    ensures Flatten(t).offset <= |Flatten(t).text| && FlatUp(Flatten(t)) == Flatten(s)
  {
    UpMoves(s, t);
    OffsetBelow(s, t);
    FlattenAround(s);
  }

  lemma UpMoves(s: State, t: State)
    requires InBounds(s) && Valid(t)
    requires t.lines == s.lines && t.col == s.col && t.row == s.row + 1
    ensures Flatten(t).offset <= |Flatten(t).text|
    ensures FlatUp(Flatten(t)) == Flat(Flatten(t).text, |Terminated(s.lines[..s.row])| + s.col)
  {
    var a, b := s.lines[..s.row], s.lines[t.row + 1..];
    var upper, lower := s.lines[s.row], s.lines[t.row];
    TerminatedEndsInNewline(a);
    PrecededStarts(b);
    FlatUpTo(Terminated(a), upper, lower, Preceded(b), s.col);
    FlattenBelow(t, a, upper, lower, b);
  }

  lemma FlattenBelow(t: State, a: seq<string>, upper: string, lower: string, b: seq<string>)
    requires InBounds(t) && t.row > 0
    requires a == t.lines[..t.row - 1] && upper == t.lines[t.row - 1] && lower == t.lines[t.row] && b == t.lines[t.row + 1..]
    ensures Flatten(t) == Flat((Terminated(a) + upper + ['\n']) + lower + Preceded(b), |Terminated(a)| + |upper| + 1 + t.col)
  {
    FlattenAround(t);
    assert t.lines[..t.row] == a + [upper];
    TerminatedEnds(a, upper);
  }

  lemma PrecededStarts(lines: seq<string>)
    ensures lines != [] ==> Preceded(lines) != "" && Preceded(lines)[0] == '\n'
  {
  }

  lemma OffsetBelow(s: State, t: State)
    requires InBounds(s) && InBounds(t)
    requires t.lines == s.lines && t.col == s.col && t.row == s.row + 1
    ensures Flatten(t) == Flat(Flatten(s).text, Flatten(s).offset + |s.lines[s.row]| + 1)
  {
    var a := s.lines[..s.row];
    assert s.lines[..t.row] == a + [s.lines[s.row]];
    TerminatedLength(a);
    TerminatedLength(s.lines[..t.row]);
    TerminatedEnds(a, s.lines[s.row]);
  }

  lemma OffsetInText(s: State)
    requires Valid(s)
    ensures Flatten(s).offset <= |Flatten(s).text|
  {
    FlattenAround(s);
  }

  lemma BackspaceRefines(s: State, key: int, height: int)
    requires Valid(s) && IsBackspace(key)
    ensures Step(s, key, height).1 == Continue && Valid(Step(s, key, height).0)
    ensures Flatten(Step(s, key, height).0) == FlatStep(Flatten(s), key)
  {
    OffsetInText(s);
    if s.col > 0 {
      EraseRefines(s);
    } else if s.row > 0 {
      JoinRefines(s);
    } else {
      assert Flatten(s).offset == 0;
    }
  }

  lemma ArrowRefines(s: State, key: int, height: int)
    requires Valid(s) && LandsInside(s, key) && (key == KEY_UP || key == KEY_DOWN)
    ensures Step(s, key, height).1 == Continue && Valid(Step(s, key, height).0)
    ensures Flatten(Step(s, key, height).0) == FlatStep(Flatten(s), key)
  {
    FlatEdges(s);
    if key == KEY_UP && s.row > 0 {
      UpRefines(StepUp(s), s);
    } else if key == KEY_DOWN && s.row < |s.lines| - 1 {
      DownRefines(s, StepDown(s, height));
    }
  }

  lemma TypingRefines(s: State, key: int, height: int)
    requires Valid(s) && (key == ENTER || IsPrint(key))
    ensures Step(s, key, height).1 == Continue && Valid(Step(s, key, height).0)
    ensures Flatten(Step(s, key, height).0) == FlatStep(Flatten(s), key)
  {
    if key == ENTER {
      EnterRefines(s);
    } else {
      InsertRefines(s, key as char);
    }
  }

  /** With a valid cursor, every key does to the flat text what its name says. */
  lemma StepRefinesFlat(s: State, key: int, height: int)
    requires Valid(s) && LandsInside(s, key)
    ensures var (s', outcome) := Step(s, key, height);
            && outcome != Throws
            && Valid(s')
            && Flatten(s') == FlatStep(Flatten(s), key)
            && (outcome.Save? ==> outcome.content == Flatten(s).text + "\n")
  {
    SavedIsJoined(s.lines);
    if key == ENTER || IsPrint(key) {
      TypingRefines(s, key, height);
    } else if IsBackspace(key) {
      BackspaceRefines(s, key, height);
    } else if key == KEY_UP || key == KEY_DOWN {
      ArrowRefines(s, key, height);
    }
  }

  // ------------------------------------------- any cursor, behind a line or not

  /** The column lies behind the end of the cursor's line. */
  predicate Behind(s: State)
    requires InBounds(s)
  {
    s.col > |s.lines[s.row]|
  }

  lemma FlatStepOfOthers(f: Flat, key: int)
    requires !(key == ENTER || IsPrint(key) || IsBackspace(key))
    ensures FlatStep(f, key).text == f.text
  {
  }

  /**
   What a key that does not throw does to the text, wherever the cursor is: what the
   flat editor does, if the cursor is on its line, and nothing at all behind it.
   Arrows keep text and column at any column.
   */
  lemma KeyChangesText(s: State, key: int, height: int)
    requires InBounds(s) && NewlineFree(s.lines) && Step(s, key, height).1 != Throws
    ensures var s' := Step(s, key, height).0;
            && s'.lines != []
            && Joined(s'.lines) == (if Behind(s) then Joined(s.lines) else FlatStep(Flatten(s), key).text)
            && (Behind(s) ==> s'.lines == s.lines)
            && (Behind(s) && IsBackspace(key) ==> s'.col == s.col - 1 && s'.row == s.row)
            && (key == KEY_UP || key == KEY_DOWN ==> s'.lines == s.lines && s'.col == s.col)
  {
    if !Behind(s) {
      if key == ENTER || IsPrint(key) {
        TypingRefines(s, key, height);
      } else if IsBackspace(key) {
        BackspaceRefines(s, key, height);
      } else {
        FlatStepOfOthers(Flatten(s), key);
      }
    }
  }

  /** Line number `row` of a text starts here. */
  function RowStart(text: string, row: nat): (r: nat)
    ensures r <= |text|
    decreases row
  {
    var i := IndexOfChar(text, '\n');
    if row == 0 then 0 else if i == |text| then |text| else i + 1 + RowStart(text[i + 1..], row - 1)
  }

  function Newlines(text: string): nat {
    var i := IndexOfChar(text, '\n');
    if i == |text| then 0 else 1 + Newlines(text[i + 1..])
  }

  /** A text with a cursor, whose column may lie behind its line. */
  datatype Cursor = Cursor(text: string, row: nat, col: nat)

  /** A key that types: a newline or a character, at a cursor whose line stands from `start` to `end`. */
  function TypeAt(c: Cursor, start: nat, end: nat, key: int): (Cursor, Outcome)
    requires start <= end <= |c.text| && (key == ENTER || IsPrint(key))
  {
    var here := start + c.col;
    if here > end then (c, Throws)
    else if key == ENTER then (Cursor(FlatInsert(Flat(c.text, here), '\n').text, c.row + 1, 0), Continue)
    else (Cursor(FlatInsert(Flat(c.text, here), key as char).text, c.row, c.col + 1), Continue)
  }

  /**
   Backspace there: nothing to erase right behind the line; at its start the line is
   joined with the one above, which is `above` characters long.
   */
  function EraseAt(c: Cursor, start: nat, end: nat, above: nat): (Cursor, Outcome)
    requires start <= end <= |c.text|
  {
    var here := start + c.col;
    if here > end + 1 then (c, Throws)
    else if here == end + 1 then (if c.col > 0 then c.(col := c.col - 1) else c, Continue)
    else if c.col > 0 then (Cursor(FlatDelete(Flat(c.text, here)).text, c.row, c.col - 1), Continue)
    else if c.row > 0 then (Cursor(FlatDelete(Flat(c.text, here)).text, c.row - 1, above), Continue)
    else (c, Continue)
  }

  /** One key, at a cursor whose line stands from `start` to `end`, in a text of `rows` lines. */
  function KeyAt(c: Cursor, start: nat, end: nat, above: nat, rows: nat, key: int): (Cursor, Outcome)
    requires start <= end <= |c.text|
  {
    if key == CTRL_S then (c, Save(c.text + "\n"))
    else if key == CTRL_Q || key == ESC then (c, Quit)
    else if key == KEY_UP then (if c.row > 0 then c.(row := c.row - 1) else c, Continue)
    else if key == KEY_DOWN then (if c.row + 1 < rows then c.(row := c.row + 1) else c, Continue)
    else if key == ENTER || IsPrint(key) then TypeAt(c, start, end, key)
    else if IsBackspace(key) then EraseAt(c, start, end, above)
    else (c, Continue)
  }

  function RowEnd(text: string, row: nat): (r: nat)
    ensures RowStart(text, row) <= r <= |text|
  {
    LineEnd(text, RowStart(text, row))
  }

  function RowLength(text: string, row: nat): nat {
    RowEnd(text, row) - RowStart(text, row)
  }

  function AboveLength(text: string, row: nat): nat {
    if row > 0 then RowLength(text, row - 1) else 0
  }

  /** The editor on the text alone: what each key does at every column. */
  function TextStep(c: Cursor, key: int): (Cursor, Outcome) {
    KeyAt(c, RowStart(c.text, c.row), RowEnd(c.text, c.row), AboveLength(c.text, c.row), Newlines(c.text) + 1, key)
  }

  /** What of an editor's state the text editor has; the rest is the scroll offset. */
  function CursorOf(s: State): Cursor
    requires InBounds(s)
  {
    Cursor(Joined(s.lines), s.row, s.col)
  }

  lemma {:induction false} RowStartIs(lines: seq<string>, row: nat)
    requires NewlineFree(lines) && row < |lines|
    ensures RowStart(Joined(lines), row) == |Terminated(lines[..row])|
    decreases row
  {
    if row > 0 {
      var line, rest := lines[0], Joined(lines[1..]);
      assert Joined(lines) == line + ['\n'] + rest;
      IndexOfCharIs(line, '\n', rest);
      assert Joined(lines)[|line| + 1..] == rest;
      RowStartIs(lines[1..], row - 1);
      assert lines[..row][1..] == lines[1..][..row - 1];
    }
  }

  lemma {:induction false} NewlinesOf(lines: seq<string>)
    requires lines != [] && NewlineFree(lines)
    ensures Newlines(Joined(lines)) == |lines| - 1
  {
    if |lines| == 1 {
      LastLine(lines[0]);
    } else {
      var line, rest := lines[0], Joined(lines[1..]);
      assert Joined(lines) == line + ['\n'] + rest;
      IndexOfCharIs(line, '\n', rest);
      assert Joined(lines)[|line| + 1..] == rest;
      NewlinesOf(lines[1..]);
    }
  }

  lemma EndOfLine(above: seq<string>, line: string, below: seq<string>)
    requires '\n' !in line
    ensures |Terminated(above)| <= |Joined(above + [line] + below)|
    ensures LineEnd(Joined(above + [line] + below), |Terminated(above)|) == |Terminated(above)| + |line|
  {
    JoinedAround(above, line, below);
    TerminatedEndsInNewline(above);
    PrecededStarts(below);
    CursorLine(Terminated(above), line, Preceded(below), 0);
  }

  lemma RowStartAfter(lines: seq<string>, row: nat, above: seq<string>)
    requires NewlineFree(lines) && row < |lines| && above == lines[..row]
    ensures RowStart(Joined(lines), row) == |Terminated(above)|
  {
    RowStartIs(lines, row);
  }

  lemma RowEndAt(text: string, above: seq<string>, line: string, below: seq<string>, start: nat)
    requires '\n' !in line && text == Joined(above + [line] + below) && start == |Terminated(above)|
    ensures start + |line| <= |text| && LineEnd(text, start) == start + |line|
  {
    EndOfLine(above, line, below);
  }

  lemma Around(lines: seq<string>, row: nat)
    requires row < |lines|
    ensures lines == lines[..row] + [lines[row]] + lines[row + 1..]
  {
  }

  /** Line `row` in the text: where it starts and where it ends. */
  lemma RowBounds(lines: seq<string>, row: nat, text: string)
    requires NewlineFree(lines) && row < |lines| && text == Joined(lines)
    ensures RowStart(text, row) + |lines[row]| == RowEnd(text, row)
    ensures AboveLength(text, row + 1) == |lines[row]|
  {
    var above, line, below := lines[..row], lines[row], lines[row + 1..];
    Around(lines, row);
    RowStartAfter(lines, row, above);
    RowEndAt(text, above, line, below, RowStart(text, row));
  }

  lemma FlattenOffset(s: State)
    requires InBounds(s) && NewlineFree(s.lines)
    ensures Flatten(s) == Flat(Joined(s.lines), RowStart(Joined(s.lines), s.row) + s.col)
  {
    RowStartIs(s.lines, s.row);
    TerminatedLength(s.lines[..s.row]);
  }

  /** The cursor's line stands from start to end in the text, and the one above is `above` long. */
  ghost predicate StandsAt(s: State, start: nat, end: nat, above: nat) {
    && Valid(s.(col := 0)) && 0 <= s.col
    && Flatten(s) == Flat(Joined(s.lines), start + s.col)
    && start + |s.lines[s.row]| == end <= |Joined(s.lines)|
    && (s.row > 0 ==> above == |s.lines[s.row - 1]|)
  }

  lemma TypedText(s: State, key: int, height: int, start: nat, end: nat, above: nat)
    requires StandsAt(s, start, end, above) && !Behind(s) && (key == ENTER || IsPrint(key))
    ensures (CursorOf(Step(s, key, height).0), Step(s, key, height).1) == TypeAt(CursorOf(s), start, end, key)
  {
    TypingRefines(s, key, height);
  }

  lemma ErasedText(s: State, key: int, height: int, start: nat, end: nat, above: nat)
    requires StandsAt(s, start, end, above) && !Behind(s) && IsBackspace(key)
    ensures (CursorOf(Step(s, key, height).0), Step(s, key, height).1) == EraseAt(CursorOf(s), start, end, above)
  {
    BackspaceRefines(s, key, height);
  }

  lemma BehindText(s: State, key: int, height: int, start: nat, end: nat, above: nat)
    requires StandsAt(s, start, end, above) && Behind(s)
    ensures key == ENTER || IsPrint(key) ==>
              (CursorOf(Step(s, key, height).0), Step(s, key, height).1) == TypeAt(CursorOf(s), start, end, key)
    ensures IsBackspace(key) ==>
              (CursorOf(Step(s, key, height).0), Step(s, key, height).1) == EraseAt(CursorOf(s), start, end, above)
  {
  }

  lemma KeyRefinesText(s: State, key: int, height: int, start: nat, end: nat, above: nat)
    requires StandsAt(s, start, end, above)
    ensures (CursorOf(Step(s, key, height).0), Step(s, key, height).1)
         == KeyAt(CursorOf(s), start, end, above, |s.lines|, key)
  {
    if Behind(s) {
      BehindText(s, key, height, start, end, above);
    } else if key == ENTER || IsPrint(key) {
      TypedText(s, key, height, start, end, above);
    } else if IsBackspace(key) {
      ErasedText(s, key, height, start, end, above);
    }
    SavedIsJoined(s.lines);
  }

  lemma AboveIs(lines: seq<string>, row: nat, text: string)
    requires NewlineFree(lines) && 0 < row <= |lines| && text == Joined(lines)
    ensures AboveLength(text, row) == |lines[row - 1]|
  {
    RowBounds(lines, row - 1, text);
  }

  lemma Stands(s: State, text: string, above: nat)
    requires InBounds(s) && NewlineFree(s.lines) && text == Joined(s.lines)
    requires s.row > 0 ==> above == |s.lines[s.row - 1]|
    ensures StandsAt(s, RowStart(text, s.row), RowEnd(text, s.row), above)
  {
    RowBounds(s.lines, s.row, text);
    FlattenOffset(s);
  }

  lemma TextStepIs(c: Cursor, key: int, rows: nat)
    requires rows == Newlines(c.text) + 1
    ensures TextStep(c, key)
         == KeyAt(c, RowStart(c.text, c.row), RowEnd(c.text, c.row), AboveLength(c.text, c.row), rows, key)
  {
  }

  /** Every key, at every cursor, does to lines and cursor what the text editor does to the text, throwing when it does. */
  lemma StepRefinesText(s: State, key: int, height: int)
    requires InBounds(s) && NewlineFree(s.lines)
    ensures (CursorOf(Step(s, key, height).0), Step(s, key, height).1) == TextStep(CursorOf(s), key)
  {
    var c := CursorOf(s);
    NewlinesOf(s.lines);
    TextStepIs(c, key, |s.lines|);
    if s.row > 0 {
      AboveIs(s.lines, s.row, c.text);
    }
    Stands(s, c.text, AboveLength(c.text, c.row));
    KeyRefinesText(s, key, height, RowStart(c.text, c.row), RowEnd(c.text, c.row), AboveLength(c.text, c.row));
  }

  /** The keys by their codes: Ctrl-S, Ctrl-Q and ESC, the arrows, three backspaces, and the printable ones. */
  lemma KeyCodes(s: State, height: int)
    requires InBounds(s)
    ensures Step(s, 19, height) == (s, Save(Terminated(s.lines)))
    ensures Step(s, 17, height) == Step(s, 27, height) == (s, Quit)
    ensures Step(s, 259, height).0.row == if s.row == 0 then 0 else s.row - 1
    ensures Step(s, 258, height).0.row == if s.row + 1 == |s.lines| then s.row else s.row + 1
    ensures Step(s, 263, height) == Step(s, 127, height) == Step(s, 8, height)
    ensures 0 < s.col <= |s.lines[s.row]| + 1 ==> Step(s, 8, height).0.col == s.col - 1
    ensures s.col <= |s.lines[s.row]| ==> Step(s, 10, height).0.row == s.row + 1
    ensures forall key :: 32 <= key <= 126 && s.col <= |s.lines[s.row]| ==> Step(s, key, height).0.col == s.col + 1
    ensures forall key :: !(32 <= key <= 126) && key !in {8, 10, 17, 19, 27, 127, 258, 259, 263} ==>
                            Step(s, key, height) == (s, Continue)
  {
  }

  /** Only arrows scroll, by one line, and only when the cursor leaves the window. */
  lemma ScrollsWhenLeaving(s: State, key: int, height: int)
    requires InBounds(s)
    ensures var s' := Step(s, key, height).0;
            s'.scroll == if key == KEY_UP && s'.row < s.row && s'.row < s.scroll then s.scroll - 1
                         else if key == KEY_DOWN && s'.row > s.row && s'.row >= s.scroll + height - 6 then s.scroll + 1
                         else s.scroll
  {
  }

  // ---------------------------------------------------------------- whole runs

  datatype Key = Key(code: int, height: int)

  /** Keys up to and including the first that ends the session or throws. */
  function Run(s: State, keys: seq<Key>): (State, Outcome)
    requires InBounds(s)
    decreases |keys|
  {
    if keys == [] then (s, Continue) else
    var (s', outcome) := Step(s, keys[0].code, keys[0].height);
    if outcome == Continue then Run(s', keys[1..]) else (s', outcome)
  }

  /** The flat editor over the same keys. */
  function FlatRun(f: Flat, keys: seq<Key>): Flat
    decreases |keys|
  {
    if keys == [] || keys[0].code in {CTRL_S, CTRL_Q, ESC} then f
    else FlatRun(FlatStep(f, keys[0].code), keys[1..])
  }

  /** Every arrow move of the run lands on a line at least as long as the column. */
  predicate ArrowsLandInside(s: State, keys: seq<Key>)
    requires InBounds(s)
    decreases |keys|
  {
    keys == [] || (LandsInside(s, keys[0].code)
                   && ArrowsLandInside(Step(s, keys[0].code, keys[0].height).0, keys[1..]))
  }

  /** A run whose arrows land inside never throws and is a run of the flat editor; a save writes its text. */
  lemma {:induction false} RunRefinesFlat(s: State, keys: seq<Key>)
    requires Valid(s) && ArrowsLandInside(s, keys)
    ensures var (s', outcome) := Run(s, keys);
            && outcome != Throws
            && Valid(s')
            && Flatten(s') == FlatRun(Flatten(s), keys)
            && (outcome.Save? ==> outcome.content == FlatRun(Flatten(s), keys).text + "\n")
    decreases |keys|
  {
    if keys != [] {
      var key := keys[0];
      StepRefinesFlat(s, key.code, key.height);
      var (s', outcome) := Step(s, key.code, key.height);
      if outcome == Continue {
        RunRefinesFlat(s', keys[1..]);
      }
    }
  }

  function TextRun(c: Cursor, keys: seq<Key>): (Cursor, Outcome)
    decreases |keys|
  {
    if keys == [] then (c, Continue) else
    var (c', outcome) := TextStep(c, keys[0].code);
    if outcome == Continue then TextRun(c', keys[1..]) else (c', outcome)
  }

  /** Every run, wherever its arrows land, is a run of the text editor up to its end, be that a save, a quit or a throw. */
  lemma {:induction false} RunRefinesText(s: State, keys: seq<Key>)
    requires InBounds(s) && NewlineFree(s.lines)
    ensures InBounds(Run(s, keys).0)
    ensures (CursorOf(Run(s, keys).0), Run(s, keys).1) == TextRun(CursorOf(s), keys)
    decreases |keys|
  {
    if keys != [] {
      var key := keys[0];
      StepRefinesText(s, key.code, key.height);
      StepNewlineFree(s, key.code, key.height);
      StepInBounds(s, key.code, key.height);
      var (s', outcome) := Step(s, key.code, key.height);
      if outcome == Continue {
        RunRefinesText(s', keys[1..]);
      }
    }
  }

  /** No key, wherever the cursor is, puts a newline into a line. */
  lemma StepNewlineFree(s: State, key: int, height: int)
    requires InBounds(s) && NewlineFree(s.lines)
    ensures NewlineFree(Step(s, key, height).0.lines)
  {
  }

  /** In every run: the row is in range, nothing is negative, no line holds a newline. */
  lemma {:induction false} RunInBounds(s: State, keys: seq<Key>)
    requires InBounds(s) && NewlineFree(s.lines)
    ensures InBounds(Run(s, keys).0) && NewlineFree(Run(s, keys).0.lines)
    decreases |keys|
  {
    if keys != [] {
      var (s', outcome) := Step(s, keys[0].code, keys[0].height);
      StepNewlineFree(s, keys[0].code, keys[0].height);
      if outcome == Continue {
        RunInBounds(s', keys[1..]);
      }
    }
  }

  /** A keystroke throws exactly when the column is too far right for it, and then changes nothing. */
  lemma ThrowsIff(s: State, key: int, height: int)
    requires InBounds(s)
    ensures var (s', outcome) := Step(s, key, height);
            var beyond := s.col - |s.lines[s.row]|;
            && (outcome == Throws <==> || ((key == ENTER || IsPrint(key)) && beyond > 0)
                                       || (IsBackspace(key) && beyond > 1))
            && (outcome == Throws ==> s' == s)
  {
  }

  /** An arrow leaves every next key safe exactly when it lands on a line at least as long as the column. */
  lemma ArrowSafeIff(s: State, arrow: int, height: int)
    requires Valid(s) && (arrow == KEY_UP || arrow == KEY_DOWN)
    ensures LandsInside(s, arrow)
       <==> forall next: int :: Run(s, [Key(arrow, height), Key(next, height)]).1 != Throws
  {
    var s' := Step(s, arrow, height).0;
    forall next: int
      ensures Run(s, [Key(arrow, height), Key(next, height)]).1 == Step(s', next, height).1
    {
      RunOfTwo(s, Key(arrow, height), Key(next, height));
    }
    if LandsInside(s, arrow) {
      forall next: int
        ensures Step(s', next, height).1 != Throws
      {
        ThrowsIff(s', next, height);
      }
    } else {
      ThrowsIff(s', ENTER, height);
      assert Run(s, [Key(arrow, height), Key(ENTER, height)]).1 == Throws;
    }
  }

  lemma RunOfTwo(s: State, first: Key, second: Key)
    requires InBounds(s) && Step(s, first.code, first.height).1 == Continue
    ensures var (s', _) := Step(s, first.code, first.height);
            Run(s, [first, second]).1 == Step(s', second.code, second.height).1
  {
    var keys := [first, second];
    var (s', outcome) := Step(s, first.code, first.height);
    assert outcome == Continue && keys[1..] == [second];
    assert Run(s, keys) == Run(s', [second]);
    RunOfOne(s', second);
  }

  lemma RunOfOne(s: State, key: Key)
    requires InBounds(s)
    ensures Run(s, [key]) == Step(s, key.code, key.height)
  {
    assert [key][1..] == [];
  }

  /** Four keys in a new file are enough: Enter, a letter, up, a letter. */
  lemma FourKeysThrow(height: int)
    ensures Run(State([""], 0, 0, 0), [Key(ENTER, height), Key(120, height), Key(KEY_UP, height), Key(121, height)]).1 == Throws
  {
    var keys := [Key(ENTER, height), Key(120, height), Key(KEY_UP, height), Key(121, height)];
    var s0 := State([""], 0, 0, 0);
    var s1 := Step(s0, ENTER, height).0;
    assert s1.lines == ["", ""];
    var s2 := Step(s1, 120, height).0;
    assert s2.lines[0] == "" && s2.col == 1;
    var s3 := Step(s2, KEY_UP, height).0;
    assert Run(s3, keys[3..]).1 == Throws;
    assert keys[2..][1..] == keys[3..];
    assert Run(s2, keys[2..]).1 == Throws;
    assert keys[1..][1..] == keys[2..];
    assert Run(s1, keys[1..]).1 == Throws;
  }

  /** Backspace undoes a printed character, cursor and all. */
  lemma BackspaceUndoesPrintable(s: State, key: int, back: int, height: int)
    requires Valid(s) && IsPrint(key) && IsBackspace(back)
    ensures Step(Step(s, key, height).0, back, height) == (s, Continue)
  {
    var s1 := Step(s, key, height).0;
    var s2 := Step(s1, back, height).0;
    var line := s.lines[s.row];
    assert s1.lines[s.row][..s.col] + s1.lines[s.row][s.col + 1..] == line;
    assert s2.lines == s.lines;
  }

  /** Backspace undoes Enter. */
  lemma BackspaceUndoesEnter(s: State, back: int, height: int)
    requires Valid(s) && IsBackspace(back)
    ensures Step(Step(s, ENTER, height).0, back, height) == (s, Continue)
  {
    var s1 := Step(s, ENTER, height).0;
    var s2 := Step(s1, back, height).0;
    var line := s.lines[s.row];
    assert line[..s.col] + line[s.col..] == line;
    assert s2.lines == s.lines;
  }

  /** The lines drawn are scroll .. scroll + height - 6. */
  predicate CursorVisible(s: State, height: int) {
    s.scroll <= s.row < s.scroll + (height - 6)
  }

  /** Arrow keys keep a visible cursor visible, and scroll only when they must. */
  lemma ArrowsKeepCursorVisible(s: State, key: int, height: int)
    requires InBounds(s) && CursorVisible(s, height) && (key == KEY_UP || key == KEY_DOWN)
    ensures var s' := Step(s, key, height).0;
            && CursorVisible(s', height)
            && (CursorVisible(s'.(scroll := s.scroll), height) ==> s'.scroll == s.scroll)
  {
  }

  // ------------------------------------------------------------- open and save

  /** The getline loop over a file's content. */
  function SplitLines(content: string): seq<string>
    decreases |content|
  {
    if content == "" then [] else
    var (line, rest) := GetLine(content);
    [line] + SplitLines(rest)
  }

  /** The lines the editor starts with. */
  function OpenLines(content: string): (lines: seq<string>)
    ensures lines != []
  {
    if content == "" then [""] else SplitLines(content)
  }

  lemma SplitStep(content: string)
    requires content != ""
    ensures SplitLines(content) == [GetLine(content).0] + SplitLines(GetLine(content).1)
  {
  }

  lemma SplitFirst(line: string, rest: string)
    requires '\n' !in line
    ensures SplitLines(line + "\n" + rest) == [line] + SplitLines(rest)
  {
    GetLineOf(line, rest);
    SplitStep(line + "\n" + rest);
  }

  lemma SplitLast(line: string)
    requires '\n' !in line
    ensures SplitLines(line) == if line == "" then [] else [line]
  {
    if line != "" {
      LastLine(line);
      SplitStep(line);
    }
  }

  lemma LastLine(line: string)
    requires '\n' !in line
    ensures GetLine(line) == (line, "")
  {
    assert IndexOfChar(line, '\n') == |line| && line[..|line|] == line;
  }

  /** Opening what was saved gives back the same lines. */
  lemma {:induction false} OpenOfSaved(lines: seq<string>)
    requires lines != [] && NewlineFree(lines)
    ensures OpenLines(Terminated(lines)) == lines
  {
    SplitOfSaved(lines);
  }

  lemma {:induction false} SplitOfSaved(lines: seq<string>)
    requires NewlineFree(lines)
    ensures SplitLines(Terminated(lines)) == lines
  {
    if lines != [] {
      SplitOfSaved(lines[1..]);
      SplitFirst(lines[0], Terminated(lines[1..]));
    }
  }

  /** A file's content with a final newline. */
  function WithFinalNewline(content: string): string {
    if content != "" && content[|content| - 1] == '\n' then content else content + "\n"
  }

  lemma FinalNewlineBehind(line: string, rest: string)
    ensures WithFinalNewline(line + "\n" + rest) == line + "\n" + if rest == "" then "" else WithFinalNewline(rest)
  {
    if rest != "" {
      assert (line + "\n" + rest)[|line + "\n" + rest| - 1] == rest[|rest| - 1];
    }
  }

  lemma TerminatedStart(line: string, lines: seq<string>)
    ensures Terminated([line] + lines) == line + "\n" + Terminated(lines)
  {
    assert ([line] + lines)[1..] == lines;
  }

  lemma SavedOfLastLine(line: string)
    requires '\n' !in line
    ensures NewlineFree(OpenLines(line)) && Terminated(OpenLines(line)) == WithFinalNewline(line)
  {
    SplitLast(line);
    TerminatedStart(line, []);
    assert [line] == [line] + [];
    assert OpenLines(line) == [line];
  }

  lemma SavedOfFirstLine(line: string, rest: string)
    requires '\n' !in line
    requires rest != "" ==> NewlineFree(SplitLines(rest)) && Terminated(SplitLines(rest)) == WithFinalNewline(rest)
    ensures NewlineFree(OpenLines(line + "\n" + rest))
    ensures Terminated(OpenLines(line + "\n" + rest)) == WithFinalNewline(line + "\n" + rest)
  {
    SplitFirst(line, rest);
    TerminatedStart(line, SplitLines(rest));
    FinalNewlineBehind(line, rest);
  }

  /** Saving what was opened adds a final newline unless there is one. */
  lemma {:induction false} SavedOfOpen(content: string)
    ensures NewlineFree(OpenLines(content))
    ensures Terminated(OpenLines(content)) == WithFinalNewline(content)
    decreases |content|
  {
    var i := IndexOfChar(content, '\n');
    if i == |content| {
      assert content[..i] == content;
      SavedOfLastLine(content);
    } else {
      var rest := content[i + 1..];
      if rest != "" {
        SavedOfOpen(rest);
      }
      SavedOfFirstLine(content[..i], rest);
      SplitAround(content, i);
    }
  }

  lemma SplitAround(content: string, i: nat)
    requires i < |content| && content[i] == '\n'
    ensures content[..i] + "\n" + content[i + 1..] == content
  {
  }
}
