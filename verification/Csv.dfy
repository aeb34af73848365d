/** Rows of cells separated by commas, and documents of rows separated by newlines. */
module Csv {
  const COMMA: char := ','
  const NEWLINE: char := '\n'
  const NUL: char := '\0'

  // ---- What splitting and joining mean ----

  predicate Free(s: string, c: char) {
    c !in s
  }

  /** The position of the first `c`, or the length of the string. */
  function Find(s: string, c: char): (k: nat)
    ensures k <= |s|
  {
    if s == [] || s[0] == c then 0 else 1 + Find(s[1..], c)
  }

  lemma {:induction false} FindMeaning(s: string, c: char)
    ensures Free(s[..Find(s, c)], c)
    ensures Find(s, c) < |s| ==> s[Find(s, c)] == c
    ensures Find(s, c) == |s| <==> Free(s, c)
  {
    if s != [] && s[0] != c {
      FindMeaning(s[1..], c);
      var k := Find(s[1..], c);
      assert s[..k + 1] == [s[0]] + s[1..][..k];
      assert s == [s[0]] + s[1..];
    }
  }

  lemma {:induction false} FindAfterFree(a: string, b: string, c: char)
    requires Free(a, c)
    ensures Find(a + b, c) == |a| + Find(b, c)
  {
    if a == [] {
      assert a + b == b;
    } else {
      assert (a + b)[1..] == a[1..] + b;
      FindAfterFree(a[1..], b, c);
    }
  }

  /** The pieces of a string between its separators. */
  function Split(s: string, c: char): (pieces: seq<string>)
    ensures pieces != []
    decreases |s|
  {
    var k := Find(s, c);
    if k == |s| then [s] else [s[..k]] + Split(s[k + 1..], c)
  }

  function Join(pieces: seq<string>, c: char): string {
    if pieces == [] then ""
    else if |pieces| == 1 then pieces[0]
    else pieces[0] + [c] + Join(pieces[1..], c)
  }

  ghost predicate AllFree(pieces: seq<string>, c: char) {
    forall i :: 0 <= i < |pieces| ==> Free(pieces[i], c)
  }

  lemma {:induction false} JoinSplit(s: string, c: char)
    ensures Join(Split(s, c), c) == s
    ensures AllFree(Split(s, c), c)
    decreases |s|
  {
    var k := Find(s, c);
    FindMeaning(s, c);
    if k < |s| {
      var rest := s[k + 1..];
      JoinSplit(rest, c);
      assert Split(s, c)[1..] == Split(rest, c);
      assert s == s[..k] + [c] + rest;
    } else {
      assert s[..k] == s;
    }
  }

  lemma FindFirst(first: string, rest: string, c: char)
    requires Free(first, c)
    ensures Find(first + ([c] + rest), c) == |first|
    ensures Free(first, c) ==> Find(first, c) == |first|
  {
    FindAfterFree(first, [c] + rest, c);
    FindMeaning(first, c);
  }

  /** A piece without separators, and a separator after it, split off in front of the rest. */
  lemma SplitFirst(first: string, rest: string, c: char)
    requires Free(first, c)
    ensures Split(first, c) == [first]
    ensures Split(first + ([c] + rest), c) == [first] + Split(rest, c)
  {
    hide Find;
    FindFirst(first, rest, c);
    var s := first + ([c] + rest);
    assert s[..|first|] == first && s[|first| + 1..] == rest;
  }

  lemma {:induction false} SplitJoin(pieces: seq<string>, c: char)
    requires pieces != [] && AllFree(pieces, c)
    ensures Split(Join(pieces, c), c) == pieces
  {
    hide Split, Free;
    if |pieces| == 1 {
      SplitFirst(pieces[0], "", c);
    } else {
      var rest := Join(pieces[1..], c);
      assert Join(pieces, c) == pieces[0] + ([c] + rest);
      SplitFirst(pieces[0], rest, c);
      SplitJoin(pieces[1..], c);
    }
  }

  /** What is left of a text read as a C string: everything before the first NUL. */
  function CString(s: string): string {
    s[..Find(s, NUL)]
  }

  lemma CStringOfFree(s: string)
    requires Free(s, NUL)
    ensures CString(s) == s
  {
    FindMeaning(s, NUL);
  }

  // ---- Reading a stream up to a delimiter ----

  class StringStream {
    const content: string
    var pos: nat
    var eof: bool
    var fail: bool

    ghost predicate Valid()
      reads this
    {
      pos <= |content| && (eof ==> pos == |content|) && (fail ==> eof)
    }

    constructor (text: string)
      ensures Valid() && content == CString(text) && pos == 0 && !eof && !fail
    {
      content := CString(text);
      pos := 0;
      eof := false;
      fail := false;
    }

    /** Reads up to the next delimiter, which is taken but not returned. A stream that has ended fails and
        leaves the target as it was; reading nothing at the end of the content fails with an empty target. */
    method GetLine(target: string, delimiter: char) returns (line: string)
      requires Valid()
      modifies this
      ensures Valid()
      ensures old(eof) ==> fail && line == target && unchanged(`pos) && unchanged(`eof)
      ensures !old(eof) ==>
                var rest := content[old(pos)..];
                var k := Find(rest, delimiter);
                && line == rest[..k]
                && eof == (k == |rest|)
                && fail == (rest == "")
                && pos == (if k == |rest| then |content| else old(pos) + k + 1)
    {
      if eof {
        fail := true;
        return target;
      }
      line := "";
      ghost var rest := content[pos..];
      ghost var start := pos;
      while pos < |content| && content[pos] != delimiter
        invariant start <= pos <= |content| && !eof && !fail
        invariant line == content[start..pos]
        invariant Find(rest, delimiter) == |line| + Find(content[pos..], delimiter)
      {
        assert content[pos..][1..] == content[pos + 1..];
        line := line + [content[pos]];
        pos := pos + 1;
      }
      assert line == rest[..|line|];
      if pos == |content| {
        eof := true;
        fail := line == "";
      } else {
        pos := pos + 1;
      }
    }
  }

  // ---- Rows ----

  lemma {:induction false} JoinSnoc(pieces: seq<string>, piece: string, c: char)
    requires pieces != []
    ensures Join(pieces + [piece], c) == Join(pieces, c) + [c] + piece
  {
    if |pieces| == 1 {
      assert (pieces + [piece])[1..] == [piece];
    } else {
      assert (pieces + [piece])[1..] == pieces[1..] + [piece];
      JoinSnoc(pieces[1..], piece, c);
    }
  }

  method RowToString(cells: seq<string>) returns (result: string)
    ensures result == Join(cells, COMMA)
  {
    if |cells| == 0 {
      return "";
    }
    result := cells[0];
    for i := 1 to |cells|
      invariant result == Join(cells[..i], COMMA)
    {
      JoinSnoc(cells[..i], cells[i], COMMA);
      assert cells[..i + 1] == cells[..i] + [cells[i]];
      result := result + [COMMA];
      result := result + cells[i];
    }
    assert cells[..|cells|] == cells;
  }

  /** The pieces of the rest of a text: the next piece, and if a separator follows it, the pieces after. */
  lemma NextPiece(content: string, pos: nat, c: char)
    requires pos <= |content|
    ensures var rest := content[pos..];
            var k := Find(rest, c);
            Split(rest, c) == [rest[..k]] + if k == |rest| then [] else Split(content[pos + k + 1..], c)
  {
    hide Find;
    var rest := content[pos..];
    var k := Find(rest, c);
    if k < |rest| { assert rest[k + 1..] == content[pos + k + 1..]; } else { assert rest[..k] == rest; }
  }

  /** Pieces read so far, the piece just read, and what is still to come make up the whole split. A piece
      that ended with the content is not empty: an empty one at the end makes the reading fail instead. */
  ghost predicate Pending(pieces: seq<string>, piece: string, content: string, c: char, pos: nat, eof: bool, fail: bool)
    requires pos <= |content|
  {
    var whole := Split(content, c);
    if !fail then
      if eof then piece != "" && whole == pieces + [piece] else whole == pieces + [piece] + Split(content[pos..], c)
    else if piece == "" then whole == pieces + [""]
    else pieces != [] && pieces[|pieces| - 1] == piece && whole == pieces
  }

  method ParseRow(line: string) returns (cells: seq<string>)
    ensures cells == Split(CString(line), COMMA)
  {
    hide Split, Find;
    var lineStream := new StringStream(line);
    cells := [];
    assert lineStream.content[0..] == lineStream.content;
    NextPiece(lineStream.content, 0, COMMA);
    var cell := lineStream.GetLine("", COMMA);
    while !lineStream.fail
      invariant lineStream.Valid()
      invariant lineStream.content == CString(line)
      invariant Pending(cells, cell, lineStream.content, COMMA, lineStream.pos, lineStream.eof, lineStream.fail)
      decreases !lineStream.fail, |lineStream.content| - lineStream.pos, !lineStream.eof
    {
      NextPiece(lineStream.content, lineStream.pos, COMMA);
      cells := cells + [cell];
      cell := lineStream.GetLine(cell, COMMA);
    }
    if lineStream.fail && cell == "" {
      cells := cells + [""];
    }
  }

  // ---- Documents ----

  /** The lines of a text: an empty piece after the last newline is not a line. */
  function Lines(text: string): seq<string> {
    var pieces := Split(text, NEWLINE);
    var n := |pieces| - 1;
    if pieces[n] == "" then pieces[..n] else pieces
  }

  function RowsOf(lines: seq<string>): seq<seq<string>> {
    if lines == [] then [] else
      RowsOf(lines[..|lines| - 1]) + [Split(CString(lines[|lines| - 1]), COMMA)]
  }

  function Parsed(text: string): seq<seq<string>> {
    RowsOf(Lines(CString(text)))
  }

  method ParseCsv(csvString: string) returns (rows: seq<seq<string>>)
    ensures rows == Parsed(csvString)
  {
    hide Split, Find;
    var inputStream := new StringStream(csvString);
    rows := [];
    ghost var lines := [];
    assert inputStream.content[0..] == inputStream.content;
    NextPiece(inputStream.content, 0, NEWLINE);
    var line := inputStream.GetLine("", NEWLINE);
    while !inputStream.fail
      invariant inputStream.Valid()
      invariant inputStream.content == CString(csvString)
      invariant rows == RowsOf(lines)
      invariant Pending(lines, line, inputStream.content, NEWLINE, inputStream.pos, inputStream.eof, inputStream.fail)
      decreases !inputStream.fail, |inputStream.content| - inputStream.pos, !inputStream.eof
    {
      NextPiece(inputStream.content, inputStream.pos, NEWLINE);
      var row := ParseRow(line);
      assert (lines + [line])[..|lines|] == lines;
      rows := rows + [row];
      lines := lines + [line];
      line := inputStream.GetLine(line, NEWLINE);
    }
    assert line == "" ==> (lines + [""])[..|lines|] == lines;
  }

  /** Rows printed one to a line. */
  function Printed(rows: seq<seq<string>>): string {
    if rows == [] then "" else Printed(rows[..|rows| - 1]) + Join(rows[|rows| - 1], COMMA) + [NEWLINE]
  }

  method PrintRows(rows: seq<seq<string>>) returns (text: string)
    ensures text == Printed(rows)
  {
    text := "";
    for i := 0 to |rows|
      invariant text == Printed(rows[..i])
    {
      assert rows[..i + 1][..i] == rows[..i];
      var line := RowToString(rows[i]);
      text := text + line + [NEWLINE];
    }
    assert rows[..|rows|] == rows;
  }

  // ---- Round trips ----

  /** A row that splitting could have produced. */
  ghost predicate Clean(cells: seq<string>) {
    cells != [] && AllFree(cells, COMMA) && AllFree(cells, NUL)
  }

  lemma {:induction false} JoinFree(pieces: seq<string>, c: char, d: char)
    requires c != d && AllFree(pieces, d)
    ensures Free(Join(pieces, c), d)
  {
    if |pieces| > 1 { JoinFree(pieces[1..], c, d); }
  }

  lemma {:induction false} SplitFree(s: string, c: char, d: char)
    requires Free(s, d)
    ensures AllFree(Split(s, c), d)
    decreases |s|
  {
    var k := Find(s, c);
    if k < |s| { SplitFree(s[k + 1..], c, d); }
  }

  lemma CStringIsFree(s: string)
    ensures Free(CString(s), NUL)
  {
    FindMeaning(s, NUL);
  }

  /** Printing a row and parsing it gives the row back exactly when it has a cell and no cell holds a
      comma or a NUL. */
  lemma RowRoundTrip(cells: seq<string>)
    ensures Split(CString(Join(cells, COMMA)), COMMA) == cells <==> Clean(cells)
  {
    hide Split, Join, CString;
    var line := CString(Join(cells, COMMA));
    CStringIsFree(Join(cells, COMMA));
    JoinSplit(line, COMMA);
    SplitFree(line, COMMA, NUL);
    if Clean(cells) {
      JoinFree(cells, COMMA, NUL);
      CStringOfFree(Join(cells, COMMA));
      SplitJoin(cells, COMMA);
    }
  }

  /** Parsing a line and printing the row gives back the line up to its first NUL, so the whole line
      exactly when it has none. */
  lemma LineRoundTrip(line: string)
    ensures Join(Split(CString(line), COMMA), COMMA) == CString(line)
    ensures Join(Split(CString(line), COMMA), COMMA) == line <==> Free(line, NUL)
  {
    JoinSplit(CString(line), COMMA);
    FindMeaning(line, NUL);
  }

  function LinesOf(rows: seq<seq<string>>): (lines: seq<string>)
    ensures |lines| == |rows|
  {
    if rows == [] then [] else LinesOf(rows[..|rows| - 1]) + [Join(rows[|rows| - 1], COMMA)]
  }

  /** A text of whole lines is its lines and an empty piece, joined. */
  lemma {:induction false} PrintedIsJoin(rows: seq<seq<string>>)
    ensures Printed(rows) == Join(LinesOf(rows) + [""], NEWLINE)
  {
    if rows != [] {
      var n := |rows| - 1;
      var before, line := LinesOf(rows[..n]), Join(rows[n], COMMA);
      PrintedIsJoin(rows[..n]);
      JoinSnoc(before + [line], "", NEWLINE);
      if before != [] {
        JoinSnoc(before, line, NEWLINE);
        JoinSnoc(before, "", NEWLINE);
      }
    }
  }

  ghost predicate Printable(rows: seq<seq<string>>) {
    forall i :: 0 <= i < |rows| ==> Clean(rows[i]) && AllFree(rows[i], NEWLINE)
  }

  lemma {:induction false} LinesClean(rows: seq<seq<string>>)
    requires Printable(rows)
    ensures AllFree(LinesOf(rows), NUL) && AllFree(LinesOf(rows), NEWLINE)
    ensures RowsOf(LinesOf(rows)) == rows
  {
    hide Join, Split, CString;
    if rows != [] {
      var n := |rows| - 1;
      LinesClean(rows[..n]);
      JoinFree(rows[n], COMMA, NUL);
      JoinFree(rows[n], COMMA, NEWLINE);
      RowRoundTrip(rows[n]);
      assert LinesOf(rows)[..n] == LinesOf(rows[..n]);
    }
  }

  /** Every parsed row is one that can be printed. */
  lemma {:induction false} RowsOfPrintable(lines: seq<string>)
    requires AllFree(lines, NEWLINE)
    ensures Printable(RowsOf(lines))
  {
    hide Split, Find;
    if lines != [] {
      var n := |lines| - 1;
      var line := CString(lines[n]);
      RowsOfPrintable(lines[..n]);
      JoinSplit(line, COMMA);
      CStringIsFree(lines[n]);
      SplitFree(line, COMMA, NUL);
      SplitFree(line, COMMA, NEWLINE);
    }
  }

  /** Printing rows and parsing the text gives the rows back exactly when each of them has a cell and no
      cell holds a comma, a newline or a NUL. */
  lemma DocumentRoundTrip(rows: seq<seq<string>>)
    ensures Parsed(Printed(rows)) == rows <==> Printable(rows)
  {
    hide Join, Split, Find, Printed, RowsOf, LinesOf, CString, Clean;
    var text := CString(Printed(rows));
    JoinSplit(text, NEWLINE);
    RowsOfPrintable(Lines(text));
    if Printable(rows) {
      var pieces := LinesOf(rows) + [""];
      PrintedIsJoin(rows);
      LinesClean(rows);
      JoinFree(pieces, NEWLINE, NUL);
      CStringOfFree(Printed(rows));
      SplitJoin(pieces, NEWLINE);
      assert pieces[..|rows|] == LinesOf(rows);
    }
  }

  lemma {:induction false} RowsOfLines(lines: seq<string>)
    requires AllFree(lines, NUL)
    ensures LinesOf(RowsOf(lines)) == lines
  {
    hide Join, Split, Find, CString;
    if lines != [] {
      var n := |lines| - 1;
      RowsOfLines(lines[..n]);
      CStringOfFree(lines[n]);
      JoinSplit(lines[n], COMMA);
      assert RowsOf(lines)[..|RowsOf(lines)| - 1] == RowsOf(lines[..n]);
    }
  }

  lemma {:induction false} LastPiece(pieces: seq<string>)
    requires pieces != [] && AllFree(pieces, NEWLINE)
    ensures var t := Join(pieces, NEWLINE);
            pieces[|pieces| - 1] == "" <==> t == "" || t[|t| - 1] == NEWLINE
  {
    var n := |pieces| - 1;
    if n > 0 {
      assert pieces == pieces[..n] + [pieces[n]];
      JoinSnoc(pieces[..n], pieces[n], NEWLINE);
    }
    var last := pieces[n];
    assert last != "" ==> last[|last| - 1] in last;
  }

  /** What printing the parsed rows gives: the text up to its first NUL, ended by a newline. */
  lemma PrintedParsed(text: string)
    ensures var t := CString(text);
            Printed(Parsed(text)) == if t == "" || t[|t| - 1] == NEWLINE then t else t + [NEWLINE]
  {
    hide Join, Split, Find, Printed, RowsOf, LinesOf;
    var t := CString(text);
    var pieces := Split(t, NEWLINE);
    var n := |pieces| - 1;
    CStringIsFree(text);
    JoinSplit(t, NEWLINE);
    SplitFree(t, NEWLINE, NUL);
    RowsOfLines(Lines(t));
    PrintedIsJoin(Parsed(text));
    LastPiece(pieces);
    if pieces[n] == "" {
      assert pieces[..n] + [""] == pieces;
    } else {
      JoinSnoc(pieces, "", NEWLINE);
    }
  }

  /** Parsing a text and printing its rows gives the text back exactly when it holds no NUL and its last
      line, if it has any, ends with a newline. */
  lemma TextRoundTrip(text: string)
    ensures Printed(Parsed(text)) == text <==>
            Free(text, NUL) && (text == "" || text[|text| - 1] == NEWLINE)
  {
    hide Printed, Parsed, Find;
    var t := CString(text);
    PrintedParsed(text);
    FindMeaning(text, NUL);
    if !Free(text, NUL) {
      assert text[|t|] == NUL && (t + [NEWLINE])[|t|] == NEWLINE;
    }
  }

  lemma JoinOfTwo(x: string, y: string, c: char)
    ensures Join([x], c) == x && Join([x, y], c) == x + [c] + y
  {
    assert [x, y][1..] == [y];
  }

  lemma PrintedSnoc(rows: seq<seq<string>>, row: seq<string>)
    ensures Printed(rows + [row]) == Printed(rows) + Join(row, COMMA) + [NEWLINE]
  {
    assert (rows + [row])[..|rows|] == rows;
  }

  lemma NothingPrinted()
    ensures Printed([]) == ""
  {
  }

  /** Two rows, on paper. */
  lemma DocumentWitness()
    ensures Printed([["a", "b"], ["c"]]) == "a,b\nc\n"
    ensures Parsed("a,b\nc\n") == [["a", "b"], ["c"]]
  {
    hide Join, Printed, Parsed;
    var rows: seq<seq<string>> := [["a", "b"], ["c"]];
    JoinOfTwo("a", "b", COMMA);
    JoinOfTwo("c", "", COMMA);
    NothingPrinted();
    PrintedSnoc([], ["a", "b"]);
    PrintedSnoc([["a", "b"]], ["c"]);
    assert [] + [["a", "b"]] == [["a", "b"]] && [["a", "b"]] + [["c"]] == rows;
    DocumentRoundTrip(rows);
  }
}
