/** Text cut into lines and put together again. */
module TextLines {
  import opened Text

  /** The first line end at or after `from`, or the end of the text. */
  function LineEnd(s: string, from: nat): (r: nat)
    requires from <= |s|
    ensures from <= r <= |s|
    ensures r < |s| ==> s[r] == '\n'
    decreases |s| - from
  {
    if from == |s| || s[from] == '\n' then from else LineEnd(s, from + 1)
  }

  /** The lines of a text; a line end at the very end opens no further line. */
  function Lines(s: string): seq<string>
    decreases |s|
  {
    if s == "" then []
    else
      var end := LineEnd(s, 0);
      [s[..end]] + (if end < |s| then Lines(s[end + 1..]) else [])
  }

  /** The lines with a line end after each. */
  function Render(lines: seq<string>): string {
    if lines == [] then "" else lines[0] + "\n" + Render(lines[1..])
  }

  predicate OneLine(line: string) {
    forall i :: 0 <= i < |line| ==> line[i] != '\n'
  }

  lemma {:induction false} LineEndIsFirst(s: string, from: nat, at: nat)
    requires from <= at <= |s| && (at < |s| ==> s[at] == '\n') && forall i :: from <= i < at ==> s[i] != '\n'
    ensures LineEnd(s, from) == at
    decreases at - from
  {
    if from < at {
      LineEndIsFirst(s, from + 1, at);
    }
  }

  lemma FirstLine(line: string, rest: string)
    requires OneLine(line)
    ensures Lines(line + "\n" + rest) == [line] + Lines(rest)
  {
    var s := line + "\n" + rest;
    assert s[..|line|] == line && s[|line|] == '\n' && s[|line| + 1..] == rest;
    assert forall i :: 0 <= i < |line| ==> s[i] == line[i];
    LineEndIsFirst(s, 0, |line|);
  }

  lemma {:induction false} RenderedLinesReadBack(lines: seq<string>)
    requires forall i :: 0 <= i < |lines| ==> OneLine(lines[i])
    ensures Lines(Render(lines)) == lines
  {
    if lines == [] {
      assert Lines("") == [];
    } else {
      hide Lines, OneLine;
      RenderedLinesReadBack(lines[1..]);
      FirstLine(lines[0], Render(lines[1..]));
    }
  }

  lemma {:induction false} RenderSnoc(lines: seq<string>, line: string)
    ensures Render(lines + [line]) == Render(lines) + (line + "\n")
  {
    if lines == [] {
      assert ([line])[1..] == [];
    } else {
      assert (lines + [line])[1..] == lines[1..] + [line];
      RenderSnoc(lines[1..], line);
    }
  }

  lemma OnlyLine(line: string)
    requires OneLine(line) && line != ""
    ensures Lines(line) == [line]
  {
    LineEndIsFirst(line, 0, |line|);
    assert line[..|line|] == line;
  }

  lemma RenderOne(line: string)
    ensures Render([line]) == line + "\n"
  {
    assert Render([line][1..]) == "";
  }

  lemma RenderFirst(lines: seq<string>)
    requires lines != []
    ensures Render(lines) == lines[0] + "\n" + Render(lines[1..])
  {
  }

  /** Without the last line end the lines are the same, unless the last one is empty. */
  lemma {:induction false} LastLineEndDoesNotMatter(lines: seq<string>)
    requires lines != [] && lines[|lines| - 1] != "" && forall i :: 0 <= i < |lines| ==> OneLine(lines[i])
    ensures Render(lines) != "" && Lines(Render(lines)[..|Render(lines)| - 1]) == lines
  {
    hide OneLine, Lines, Render;
    var whole := Render(lines);
    if |lines| == 1 {
      assert lines == [lines[0]];
      RenderOne(lines[0]);
      assert whole[..|whole| - 1] == lines[0];
      OnlyLine(lines[0]);
    } else {
      LastLineEndDoesNotMatter(lines[1..]);
      var rest := Render(lines[1..]);
      RenderFirst(lines);
      assert whole[..|whole| - 1] == lines[0] + "\n" + rest[..|rest| - 1];
      FirstLine(lines[0], rest[..|rest| - 1]);
    }
  }
}
