/**
 Comment stripping for the colour gate: line by line with a flag carried over, against one pass
 over the whole text that looks at a single character at a time.
 */
module CommentStripper {
  import opened Texts

  // ----- one pass over the whole text -----

  // Slash: a slash in code that may start a comment. Star: a star that may end a block.
  datatype Mode = Code | Slash | Line | Block | Star

  function Prepend(s: string, lines: seq<string>): (r: seq<string>)
    requires lines != []
    ensures |r| == |lines|
  {
    lines[0 := s + lines[0]]
  }

  // The code of each line.
  function Scan(text: string, mode: Mode): (lines: seq<string>)
    ensures lines != []
    decreases |text|
  {
    var pending := if mode == Slash then "/" else "";
    if text == "" then [pending]
    else
      var c, rest := text[0], text[1..];
      if c == '\n' then
        [pending] + Scan(rest, if mode == Block || mode == Star then Block else Code)
      else
        match mode
        case Code => if c == '/' then Scan(rest, Slash) else Prepend([c], Scan(rest, Code))
        case Slash =>
          if c == '/' then Scan(rest, Line)
          else if c == '*' then Scan(rest, Block)
          else Prepend(['/', c], Scan(rest, Code))
        case Line => Scan(rest, Line)
        case Block => Scan(rest, if c == '*' then Star else Block)
        case Star => Scan(rest, if c == '/' then Code else if c == '*' then Star else Block)
  }

  function Entry(inBlock: bool): Mode {
    if inBlock then Block else Code
  }

  // ----- one line with the flag -----

  predicate At(s: string, a: char, b: char) {
    |s| >= 2 && s[0] == a && s[1] == b
  }

  // The code of a line, and whether a block goes on after it.
  function StripLine(s: string, inBlock: bool): (r: (string, bool))
    decreases |s|
  {
    if s == "" then ("", inBlock)
    else if inBlock then
      if At(s, '*', '/') then StripLine(s[2..], false) else StripLine(s[1..], true)
    else if At(s, '/', '*') then StripLine(s[2..], true)
    else if At(s, '/', '/') then ("", false)
    else
      var rest := StripLine(s[1..], false);
      ([s[0]] + rest.0, rest.1)
  }

  function StripLines(lines: seq<string>, inBlock: bool): (r: seq<string>)
    ensures |r| == |lines|
  {
    if lines == [] then []
    else
      var first := StripLine(lines[0], inBlock);
      [first.0] + StripLines(lines[1..], first.1)
  }

  // ----- the two agree -----

  // What follows a line: nothing, or the next line.
  predicate EndOfLine(tail: string) {
    tail == "" || tail[0] == '\n'
  }

  lemma {:induction false} LineCommentEnds(s: string, tail: string)
    requires '\n' !in s && EndOfLine(tail)
    ensures Scan(s + tail, Line) == Scan(tail, Code)
  {
    if s == "" {
      assert s + tail == tail;
    } else {
      assert (s + tail)[1..] == s[1..] + tail;
      LineCommentEnds(s[1..], tail);
    }
  }

  lemma StarIsBlock(text: string)
    requires text == "" || text[0] != '/'
    ensures Scan(text, Star) == Scan(text, Block)
  {
  }

  lemma PrependTwice(s: string, t: string, lines: seq<string>)
    requires lines != []
    ensures Prepend(s, Prepend(t, lines)) == Prepend(s + t, lines)
    ensures Prepend("", lines) == lines
  {
    assert s + (t + lines[0]) == s + t + lines[0];
    assert "" + lines[0] == lines[0];
  }

  lemma {:induction false} BlockLine(s: string, tail: string)
    requires s != "" && '\n' !in s && EndOfLine(tail)
    ensures Scan(s + tail, Block) == if At(s, '*', '/') then Scan(s[2..] + tail, Code) else Scan(s[1..] + tail, Block)
  {
    assert (s + tail)[1..] == s[1..] + tail;
    if At(s, '*', '/') {
      assert (s[1..] + tail)[1..] == s[2..] + tail;
    } else if s[0] == '*' {
      StarIsBlock(s[1..] + tail);
    }
  }

  lemma {:induction false} CodeLine(s: string, tail: string)
    requires s != "" && '\n' !in s && EndOfLine(tail) && !At(s, '/', '*') && !At(s, '/', '/')
    ensures Scan(s + tail, Code) == Prepend([s[0]], Scan(s[1..] + tail, Code))
  {
    assert (s + tail)[1..] == s[1..] + tail;
    if s[0] == '/' {
      if |s| == 1 {
        assert s[1..] + tail == tail && "/" + "" == "/";
      } else {
        assert s[1] in s && ['/', s[1]] == ['/'] + [s[1]];
        assert (s[1..] + tail)[1..] == s[2..] + tail;
        PrependTwice(['/'], [s[1]], Scan(s[2..] + tail, Code));
      }
    }
  }

  lemma {:induction false} LineAgrees(s: string, inBlock: bool, tail: string)
    requires '\n' !in s && EndOfLine(tail)
    ensures var r := StripLine(s, inBlock);
            Scan(s + tail, Entry(inBlock)) == Prepend(r.0, Scan(tail, Entry(r.1)))
    decreases |s|
  {
    if s == "" {
      assert s + tail == tail;
      PrependTwice("", "", Scan(tail, Entry(inBlock)));
    } else if inBlock {
      BlockLine(s, tail);
      if At(s, '*', '/') {
        LineAgrees(s[2..], false, tail);
      } else {
        LineAgrees(s[1..], true, tail);
      }
    } else if At(s, '/', '*') {
      assert (s + tail)[1..][1..] == s[2..] + tail;
      LineAgrees(s[2..], true, tail);
    } else if At(s, '/', '/') {
      assert (s + tail)[1..][1..] == s[2..] + tail;
      LineCommentEnds(s[2..], tail);
      PrependTwice("", "", Scan(tail, Code));
    } else {
      CodeLine(s, tail);
      LineAgrees(s[1..], false, tail);
      var r := StripLine(s[1..], false);
      PrependTwice([s[0]], r.0, Scan(tail, Entry(r.1)));
    }
  }

  // After a line comes nothing, or a new line in the same block or in code.
  lemma PrependEnd(s: string, rest: string, inBlock: bool)
    ensures Prepend(s, Scan("", Entry(inBlock))) == [s]
    ensures Prepend(s, Scan(['\n'] + rest, Entry(inBlock))) == [s] + Scan(rest, Entry(inBlock))
  {
    assert (['\n'] + rest)[1..] == rest && s + "" == s;
  }

  lemma StripSplit(line: string, lines: seq<string>, inBlock: bool)
    ensures StripLines([line] + lines, inBlock) == [StripLine(line, inBlock).0] + StripLines(lines, StripLine(line, inBlock).1)
  {
    assert ([line] + lines)[1..] == lines;
  }

  // Stripping the lines one by one gives what the single pass over the text gives.
  lemma {:induction false} LinesAgree(text: string, inBlock: bool)
    ensures StripLines(Split(text, '\n'), inBlock) == Scan(text, Entry(inBlock))
    decreases |text|
  {
    hide Scan;
    hide StripLine;
    hide StripLines;
    hide Prepend;
    hide Split;
    var i := Find(text, '\n');
    var line := text[..i];
    var r := StripLine(line, inBlock);
    if i == |text| {
      assert line == text && text + "" == text;
      SplitNone(text, '\n');
      LineAgrees(line, inBlock, "");
      PrependEnd(r.0, "", r.1);
      StripSplit(line, [], inBlock);
      assert [line] + [] == [line] && StripLines([], r.1) == [];
    } else {
      var rest := text[i + 1..];
      assert text == line + ['\n'] + rest == line + (['\n'] + rest);
      SplitStep(line, '\n', rest);
      LineAgrees(line, inBlock, ['\n'] + rest);
      PrependEnd(r.0, rest, r.1);
      StripSplit(line, Split(rest, '\n'), inBlock);
      LinesAgree(rest, r.1);
    }
  }

  // ----- the same as the code runs it -----

  lemma StripNothing(s: string, inBlock: bool)
    requires s == ""
    ensures StripLine(s, inBlock) == ("", inBlock)
  {
  }

  lemma StripFrom(line: string, i: nat, inBlock: bool)
    requires i < |line|
    ensures var two := if i + 1 < |line| then line[i..i + 2] else "";
            StripLine(line[i..], inBlock) ==
              if inBlock then if two == "*/" then StripLine(line[i + 2..], false) else StripLine(line[i + 1..], true)
              else if two == "/*" then StripLine(line[i + 2..], true)
              else if two == "//" then ("", false)
              else ([line[i]] + StripLine(line[i + 1..], false).0, StripLine(line[i + 1..], false).1)
  {
    var s := line[i..];
    assert s[1..] == line[i + 1..];
    if i + 1 < |line| {
      assert s[2..] == line[i + 2..] && line[i..i + 2] == [s[0], s[1]];
    }
  }

  method StripOneLine(line: string, inBlock: bool) returns (clean: string, inMultiline: bool)
    ensures (clean, inMultiline) == StripLine(line, inBlock)
  {
    hide StripLine;
    clean, inMultiline := "", inBlock;
    var i, n := 0, |line|;
    assert line[0..] == line && clean + StripLine(line, inBlock).0 == StripLine(line, inBlock).0;
    while i < n
      invariant i <= n
      invariant var rest := StripLine(line[i..], inMultiline);
                StripLine(line, inBlock) == (clean + rest.0, rest.1)
    {
      StripFrom(line, i, inMultiline);
      if inMultiline {
        if i + 1 < n && line[i..i + 2] == "*/" {
          inMultiline := false;
          i := i + 2;
        } else {
          i := i + 1;
        }
      } else {
        if i + 1 < n && line[i..i + 2] == "/*" {
          inMultiline := true;
          i := i + 2;
        } else if i + 1 < n && line[i..i + 2] == "//" {
          break;
        } else {
          ghost var rest := StripLine(line[i + 1..], false).0;
          assert clean + ([line[i]] + rest) == clean + [line[i]] + rest;
          clean := clean + [line[i]];
          i := i + 1;
        }
      }
    }
    StripNothing(line[n..], inMultiline);
    assert clean + "" == clean;
  }

  // Every line keeps its number, counted from one, and its order.
  method StripComments(text: string) returns (result: seq<(nat, string)>)
    ensures |result| == |Split(text, '\n')|
    ensures |result| == |Scan(text, Code)|
    ensures forall k :: 0 <= k < |result| ==> result[k] == (k + 1, Scan(text, Code)[k])
  {
    var lines := Split(text, '\n');
    var inMultiline := false;
    result := [];
    LinesAgree(text, false);
    for idx := 0 to |lines|
      invariant |result| == idx
      invariant forall k :: 0 <= k < idx ==> result[k] == (k + 1, StripLines(lines, false)[k])
      invariant StripLines(lines, false)[idx..] == StripLines(lines[idx..], inMultiline)
    {
      assert lines[idx..][1..] == lines[idx + 1..];
      var clean, after := StripOneLine(lines[idx], inMultiline);
      inMultiline := after;
      assert StripLines(lines, false)[idx..][1..] == StripLines(lines, false)[idx + 1..];
      assert StripLines(lines, false)[idx] == StripLines(lines, false)[idx..][0];
      result := result + [(idx + 1, clean)];
    }
  }
}
