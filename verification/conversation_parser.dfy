/**
 * The conversation text parser of src/Conversation.tsx: authored text is
 * split into lines; a line starting with `[` opens a new speaker turn (the
 * whole line, verbatim, is the speaker), every other line is appended, with
 * a line break, to the current turn's text, and text before the first header
 * is dropped.
 */
module ConversationParser {
  import opened Types

  /** `line.startsWith("[")`: the line opens a new speaker turn. */
  predicate IsHeader(line: string) {
    |line| > 0 && line[0] == '['
  }

  /** A line as produced by splitting: it holds no line break. */
  predicate IsLine(line: string) {
    '\n' !in line
  }

  predicate AreLines(xs: seq<string>) {
    forall i :: 0 <= i < |xs| ==> IsLine(xs[i])
  }

  predicate NoHeaders(xs: seq<string>) {
    forall i :: 0 <= i < |xs| ==> !IsHeader(xs[i])
  }

  // ---------------------------------------------------------------------
  // Splitting and joining lines
  // ---------------------------------------------------------------------

  /** The position of the first line break in `s`, or `|s|` when there is none. */
  function FirstNewline(s: string): (i: nat)
    ensures i <= |s|
    ensures IsLine(s[..i])
    ensures i < |s| ==> s[i] == '\n'
  {
    if s == [] || s[0] == '\n' then 0
    else
      var j := FirstNewline(s[1..]);
      assert s[..1 + j] == [s[0]] + s[1..][..j];
      1 + j
  }

  /** `s.split("\n")`: the pieces between line breaks, at least one. */
  function Split(s: string): (lines: seq<string>)
    ensures |lines| >= 1
    ensures AreLines(lines)
    decreases |s|
  {
    var i := FirstNewline(s);
    if i == |s| then
      assert s[..i] == s;
      [s]
    else
      [s[..i]] + Split(s[i + 1..])
  }

  /** Every line followed by a line break, concatenated. */
  function Unlines(xs: seq<string>): string {
    if xs == [] then "" else Unlines(xs[..|xs| - 1]) + xs[|xs| - 1] + "\n"
  }

  /** `xs.join("\n")`: the lines with a line break between each two. */
  function JoinLines(xs: seq<string>): string
    requires xs != []
  {
    if |xs| == 1 then xs[0] else JoinLines(xs[..|xs| - 1]) + "\n" + xs[|xs| - 1]
  }

  lemma {:induction false} UnlinesJoinLines(xs: seq<string>)
    requires xs != []
    ensures Unlines(xs) == JoinLines(xs) + "\n"
    decreases |xs|
  {
    if |xs| == 1 {
      assert xs[..0] == [];
    } else {
      UnlinesJoinLines(xs[..|xs| - 1]);
    }
  }

  /** Joining lines without breaks and splitting the result gives them back. */
  lemma SplitJoinLines(xs: seq<string>)
    requires xs != [] && AreLines(xs)
    ensures Split(JoinLines(xs)) == xs
  {
    UnlinesJoinLines(xs);
    SplitOfUnlines(xs, JoinLines(xs));
  }

  /** Splitting and joining back gives the text unchanged. */
  lemma JoinLinesSplit(s: string)
    ensures JoinLines(Split(s)) == s
  {
    SplitUnlines(s);
    UnlinesJoinLines(Split(s));
    assert JoinLines(Split(s)) + "\n" == s + "\n";
    assert JoinLines(Split(s)) == (JoinLines(Split(s)) + "\n")[..|s|];
  }

  lemma {:induction false} UnlinesAppend(xs: seq<string>, ys: seq<string>)
    ensures Unlines(xs + ys) == Unlines(xs) + Unlines(ys)
    decreases |ys|
  {
    if ys != [] {
      var n := |ys| - 1;
      assert (xs + ys)[..|xs + ys| - 1] == xs + ys[..n];
      UnlinesAppend(xs, ys[..n]);
    } else {
      assert xs + ys == xs;
    }
  }

  /** Unlines of a line in front of others. */
  lemma UnlinesCons(x: string, ys: seq<string>)
    ensures Unlines([x] + ys) == x + "\n" + Unlines(ys)
  {
    UnlinesAppend([x], ys);
    assert [x][..0] == [];
    assert Unlines([x]) == x + "\n";
  }

  /** Split at the first line break: the line before it, then the rest split. */
  lemma SplitAtBreak(s: string)
    requires FirstNewline(s) < |s|
    ensures var i := FirstNewline(s);
      s == s[..i] + "\n" + s[i + 1..] && Split(s) == [s[..i]] + Split(s[i + 1..])
  {
    var i := FirstNewline(s);
    BreakAt(s, i);
  }

  /** A text is the part before a line break, the break, and the part after it. */
  lemma BreakAt(s: string, i: int)
    requires 0 <= i < |s| && s[i] == '\n'
    ensures s == s[..i] + "\n" + s[i + 1..]
  {
    assert s == s[..i] + s[i..];
    assert s[i..] == [s[i]] + s[i + 1..];
  }

  /** Splitting and then re-joining gives back the text with one extra line break. */
  lemma {:induction false} SplitUnlines(s: string)
    ensures Unlines(Split(s)) == s + "\n"
    decreases |s|
  {
    var i := FirstNewline(s);
    if i == |s| {
      assert s[..i] == s;
      UnlinesCons(s, []);
    } else {
      var line, rest := s[..i], s[i + 1..];
      SplitAtBreak(s);
      SplitUnlines(rest);
      UnlinesCons(line, Split(rest));
      Regroup(line, rest);
    }
  }

  /** Proof hint: a concatenation regrouped (see the note at AppendLine). */
  lemma Regroup(line: string, rest: string)
    ensures line + "\n" + (rest + "\n") == (line + "\n" + rest) + "\n"
  {
  }

  /** Split is the inverse of Unlines: lines without breaks are recovered exactly. */
  lemma {:induction false} SplitOfUnlines(xs: seq<string>, s: string)
    requires xs != [] && AreLines(xs)
    requires Unlines(xs) == s + "\n"
    ensures Split(s) == xs
    decreases |xs|
  {
    var x, rest := xs[0], xs[1..];
    assert [x] + rest == xs;
    UnlinesCons(x, rest);
    assert IsLine(x);
    if rest == [] {
      assert x + "\n" == s + "\n";
      assert s == (s + "\n")[..|s|] == (x + "\n")[..|x|] == x;
      NoBreakMeansWhole(s);
    } else {
      var u := Unlines(rest);
      assert u == Unlines(rest[..|rest| - 1]) + rest[|rest| - 1] + "\n";
      var t := u[..|u| - 1];
      assert u == t + "\n";
      Regroup(x, t);
      assert s == (s + "\n")[..|s|] == ((x + "\n" + t) + "\n")[..|x + "\n" + t|] == x + "\n" + t;
      FirstBreakAfter(x, t);
      assert s[..|x|] == x;
      assert s[|x| + 1..] == t;
      assert AreLines(rest);
      SplitOfUnlines(rest, t);
    }
  }

  lemma NoBreakMeansWhole(s: string)
    requires IsLine(s)
    ensures FirstNewline(s) == |s|
  {
  }

  lemma {:induction false} FirstBreakAfter(x: string, t: string)
    requires IsLine(x)
    ensures FirstNewline(x + "\n" + t) == |x|
    decreases |x|
  {
    var s := x + "\n" + t;
    if x != [] {
      assert x[0] in x;
      assert s[1..] == x[1..] + "\n" + t;
      FirstBreakAfter(x[1..], t);
    }
  }

  // ---------------------------------------------------------------------
  // The parse, as a function of the split lines
  // ---------------------------------------------------------------------

  /** The lines that open a speaker turn, in order. */
  function Headers(xs: seq<string>): (hs: seq<string>)
    ensures forall i :: 0 <= i < |hs| ==> IsHeader(hs[i])
    ensures |hs| <= |xs|
    ensures NoHeaders(xs) <==> hs == []
  {
    if xs == [] then []
    else
      var init := Headers(xs[..|xs| - 1]);
      assert forall i :: 0 <= i < |xs| - 1 ==> xs[..|xs| - 1][i] == xs[i];
      if IsHeader(xs[|xs| - 1]) then init + [xs[|xs| - 1]] else init
  }

  /** The longest prefix of `xs` without a header: the text the parser discards. */
  function Preamble(xs: seq<string>): (p: seq<string>)
    ensures |p| <= |xs| && p == xs[..|p|]
    ensures NoHeaders(p)
    ensures |p| < |xs| ==> IsHeader(xs[|p|])
  {
    if NoHeaders(xs) then xs
    else
      var init := xs[..|xs| - 1];
      var p := Preamble(init);
      assert init[..|p|] == xs[..|p|];
      assert |p| == |init| ==> IsHeader(xs[|xs| - 1]) by {
        if |p| == |init| && !IsHeader(xs[|xs| - 1]) {
          assert forall i :: 0 <= i < |init| ==> init[..|p|][i] == xs[i];
          assert NoHeaders(xs);
        }
      }
      p
  }

  /** The speakers of a sequence of parsed lines, in order. */
  function Speakers(ls: seq<Line>): (ss: seq<string>)
    ensures |ss| == |ls|
  {
    if ls == [] then [] else Speakers(ls[..|ls| - 1]) + [ls[|ls| - 1].speaker]
  }

  /** Each parsed line written back as its header line followed by its text. */
  function Render(ls: seq<Line>): string {
    if ls == [] then ""
    else Render(ls[..|ls| - 1]) + ls[|ls| - 1].speaker + "\n" + ls[|ls| - 1].text
  }

  /**
   * What the parse loop has produced after reading `xs`, counting the turn
   * still being accumulated: a header opens a turn with empty text, any other
   * line extends the open turn's text, or is dropped when no turn is open.
   */
  function ParseLines(xs: seq<string>): seq<Line> {
    if xs == [] then []
    else
      var init := ParseLines(xs[..|xs| - 1]);
      var line := xs[|xs| - 1];
      if IsHeader(line) then init + [Line(line, "")]
      else if init == [] then []
      else
        var last := init[|init| - 1];
        init[..|init| - 1] + [Line(last.speaker, last.text + line + "\n")]
  }

  /** The lines of the sample conversation the editor starts with (src/Conversation.tsx). */
  const TestConversationLines: seq<string> := [
    "",
    "[SPEAKER1]",
    "Hello my name is speaker one",
    "",
    "",
    "[SPEAKER2]",
    "Hello my name is speaker two",
    "",
    "",
    "[SPEAKER3]",
    "Hello my name is speaker three",
    ""
  ]

  /** The sample conversation the editor starts with (src/Conversation.tsx):
      a line break, then three speaker blocks, the first two followed by
      two blank lines. */
  const TestConversation: string :=
    "\n"
    + "[SPEAKER1]" + "\n"
    + "Hello my name is speaker one" + "\n\n\n"
    + "[SPEAKER2]" + "\n"
    + "Hello my name is speaker two" + "\n\n\n"
    + "[SPEAKER3]" + "\n"
    + "Hello my name is speaker three" + "\n"

  // ---------------------------------------------------------------------
  // The parser as the source runs it
  // ---------------------------------------------------------------------

  /** The turns read so far, with the open turn, if any, closed. */
  function Pending(parsed: seq<Line>, speaker: string, text: string): seq<Line> {
    if speaker == "" then [] else parsed + [Line(speaker, text)]
  }

  /** Reading one more line, as the parse loop does it. */
  lemma ParseOneMore(lines: seq<string>, i: int, parsed: seq<Line>, speaker: string, text: string)
    requires 0 <= i < |lines|
    requires speaker == "" ==> parsed == []
    requires ParseLines(lines[..i]) == Pending(parsed, speaker, text)
    ensures IsHeader(lines[i]) ==>
      ParseLines(lines[..i + 1]) == Pending(if speaker != "" then parsed + [Line(speaker, text)] else parsed, lines[i], "")
    ensures !IsHeader(lines[i]) ==>
      ParseLines(lines[..i + 1]) == Pending(parsed, speaker, text + lines[i] + "\n")
  {
    assert lines[..i + 1][..i] == lines[..i];
    var init := Pending(parsed, speaker, text);
    if !IsHeader(lines[i]) && speaker != "" {
      assert init[..|init| - 1] == parsed;
    }
  }

  /** The parse of `conversationText`, computed by one pass over its lines. */
  method Parse(conversationText: string) returns (parsed: seq<Line>)
    ensures parsed == ParseLines(Split(conversationText))
    ensures |parsed| == |Headers(Split(conversationText))|
  {
    var lines := Split(conversationText);
    parsed := [];
    var currentSpeaker := "";
    var currentText := "";
    for i := 0 to |lines|
      invariant currentSpeaker == "" ==> parsed == []
      invariant ParseLines(lines[..i]) == Pending(parsed, currentSpeaker, currentText)
    {
      var line := lines[i];
      ParseOneMore(lines, i, parsed, currentSpeaker, currentText);
      if |line| > 0 && line[0] == '[' {
        if currentSpeaker != "" {
          parsed := parsed + [Line(currentSpeaker, currentText)];
        }
        currentSpeaker := line;
        currentText := "";
      } else {
        currentText := currentText + line + "\n";
      }
    }
    assert lines[..|lines|] == lines;
    if currentSpeaker != "" {
      parsed := parsed + [Line(currentSpeaker, currentText)];
    }
    ParseSpeakers(lines);
  }

  // ---------------------------------------------------------------------
  // What the parse promises
  // ---------------------------------------------------------------------

  /**
   * One parsed line per header line, in source order, whose speaker is the
   * header line verbatim.
   */
  lemma {:induction false} ParseSpeakers(xs: seq<string>)
    ensures Speakers(ParseLines(xs)) == Headers(xs)
    ensures |ParseLines(xs)| == |Headers(xs)|
    decreases |xs|
  {
    if xs != [] {
      var ys := xs[..|xs| - 1];
      var line := xs[|xs| - 1];
      var init := ParseLines(ys);
      ParseSpeakers(ys);
      if !IsHeader(line) && init != [] {
        var p := ParseLines(xs);
        assert p[..|p| - 1] == init[..|init| - 1];
      }
    }
  }

  /** Text without any header line yields no parsed lines at all. */
  lemma NoHeaderNoLines(s: string)
    requires NoHeaders(Split(s))
    ensures ParseLines(Split(s)) == []
  {
    ParseSpeakers(Split(s));
  }

  /**
   * Round trip: the discarded preamble lines followed by every parsed line
   * written back as `speaker + "\n" + text` give back all the input lines, each
   * followed by a line break.
   */
  lemma {:induction false} ParseRender(xs: seq<string>)
    ensures Unlines(Preamble(xs)) + Render(ParseLines(xs)) == Unlines(xs)
    decreases |xs|
  {
    if NoHeaders(xs) {
      ParseSpeakers(xs);
      assert ParseLines(xs) == [] && Preamble(xs) == xs;
      assert Unlines(xs) + "" == Unlines(xs);
    } else {
      var ys := xs[..|xs| - 1];
      ParseRender(ys);
      assert Preamble(xs) == Preamble(ys);
      assert ys + [xs[|xs| - 1]] == xs;
      ParseRenderStep(ys, xs[|xs| - 1]);
    }
  }

  /** The inductive step of ParseRender: one more line after a text that has a header. */
  lemma ParseRenderStep(ys: seq<string>, line: string)
    requires !NoHeaders(ys + [line])
    requires Unlines(Preamble(ys)) + Render(ParseLines(ys)) == Unlines(ys)
    ensures Unlines(Preamble(ys)) + Render(ParseLines(ys + [line])) == Unlines(ys + [line])
  {
    var xs := ys + [line];
    assert xs[..|xs| - 1] == ys;
    assert Unlines(xs) == Unlines(ys) + line + "\n";
    var r := Render(ParseLines(xs));
    assert r == Render(ParseLines(ys)) + line + "\n" by {
      if IsHeader(line) {
        RenderSnoc(ParseLines(ys), Line(line, ""));
      } else {
        assert !NoHeaders(ys) by {
          var k :| 0 <= k < |xs| && IsHeader(xs[k]);
          assert k < |ys| && ys[k] == xs[k];
        }
        ParseSpeakers(ys);
        RenderExtendLast(ParseLines(ys), line);
      }
    }
    AppendLine(Unlines(Preamble(ys)), Render(ParseLines(ys)), line);
  }

  /** Rendering after extending the last turn's text by one line. */
  lemma RenderExtendLast(init: seq<Line>, line: string)
    requires init != []
    ensures var last := init[|init| - 1];
            Render(init[..|init| - 1] + [Line(last.speaker, last.text + line + "\n")]) ==
            Render(init) + line + "\n"
  {
    var last := init[|init| - 1];
    var prev := init[..|init| - 1];
    assert init == prev + [last];
    RenderSnoc(prev, last);
    RenderSnoc(prev, Line(last.speaker, last.text + line + "\n"));
    AppendLine(Render(prev) + last.speaker + "\n", last.text, line);
  }

  // Regroup and AppendLine are proof hints only: each states one regrouping
  // of a concatenation over plain variables. Asserting the same equation
  // inline, where the operands are recursive calls, leaves the solver far
  // more terms to match and runs out of resource.
  lemma AppendLine(a: string, b: string, line: string)
    ensures a + (b + line + "\n") == a + b + line + "\n"
  {
  }

  lemma RenderSnoc(ls: seq<Line>, l: Line)
    ensures Render(ls + [l]) == Render(ls) + l.speaker + "\n" + l.text
  {
    assert (ls + [l])[..|ls|] == ls;
  }

  /** The round trip for whole texts: preamble plus rendering is the text plus one line break. */
  lemma ParseRoundTrip(s: string)
    ensures Unlines(Preamble(Split(s))) + Render(ParseLines(Split(s))) == s + "\n"
  {
    ParseRender(Split(s));
    SplitUnlines(s);
  }

  /**
   * The text of a turn: empty or ending in a line break, and none of its lines
   * starts with `[` (a character at the start of the text or right after a
   * line break is never `[`).
   */
  predicate WellFormedText(t: string) {
    (t == [] || t[|t| - 1] == '\n') && forall j | 0 <= j < |t| && LineStart(t, j) :: t[j] != '['
  }

  /** Position `j` of `t` begins one of its lines. */
  predicate LineStart(t: string, j: int) {
    0 <= j < |t| && (j == 0 || t[j - 1] == '\n')
  }

  lemma ExtendText(t: string, line: string)
    requires WellFormedText(t) && IsLine(line) && !IsHeader(line)
    ensures WellFormedText(t + line + "\n")
  {
    var u := t + line + "\n";
    assert u[|u| - 1] == '\n';
    forall j | 0 <= j < |u|
      ensures LineStart(u, j) ==> u[j] != '['
    {
      if j < |t| {
        assert u[j] == t[j];
        assert j > 0 ==> u[j - 1] == t[j - 1];
        assert LineStart(u, j) ==> LineStart(t, j);
      } else if j == |t| {
        if |line| > 0 {
          assert u[j] == line[0] && line[0] != '[';
        } else {
          assert u[j] == '\n';
        }
      } else if j < |t| + |line| {
        assert u[j - 1] == line[j - 1 - |t|];
        assert line[j - 1 - |t|] in line;
      } else {
        assert u[j] == '\n';
      }
    }
  }

  /** Every parsed text is well formed: it is made of whole non-header lines. */
  lemma {:induction false} ParseTexts(xs: seq<string>)
    requires AreLines(xs)
    ensures forall i :: 0 <= i < |ParseLines(xs)| ==> WellFormedText(ParseLines(xs)[i].text)
    decreases |xs|
  {
    if xs != [] {
      var ys := xs[..|xs| - 1];
      var line := xs[|xs| - 1];
      assert forall i :: 0 <= i < |ys| ==> ys[i] == xs[i];
      ParseTexts(ys);
      var init := ParseLines(ys);
      if !IsHeader(line) && init != [] {
        ExtendText(init[|init| - 1].text, line);
      }
    }
  }

  /** A header followed by non-header lines parses to one more line, whose
      text is those lines, each ended by a line break. */
  lemma {:induction false} ParseBlock(xs: seq<string>, h: string, body: seq<string>)
    requires IsHeader(h) && NoHeaders(body)
    ensures ParseLines(xs + [h] + body) == ParseLines(xs) + [Line(h, Unlines(body))]
    decreases |body|
  {
    if body == [] {
      assert xs + [h] + body == xs + [h];
      assert (xs + [h])[..|xs|] == xs;
    } else {
      var b := body[..|body| - 1];
      var l := body[|body| - 1];
      assert !IsHeader(l);
      ParseBlock(xs, h, b);
      var all := xs + [h] + body;
      assert all[..|all| - 1] == xs + [h] + b;
      assert all[|all| - 1] == l;
    }
  }

  /** Three header blocks after a blank first line parse to three lines. */
  lemma ParseThreeBlocks(h1: string, b1: seq<string>, h2: string, b2: seq<string>, h3: string, b3: seq<string>)
    requires IsHeader(h1) && IsHeader(h2) && IsHeader(h3)
    requires NoHeaders(b1) && NoHeaders(b2) && NoHeaders(b3)
    ensures ParseLines([""] + [h1] + b1 + [h2] + b2 + [h3] + b3)
         == [Line(h1, Unlines(b1)), Line(h2, Unlines(b2)), Line(h3, Unlines(b3))]
  {
    var p0 := [""];
    var p1 := p0 + [h1] + b1;
    var p2 := p1 + [h2] + b2;
    assert ParseLines(p0) == [] by {
      assert p0[..0] == [];
    }
    ParseBlock(p0, h1, b1);
    ParseBlock(p1, h2, b2);
    ParseBlock(p2, h3, b3);
  }

  lemma TextThenOneBlank(a: string)
    ensures Unlines([a, ""]) == a + "\n\n"
  {
    assert [a, ""][..1] == [a];
    assert [a][..0] == [];
    assert Unlines([a]) == a + "\n";
  }

  lemma TextThenTwoBlanks(a: string)
    ensures Unlines([a, "", ""]) == a + "\n\n\n"
  {
    assert [a, "", ""][..2] == [a, ""];
    TextThenOneBlank(a);
  }

  lemma UnlinesSingle(x: string)
    ensures Unlines([x]) == x + "\n"
  {
    assert [x][..0] == [];
  }

  /** A header and its block appended, each line followed by a line break. */
  lemma UnlinesHeaderBlock(xs: seq<string>, h: string, body: seq<string>)
    ensures Unlines(xs + [h] + body) == Unlines(xs) + (h + "\n") + Unlines(body)
  {
    UnlinesSingle(h);
    UnlinesAppend(xs, [h]);
    UnlinesAppend(xs + [h], body);
  }

  /** A blank line and three blocks, each line followed by a line break. */
  lemma UnlinesBlocks(h1: string, b1: seq<string>, h2: string, b2: seq<string>, h3: string, b3: seq<string>)
    ensures Unlines([""] + [h1] + b1 + [h2] + b2 + [h3] + b3)
         == "\n" + (h1 + "\n") + Unlines(b1) + (h2 + "\n") + Unlines(b2) + (h3 + "\n") + Unlines(b3)
  {
    UnlinesSingle("");
    UnlinesHeaderBlock([""], h1, b1);
    UnlinesHeaderBlock([""] + [h1] + b1, h2, b2);
    UnlinesHeaderBlock([""] + [h1] + b1 + [h2] + b2, h3, b3);
  }

  /** Each sample line followed by a line break gives the sample text
      with one more line break. */
  lemma SampleUnlines()
    ensures Unlines(TestConversationLines) == TestConversation + "\n"
  {
    SampleBlocks();
    var one, two, three := "Hello my name is speaker one", "Hello my name is speaker two", "Hello my name is speaker three";
    UnlinesBlocks("[SPEAKER1]", [one, "", ""], "[SPEAKER2]", [two, "", ""], "[SPEAKER3]", [three, ""]);
    TextThenTwoBlanks(one);
    TextThenTwoBlanks(two);
    TextThenOneBlank(three);
  }

  /** No sample line contains a line break. */
  lemma SampleAreLines()
    ensures AreLines(TestConversationLines)
  {
  }

  /** The sample text is its twelve lines joined by line breaks. */
  lemma SampleJoined()
    ensures JoinLines(TestConversationLines) == TestConversation
  {
    SampleUnlines();
    UnlinesJoinLines(TestConversationLines);
    var j := JoinLines(TestConversationLines);
    assert j == (j + "\n")[..|j|];
  }

  /** The sample conversation splits into its twelve lines. */
  lemma SampleLines()
    ensures Split(TestConversation) == TestConversationLines
  {
    SampleAreLines();
    SampleUnlines();
    SplitOfUnlines(TestConversationLines, TestConversation);
  }

  /** The sample's lines: a blank line, then three header blocks. */
  lemma SampleBlocks()
    ensures TestConversationLines
         == [""] + ["[SPEAKER1]"] + ["Hello my name is speaker one", "", ""]
          + ["[SPEAKER2]"] + ["Hello my name is speaker two", "", ""]
          + ["[SPEAKER3]"] + ["Hello my name is speaker three", ""]
  {
  }

  /** The sample conversation parses to its three speakers, in order; each
      text keeps the blank lines that follow it. */
  lemma SampleConversation()
    ensures ParseLines(Split(TestConversation)) == [
      Line("[SPEAKER1]", "Hello my name is speaker one" + "\n\n\n"),
      Line("[SPEAKER2]", "Hello my name is speaker two" + "\n\n\n"),
      Line("[SPEAKER3]", "Hello my name is speaker three" + "\n\n")]
  {
    SampleLines();
    SampleBlocks();
    var one, two, three := "Hello my name is speaker one", "Hello my name is speaker two", "Hello my name is speaker three";
    ParseThreeBlocks("[SPEAKER1]", [one, "", ""], "[SPEAKER2]", [two, "", ""], "[SPEAKER3]", [three, ""]);
    TextThenTwoBlanks(one);
    TextThenTwoBlanks(two);
    TextThenOneBlank(three);
  }
}
