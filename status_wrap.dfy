/** The two-line layout of the arm's status in the information panel
    (src/main.py, the status section of the panel): a status longer than
    forty characters is split into words, and the words are laid out
    greedily on a first line of at most forty characters, the rest going to
    a second line. */
module StatusWrap {
  import Common

  /** The characters str.split() and str.strip() treat as whitespace. */
  predicate IsSpace(ch: char)
  {
    var c := ch as int;
    || c == 32 || 9 <= c <= 13 || 28 <= c <= 31 || c == 0x85 || c == 0xA0 || c == 0x1680
    || 0x2000 <= c <= 0x200A || c == 0x2028 || c == 0x2029 || c == 0x202F || c == 0x205F || c == 0x3000
  }

  /** The widest first line. */
  const LineWidth: nat := 40

  /** A word: a non-empty run of non-whitespace characters. */
  predicate IsWord(w: string)
  {
    w != [] && forall i | 0 <= i < |w| :: !IsSpace(w[i])
  }

  // ---------------------------------------------------------------------
  // Splitting into words
  // ---------------------------------------------------------------------

  /** The length of the run of non-whitespace characters that ends the string. */
  function WordLength(s: string): (k: nat)
    ensures k <= |s|
    ensures forall i | |s| - k <= i < |s| :: !IsSpace(s[i])
    ensures k < |s| ==> IsSpace(s[|s| - k - 1])
  {
    if s == [] || IsSpace(s[|s| - 1]) then 0 else WordLength(s[..|s| - 1]) + 1
  }

  /** str.split() with no separator: the maximal runs of non-whitespace, in order. */
  function SplitWords(s: string): (ws: seq<string>)
    ensures forall i | 0 <= i < |ws| :: IsWord(ws[i])
    decreases |s|
  {
    if s == [] then []
    else if IsSpace(s[|s| - 1]) then SplitWords(s[..|s| - 1])
    else
      var k := WordLength(s);
      SplitWords(s[..|s| - k]) + [s[|s| - k..]]
  }

  /** The words, each preceded by one space: what appending " " + word to an empty line builds. */
  function Spaced(ws: seq<string>): string
  {
    if ws == [] then "" else Spaced(ws[..|ws| - 1]) + " " + ws[|ws| - 1]
  }

  lemma SpacedSnoc(ws: seq<string>, w: string)
    ensures Spaced(ws + [w]) == Spaced(ws) + " " + w
  {
    assert (ws + [w])[..|ws|] == ws;
  }

  lemma {:induction false} SpacedStartsWithSpace(ws: seq<string>)
    requires ws != []
    ensures |Spaced(ws)| > 0 && Spaced(ws)[0] == ' '
    decreases |ws|
  {
    if |ws| > 1 {
      SpacedStartsWithSpace(ws[..|ws| - 1]);
    }
  }

  lemma {:induction false} WordLengthAfterSpace(p: string, w: string)
    requires forall i | 0 <= i < |w| :: !IsSpace(w[i])
    ensures WordLength(p + " " + w) == |w|
    decreases |w|
  {
    var s := p + " " + w;
    if w != [] {
      assert s[..|s| - 1] == p + " " + w[..|w| - 1];
      WordLengthAfterSpace(p, w[..|w| - 1]);
    } else {
      assert s[|s| - 1] == ' ';
    }
  }

  /** Words laid out with single spaces split back into the same words. */
  lemma {:induction false} SplitSpaced(ws: seq<string>)
    requires forall i | 0 <= i < |ws| :: IsWord(ws[i])
    ensures SplitWords(Spaced(ws)) == ws
    decreases |ws|
  {
    if ws != [] {
      var init, w := ws[..|ws| - 1], ws[|ws| - 1];
      var p := Spaced(init);
      var s := p + " " + w;
      assert Spaced(ws) == s;
      WordLengthAfterSpace(p, w);
      assert s[..|s| - |w|] == p + " ";
      assert s[|s| - |w|..] == w;
      assert (p + " ")[..|p|] == p;
      SplitSpaced(init);
      assert ws == init + [w];
    }
  }

  // ---------------------------------------------------------------------
  // Stripping
  // ---------------------------------------------------------------------

  /** The string without its trailing whitespace. */
  function TrimEnd(s: string): (r: string)
    ensures |r| <= |s| && r == s[..|r|]
    ensures r == [] || !IsSpace(r[|r| - 1])
    ensures forall i | |r| <= i < |s| :: IsSpace(s[i])
  {
    if s != [] && IsSpace(s[|s| - 1]) then TrimEnd(s[..|s| - 1]) else s
  }

  /** The string without its leading whitespace. */
  function TrimStart(s: string): (r: string)
    ensures |r| <= |s| && r == s[|s| - |r|..]
    ensures r == [] || !IsSpace(r[0])
    ensures forall i | 0 <= i < |s| - |r| :: IsSpace(s[i])
  {
    if s != [] && IsSpace(s[0]) then TrimStart(s[1..]) else s
  }

  /** str.strip() with no argument: the result neither starts nor ends with
      whitespace, and it has the same words as the input. */
  function Strip(s: string): (r: string)
    ensures |r| <= |s|
    ensures r == [] || (!IsSpace(r[0]) && !IsSpace(r[|r| - 1]))
    ensures SplitWords(r) == SplitWords(s)
  {
    var t := TrimStart(s);
    SplitWordsTrimStart(s);
    SplitWordsTrimEnd(t);
    TrimEnd(t)
  }

  lemma {:induction false} SplitWordsTrimEnd(s: string)
    ensures SplitWords(TrimEnd(s)) == SplitWords(s)
    decreases |s|
  {
    if s != [] && IsSpace(s[|s| - 1]) {
      SplitWordsTrimEnd(s[..|s| - 1]);
    }
  }

  lemma {:induction false} WordLengthDropFirst(s: string)
    requires s != [] && WordLength(s) < |s|
    ensures WordLength(s[1..]) == WordLength(s)
    decreases |s|
  {
    var n := |s|;
    if !IsSpace(s[n - 1]) {
      var u := s[..n - 1];
      WordLengthDropFirst(u);
      assert s[1..][..n - 2] == u[1..];
    }
  }

  /** A leading whitespace character does not change the words. */
  lemma {:induction false} SplitWordsDropLeadingSpace(s: string)
    requires s != [] && IsSpace(s[0])
    ensures SplitWords(s[1..]) == SplitWords(s)
    decreases |s|
  {
    var n := |s|;
    if n == 1 {
      assert s[1..] == [];
    } else if IsSpace(s[n - 1]) {
      SplitWordsDropLeadingSpace(s[..n - 1]);
      DropLeadingSpaceBeforeSpace(s);
    } else {
      SplitWordsDropLeadingSpace(s[..n - WordLength(s)]);
      DropLeadingSpaceBeforeWord(s);
    }
  }

  lemma DropLeadingSpaceBeforeSpace(s: string)
    requires |s| > 1 && IsSpace(s[0]) && IsSpace(s[|s| - 1])
    requires SplitWords(s[..|s| - 1][1..]) == SplitWords(s[..|s| - 1])
    ensures SplitWords(s[1..]) == SplitWords(s)
  {
    var t := s[1..];
    assert t[|t| - 1] == s[|s| - 1];
    assert t[..|t| - 1] == s[..|s| - 1][1..];
  }

  lemma DropLeadingSpaceBeforeWord(s: string)
    requires |s| > 1 && IsSpace(s[0]) && !IsSpace(s[|s| - 1])
    requires SplitWords(s[..|s| - WordLength(s)][1..]) == SplitWords(s[..|s| - WordLength(s)])
    ensures SplitWords(s[1..]) == SplitWords(s)
  {
    var n, t, k := |s|, s[1..], WordLength(s);
    WordLengthDropFirst(s);
    assert t[|t| - 1] == s[n - 1];
    assert t[..|t| - k] == s[..n - k][1..];
    assert t[|t| - k..] == s[n - k..];
  }

  lemma {:induction false} SplitWordsTrimStart(s: string)
    ensures SplitWords(TrimStart(s)) == SplitWords(s)
    decreases |s|
  {
    if s != [] && IsSpace(s[0]) {
      SplitWordsDropLeadingSpace(s);
      SplitWordsTrimStart(s[1..]);
    }
  }

  // ---------------------------------------------------------------------
  // Two-line layout
  // ---------------------------------------------------------------------

  /** The greedy layout as written: each word, in turn, joins the first line
      when the first line, a space and the word fit in LineWidth characters,
      and otherwise joins the second line. */
  function Wrap(words: seq<string>): (lines: (seq<string>, seq<string>))
    ensures |Spaced(lines.0)| <= LineWidth
    ensures multiset(lines.0) + multiset(lines.1) == multiset(words)
  {
    if words == [] then ([], [])
    else
      var (first, second) := Wrap(words[..|words| - 1]);
      var w := words[|words| - 1];
      assert words == words[..|words| - 1] + [w];
      assert (first + [w])[..|first|] == first;
      if |Spaced(first) + " " + w| <= LineWidth then (first + [w], second) else (first, second + [w])
  }

  lemma WrapSnoc(ws: seq<string>, w: string)
    ensures var (first, second) := Wrap(ws);
      Wrap(ws + [w]) == if |Spaced(first) + " " + w| <= LineWidth then (first + [w], second) else (first, second + [w])
  {
    assert (ws + [w])[..|ws|] == ws;
  }

  /** Words that fit on one line together all stay on the first line. */
  lemma {:induction false} WrapFits(ws: seq<string>)
    requires |Spaced(ws)| <= LineWidth
    ensures Wrap(ws) == (ws, [])
    decreases |ws|
  {
    if ws != [] {
      var init, w := ws[..|ws| - 1], ws[|ws| - 1];
      assert ws == init + [w];
      SpacedSnoc(init, w);
      WrapFits(init);
      WrapSnoc(init, w);
    }
  }

  /** The layout with every word in its original order: once a word goes to
      the second line, so do all words after it. */
  function WrapInOrder(words: seq<string>): (lines: (seq<string>, seq<string>))
    ensures |Spaced(lines.0)| <= LineWidth
    ensures lines.0 + lines.1 == words
    ensures lines.1 != [] ==> |Spaced(lines.0 + [lines.1[0]])| > LineWidth
  {
    if words == [] then ([], [])
    else
      var (first, second) := WrapInOrder(words[..|words| - 1]);
      var w := words[|words| - 1];
      assert words == words[..|words| - 1] + [w];
      assert (first + [w])[..|first|] == first;
      if second == [] && |Spaced(first) + " " + w| <= LineWidth then (first + [w], second)
      else
        assert (second + [w])[0] == (if second == [] then w else second[0]);
        (first, second + [w])
  }

  lemma WrapInOrderSnoc(ws: seq<string>, w: string)
    ensures var (first, second) := WrapInOrder(ws);
      WrapInOrder(ws + [w]) == if second == [] && |Spaced(first) + " " + w| <= LineWidth then (first + [w], second) else (first, second + [w])
  {
    assert (ws + [w])[..|ws|] == ws;
  }

  /** The words of each line, in line order. */
  function WordsOf(lines: seq<string>): seq<string>
  {
    if lines == [] then [] else WordsOf(lines[..|lines| - 1]) + SplitWords(lines[|lines| - 1])
  }

  /** The lines drawn for a status given a layout of its words. */
  function Layout(status: string, lines: (seq<string>, seq<string>)): (r: seq<string>)
    ensures 1 <= |r| <= 2
    ensures |status| <= LineWidth ==> r == [status]
    ensures |status| > LineWidth ==> |r[0]| <= |Spaced(lines.0)|
  {
    if |status| <= LineWidth then [status]
    else
      var line1, line2 := Spaced(lines.0), Spaced(lines.1);
      [Strip(line1)] + (if line2 != "" then [Strip(line2)] else [])
  }

  /** The lines drawn for a status, as written. */
  function DisplayedLines(status: string): (r: seq<string>)
    ensures 1 <= |r| <= 2 && |r[0]| <= LineWidth
  {
    Layout(status, Wrap(SplitWords(status)))
  }

  /** The lines drawn for a status with the order-keeping layout. */
  function DisplayedLinesInOrder(status: string): (r: seq<string>)
    ensures 1 <= |r| <= 2 && |r[0]| <= LineWidth
  {
    Layout(status, WrapInOrder(SplitWords(status)))
  }

  lemma WordsOfOne(a: string)
    ensures WordsOf([a]) == SplitWords(a)
  {
    assert [a][..0] == [];
  }

  lemma WordsOfTwo(a: string, b: string)
    ensures WordsOf([a, b]) == SplitWords(a) + SplitWords(b)
  {
    assert [a, b][..1] == [a];
    WordsOfOne(a);
  }

  /** A long status is drawn on one or two lines whose words are the words of
      the layout, first line first; the first line has at most LineWidth
      characters. */
  lemma LayoutWords(status: string, lines: (seq<string>, seq<string>))
    requires |status| > LineWidth
    requires forall i | 0 <= i < |lines.0| :: IsWord(lines.0[i])
    requires forall i | 0 <= i < |lines.1| :: IsWord(lines.1[i])
    requires |Spaced(lines.0)| <= LineWidth
    ensures var d := Layout(status, lines);
      && 1 <= |d| <= 2 && |d[0]| <= LineWidth
      && WordsOf(d) == lines.0 + lines.1
  {
    if Spaced(lines.1) != "" {
      LayoutWordsTwoLines(status, lines);
    } else {
      LayoutWordsOneLine(status, lines);
    }
  }

  lemma LayoutWordsTwoLines(status: string, lines: (seq<string>, seq<string>))
    requires |status| > LineWidth && Spaced(lines.1) != ""
    requires forall i | 0 <= i < |lines.0| :: IsWord(lines.0[i])
    requires forall i | 0 <= i < |lines.1| :: IsWord(lines.1[i])
    ensures WordsOf(Layout(status, lines)) == lines.0 + lines.1
  {
    var line1, line2 := Strip(Spaced(lines.0)), Strip(Spaced(lines.1));
    assert Layout(status, lines) == [line1, line2];
    StripSpacedWords(lines.0);
    StripSpacedWords(lines.1);
    WordsOfTwo(line1, line2);
  }

  lemma LayoutWordsOneLine(status: string, lines: (seq<string>, seq<string>))
    requires |status| > LineWidth && Spaced(lines.1) == ""
    requires forall i | 0 <= i < |lines.0| :: IsWord(lines.0[i])
    ensures WordsOf(Layout(status, lines)) == lines.0 + lines.1
  {
    var line1 := Strip(Spaced(lines.0));
    assert Layout(status, lines) == [line1];
    StripSpacedWords(lines.0);
    SpacedEmpty(lines.1);
    WordsOfOne(line1);
    assert lines.0 + lines.1 == lines.0;
  }

  /** A line of words, stripped, splits back into those words. */
  lemma StripSpacedWords(ws: seq<string>)
    requires forall i | 0 <= i < |ws| :: IsWord(ws[i])
    ensures SplitWords(Strip(Spaced(ws))) == ws
  {
    SplitSpaced(ws);
  }

  lemma SpacedEmpty(ws: seq<string>)
    ensures Spaced(ws) == "" <==> ws == []
  {
    if ws != [] {
      SpacedStartsWithSpace(ws);
    }
  }

  lemma WordsOfPart(words: seq<string>, part: seq<string>, other: seq<string>)
    requires forall i | 0 <= i < |words| :: IsWord(words[i])
    requires multiset(part) + multiset(other) == multiset(words)
    ensures forall i | 0 <= i < |part| :: IsWord(part[i])
  {
    forall i | 0 <= i < |part|
      ensures IsWord(part[i])
    {
      assert part[i] in multiset(part);
      assert part[i] in multiset(words);
      var j :| 0 <= j < |words| && words[j] == part[i];
    }
  }

  /** A status of at most LineWidth characters is drawn unchanged on one
      line; a longer one on one or two lines whose first line has at most
      LineWidth characters and which hold exactly the status's words, each
      as often as in the status. */
  lemma DisplayedLinesKeepWords(status: string)
    ensures |status| <= LineWidth ==> DisplayedLines(status) == [status]
    ensures |status| > LineWidth ==>
      var d := DisplayedLines(status);
      && 1 <= |d| <= 2 && |d[0]| <= LineWidth
      && multiset(WordsOf(d)) == multiset(SplitWords(status))
      && WordsOf(d) == Wrap(SplitWords(status)).0 + Wrap(SplitWords(status)).1
  {
    if |status| > LineWidth {
      var words := SplitWords(status);
      var lines := Wrap(words);
      WordsOfPart(words, lines.0, lines.1);
      WordsOfPart(words, lines.1, lines.0);
      LayoutWords(status, lines);
    }
  }

  /** With the order-keeping layout, reading the drawn lines in order gives
      back exactly the status's words in their order. */
  lemma DisplayedLinesInOrderKeepOrder(status: string)
    ensures |status| <= LineWidth ==> DisplayedLinesInOrder(status) == [status]
    ensures |status| > LineWidth ==>
      var d := DisplayedLinesInOrder(status);
      && 1 <= |d| <= 2 && |d[0]| <= LineWidth
      && WordsOf(d) == SplitWords(status)
  {
    if |status| > LineWidth {
      var words := SplitWords(status);
      var lines := WrapInOrder(words);
      assert multiset(lines.0) + multiset(lines.1) == multiset(words) by {
        assert lines.0 + lines.1 == words;
      }
      WordsOfPart(words, lines.0, lines.1);
      WordsOfPart(words, lines.1, lines.0);
      LayoutWords(status, lines);
    }
  }

  /** The first seven words of a status the arm shows while lowering a blue
      object with one more object in the queue. */
  function ExampleHead(): seq<string>
  {
    ["MISSION:", "Blue", "-", "Lower", "to", "drop", "height"]
  }

  /** All the words of that status. */
  function ExampleWords(): seq<string>
  {
    ExampleHead() + ["(+1"] + ["in"] + ["queue)"]
  }

  /** That status: "MISSION: Blue - Lower to drop height (+1 in queue)". */
  function ExampleStatus(): string
  {
    Spaced(ExampleWords())[1..]
  }

  /** The example status in full. */
  lemma ExampleStatusText()
    ensures ExampleStatus() == "MISSION: Blue - Lower to drop height (+1 in queue)"
  {
    var ws := ExampleWords();
    ExampleStatusTextHead();
    assert ws[..6] == ws[..5] + [ws[5]];
    SpacedSnoc(ws[..5], ws[5]);
    assert Spaced(ws[..6])[1..] == "MISSION: Blue - Lower to drop";
    assert ws[..7] == ws[..6] + [ws[6]];
    SpacedSnoc(ws[..6], ws[6]);
    assert Spaced(ws[..7])[1..] == "MISSION: Blue - Lower to drop height";
    assert ws[..8] == ws[..7] + [ws[7]];
    SpacedSnoc(ws[..7], ws[7]);
    assert Spaced(ws[..8])[1..] == "MISSION: Blue - Lower to drop height (+1";
    assert ws[..9] == ws[..8] + [ws[8]];
    SpacedSnoc(ws[..8], ws[8]);
    assert Spaced(ws[..9])[1..] == "MISSION: Blue - Lower to drop height (+1 in";
    assert ws[..10] == ws[..9] + [ws[9]];
    SpacedSnoc(ws[..9], ws[9]);
    assert Spaced(ws[..10])[1..] == "MISSION: Blue - Lower to drop height (+1 in queue)";
    assert ws[..10] == ws;
  }

  lemma ExampleStatusTextHead()
    ensures Spaced(ExampleWords()[..5])[1..] == "MISSION: Blue - Lower to"
  {
    var ws := ExampleWords();
    assert ws[..0] == [];
    assert ws[..1] == ws[..0] + [ws[0]];
    SpacedSnoc(ws[..0], ws[0]);
    assert Spaced(ws[..1])[1..] == "MISSION:";
    assert ws[..2] == ws[..1] + [ws[1]];
    SpacedSnoc(ws[..1], ws[1]);
    assert Spaced(ws[..2])[1..] == "MISSION: Blue";
    assert ws[..3] == ws[..2] + [ws[2]];
    SpacedSnoc(ws[..2], ws[2]);
    assert Spaced(ws[..3])[1..] == "MISSION: Blue -";
    assert ws[..4] == ws[..3] + [ws[3]];
    SpacedSnoc(ws[..3], ws[3]);
    assert Spaced(ws[..4])[1..] == "MISSION: Blue - Lower";
    assert ws[..5] == ws[..4] + [ws[4]];
    SpacedSnoc(ws[..4], ws[4]);
    assert Spaced(ws[..5])[1..] == "MISSION: Blue - Lower to";
  }

  /** "MISSION: Blue - Lower to drop height" laid out with single spaces takes 37 characters. */
  lemma SpacedExampleHeadWidth()
    ensures |Spaced(ExampleHead())| == 37
  {
    var ws := ExampleHead();
    assert ws[..0] == [];
    assert ws[..1] == ws[..0] + [ws[0]];
    SpacedSnoc(ws[..0], ws[0]);
    assert ws[..2] == ws[..1] + [ws[1]];
    SpacedSnoc(ws[..1], ws[1]);
    assert ws[..3] == ws[..2] + [ws[2]];
    SpacedSnoc(ws[..2], ws[2]);
    assert ws[..4] == ws[..3] + [ws[3]];
    SpacedSnoc(ws[..3], ws[3]);
    assert ws[..5] == ws[..4] + [ws[4]];
    SpacedSnoc(ws[..4], ws[4]);
    assert ws[..6] == ws[..5] + [ws[5]];
    SpacedSnoc(ws[..5], ws[5]);
    assert ws == ws[..6] + [ws[6]];
    SpacedSnoc(ws[..6], ws[6]);
  }

  /** The whole example laid out with single spaces is 51 characters wide. */
  lemma SpacedExampleWidth()
    ensures |Spaced(ExampleWords())| == 51
  {
    var head := ExampleHead();
    SpacedExampleHeadWidth();
    SpacedSnoc(head, "(+1");
    SpacedSnoc(head + ["(+1"], "in");
    SpacedSnoc(head + ["(+1"] + ["in"], "queue)");
  }

  lemma ExampleHeadAreWords()
    ensures var ws := ExampleHead();
      forall i | 0 <= i < |ws| :: IsWord(ws[i])
  {
    var ws := ExampleHead();
    assert IsWord(ws[0]) && IsWord(ws[1]) && IsWord(ws[2]) && IsWord(ws[3]);
    assert IsWord(ws[4]) && IsWord(ws[5]) && IsWord(ws[6]);
  }

  lemma ExampleWordsAreWords()
    ensures var ws := ExampleWords();
      forall i | 0 <= i < |ws| :: IsWord(ws[i])
  {
    var ws, head := ExampleWords(), ExampleHead();
    ExampleHeadAreWords();
    assert IsWord("(+1") && IsWord("in") && IsWord("queue)");
    assert ws == head + ["(+1", "in", "queue)"];
  }

  /** The example status is 50 characters long and splits into the example words. */
  lemma ExampleStatusWords()
    ensures SplitWords(ExampleStatus()) == ExampleWords()
    ensures |ExampleStatus()| == 50
  {
    SpacedExampleWidth();
    ExampleWordsAreWords();
    SpacedStartsWithSpace(ExampleWords());
    SplitSpaced(ExampleWords());
    SplitWordsDropLeadingSpace(Spaced(ExampleWords()));
  }

  /** The shape of the example: words filling 37 characters, then a word of
      three characters, one of two and one of six. The three-character word
      does not fit and opens the second line; the two-character word after it
      still fits and joins the first. */
  lemma WrapOvertakes(head: seq<string>, a: string, b: string, c: string)
    requires |Spaced(head)| == 37 && |a| == 3 && |b| == 2 && |c| == 6
    ensures Wrap(head + [a] + [b] + [c]) == (head + [b], [a] + [c])
  {
    WrapFits(head);
    WrapStep(head, a, head, []);
    assert [] + [a] == [a];
    WrapStep(head + [a], b, head, [a]);
    WrapStep(head + [a] + [b], c, head + [b], [a]);
  }

  /** The greedy layout as written reorders the example's words: "(+1" (41
      characters with the first line) goes to the second line, then the
      shorter "in" still fits on the first line, after "height". */
  lemma WrapReordersWords()
    ensures Wrap(ExampleWords()) == (ExampleHead() + ["in"], ["(+1"] + ["queue)"])
    ensures Wrap(ExampleWords()).0 + Wrap(ExampleWords()).1 != ExampleWords()
  {
    SpacedExampleHeadWidth();
    WrapOvertakes(ExampleHead(), "(+1", "in", "queue)");
    ExampleReadOrder();
  }

  /** Read in line order, the greedy lines have "in" where the status has "(+1". */
  lemma ExampleReadOrder()
    ensures (ExampleHead() + ["in"] + (["(+1"] + ["queue)"]))[7] == "in"
    ensures ExampleWords()[7] == "(+1"
  {
  }

  /** Read line by line, the example status as the panel draws it has "in"
      before "(+1": the words come back out of order. */
  lemma DisplayedLinesReorderExample()
    ensures WordsOf(DisplayedLines(ExampleStatus())) == ExampleHead() + ["in"] + (["(+1"] + ["queue)"])
    ensures WordsOf(DisplayedLines(ExampleStatus())) != SplitWords(ExampleStatus())
  {
    ExampleStatusWords();
    WrapReordersWords();
    DisplayedLinesKeepWords(ExampleStatus());
  }

  // ---------------------------------------------------------------------
  // The drawing loop
  // ---------------------------------------------------------------------

  /** One iteration of the drawing loop extends the layout of the words so far by the next word. */
  lemma WrapStep(ws: seq<string>, w: string, first: seq<string>, second: seq<string>)
    requires (first, second) == Wrap(ws)
    ensures Wrap(ws + [w]) ==
      if |Spaced(first) + " " + w| <= LineWidth then (first + [w], second) else (first, second + [w])
    ensures Spaced(first + [w]) == Spaced(first) + " " + w
    ensures Spaced(second + [w]) == Spaced(second) + " " + w
  {
    WrapSnoc(ws, w);
    SpacedSnoc(first, w);
    SpacedSnoc(second, w);
  }

  /** One step of the order-keeping layout. */
  lemma WrapInOrderStep(ws: seq<string>, w: string, first: seq<string>, second: seq<string>)
    requires (first, second) == WrapInOrder(ws)
    ensures WrapInOrder(ws + [w]) ==
      if second == [] && |Spaced(first) + " " + w| <= LineWidth then (first + [w], second) else (first, second + [w])
    ensures Spaced(first + [w]) == Spaced(first) + " " + w
    ensures Spaced(second + [w]) == Spaced(second) + " " + w
    ensures Spaced(second) == "" <==> second == []
  {
    WrapInOrderSnoc(ws, w);
    SpacedSnoc(first, w);
    SpacedSnoc(second, w);
    SpacedEmpty(second);
  }

  /** The status lines the panel draws, built word by word as written. */
  method WrapStatus(status: string) returns (lines: seq<string>)
    ensures lines == DisplayedLines(status)
  {
    if |status| <= LineWidth {
      return [status];
    }
    var words := SplitWords(status);
    var line1, line2 := "", "";
    ghost var first: seq<string>, second: seq<string> := [], [];
    for i := 0 to |words|
      invariant (first, second) == Wrap(words[..i])
      invariant line1 == Spaced(first) && line2 == Spaced(second)
    {
      var word := words[i];
      Common.TakeSnoc(words, i);
      WrapStep(words[..i], word, first, second);
      if |line1 + " " + word| <= LineWidth {
        line1 := line1 + " " + word;
        first := first + [word];
      } else {
        line2 := line2 + " " + word;
        second := second + [word];
      }
    }
    assert words[..|words|] == words;
    assert Wrap(words) == (first, second);
    assert DisplayedLines(status) == Layout(status, (first, second));
    lines := [Strip(line1)];
    if line2 != "" {
      lines := lines + [Strip(line2)];
    }
  }

  /** The drawing loop with the order-keeping layout: once a word has gone to
      the second line, every later word follows it there. */
  method WrapStatusInOrder(status: string) returns (lines: seq<string>)
    ensures lines == DisplayedLinesInOrder(status)
  {
    if |status| <= LineWidth {
      return [status];
    }
    var words := SplitWords(status);
    var line1, line2 := "", "";
    ghost var first: seq<string>, second: seq<string> := [], [];
    for i := 0 to |words|
      invariant (first, second) == WrapInOrder(words[..i])
      invariant line1 == Spaced(first) && line2 == Spaced(second)
    {
      var word := words[i];
      Common.TakeSnoc(words, i);
      WrapInOrderStep(words[..i], word, first, second);
      if line2 == "" && |line1 + " " + word| <= LineWidth {
        line1 := line1 + " " + word;
        first := first + [word];
      } else {
        line2 := line2 + " " + word;
        second := second + [word];
      }
    }
    assert words[..|words|] == words;
    assert WrapInOrder(words) == (first, second);
    assert DisplayedLinesInOrder(status) == Layout(status, (first, second));
    lines := [Strip(line1)];
    if line2 != "" {
      lines := lines + [Strip(line2)];
    }
  }
}
