/**
 * The plain-text import format: the text is cut into lines, empty and
 * whitespace-only lines are dropped, and the surviving lines are taken two
 * at a time as (front, back); an odd last line is discarded.
 */
module Parsing {
  import opened Strings

  predicate NoNewline(line: string)
  {
    forall i :: 0 <= i < |line| ==> !IsNewline(line[i])
  }

  /** `text.components(separatedBy: .newlines)`: every newline character ends a line. */
  function SplitLines(text: string): (lines: seq<string>)
    ensures |lines| >= 1
  {
    if text == [] then [""]
    else
      var rest := SplitLines(text[1..]);
      if IsNewline(text[0]) then [""] + rest
      else [[text[0]] + rest[0]] + rest[1..]
  }

  /** The lines joined back together with "\n". */
  function JoinLines(lines: seq<string>): string
    requires |lines| >= 1
  {
    if |lines| == 1 then lines[0] else lines[0] + "\n" + JoinLines(lines[1..])
  }

  lemma {:induction false} SplitLinesNoNewline(text: string)
    ensures forall line :: line in SplitLines(text) ==> NoNewline(line)
  {
    if text != [] {
      SplitLinesNoNewline(text[1..]);
      var rest := SplitLines(text[1..]);
      if !IsNewline(text[0]) {
        assert rest[0] in rest;
        assert forall line :: line in rest[1..] ==> line in rest;
      }
    }
  }

  /** Joining the lines with "\n" gives back any text whose only line break is "\n". */
  lemma {:induction false} JoinSplitLines(text: string)
    requires forall i :: 0 <= i < |text| ==> IsNewline(text[i]) ==> text[i] == '\n'
    ensures JoinLines(SplitLines(text)) == text
  {
    if text != [] {
      var rest := SplitLines(text[1..]);
      assert JoinLines(rest) == text[1..] by {
        JoinSplitLines(text[1..]);
      }
      if IsNewline(text[0]) {
        assert text == "\n" + text[1..];
      } else if |rest| == 1 {
        assert text == [text[0]] + text[1..];
      } else {
        assert rest == [rest[0]] + rest[1..];
        assert JoinLines(rest) == rest[0] + "\n" + JoinLines(rest[1..]);
        assert text == [text[0]] + text[1..];
      }
    }
  }

  /** Splitting newline-free lines joined by "\n" gives back those lines. */
  lemma {:induction false} SplitJoinLines(lines: seq<string>)
    requires |lines| >= 1
    requires forall line :: line in lines ==> NoNewline(line)
    ensures SplitLines(JoinLines(lines)) == lines
  {
    if |lines| == 1 {
      SplitNoNewline(lines[0], []);
      assert lines[0] + [] == lines[0] && lines == [lines[0]];
    } else {
      var tail := "\n" + JoinLines(lines[1..]);
      assert SplitLines(tail) == [""] + lines[1..] by {
        assert forall line :: line in lines[1..] ==> line in lines;
        SplitJoinLines(lines[1..]);
        SplitAfterNewline(JoinLines(lines[1..]));
      }
      assert JoinLines(lines) == lines[0] + tail;
      SplitNoNewline(lines[0], tail);
      assert lines[0] + "" == lines[0];
      assert lines == [lines[0]] + lines[1..];
    }
  }

  /** A leading "\n" ends an empty first line. */
  lemma SplitAfterNewline(s: string)
    ensures SplitLines("\n" + s) == [""] + SplitLines(s)
  {
    var t := "\n" + s;
    assert t[0] == '\n' && t[1..] == s;
  }

  /** A newline-free prefix is glued onto the first line of what follows it. */
  lemma {:induction false} SplitNoNewline(line: string, tail: string)
    requires NoNewline(line)
    ensures SplitLines(line + tail) ==
      [line + SplitLines(tail)[0]] + SplitLines(tail)[1..]
  {
    if line != [] {
      assert (line + tail)[1..] == line[1..] + tail;
      SplitNoNewline(line[1..], tail);
      assert [line[0]] + (line[1..] + SplitLines(tail)[0]) == line + SplitLines(tail)[0];
    } else {
      var rest := SplitLines(tail);
      assert line + tail == tail;
      assert line + rest[0] == rest[0];
      assert rest == [rest[0]] + rest[1..];
    }
  }

  /** `removeAll(where: { $0.isNewline })` on one line. */
  function StripNewlines(line: string): (r: string)
    ensures |r| <= |line|
  {
    if line == [] then []
    else (if IsNewline(line[0]) then [] else [line[0]]) + StripNewlines(line[1..])
  }

  lemma {:induction false} StripNewlinesNoop(line: string)
    requires NoNewline(line)
    ensures StripNewlines(line) == line
  {
    if line != [] {
      StripNewlinesNoop(line[1..]);
      assert line == [line[0]] + line[1..];
    }
  }

  /** `removeAll { line in line.isEmpty || line.allSatisfy { $0.isWhitespace } }`. */
  function DropBlank(lines: seq<string>): (r: seq<string>)
    ensures |r| <= |lines|
  {
    if lines == [] then []
    else (if IsBlank(lines[0]) then [] else [lines[0]]) + DropBlank(lines[1..])
  }

  /** A line survives exactly when it was there and is not blank. */
  lemma {:induction false} DropBlankMembers(lines: seq<string>)
    ensures forall line :: line in DropBlank(lines) <==> line in lines && !IsBlank(line)
  {
    if lines != [] {
      DropBlankMembers(lines[1..]);
      assert lines == [lines[0]] + lines[1..];
    }
  }

  lemma {:induction false} DropBlankAppend(a: seq<string>, b: seq<string>)
    ensures DropBlank(a + b) == DropBlank(a) + DropBlank(b)
  {
    if a == [] {
      assert a + b == b;
    } else {
      assert (a + b)[0] == a[0] && (a + b)[1..] == a[1..] + b;
      DropBlankAppend(a[1..], b);
    }
  }

  /** Consecutive lines as (front, back); a last unpaired line is left out. */
  function PairUp(lines: seq<string>): (r: seq<(string, string)>)
    ensures |r| == |lines| / 2
  {
    if |lines| < 2 then [] else [(lines[0], lines[1])] + PairUp(lines[2..])
  }

  /** The cards' texts in order, front before back. */
  function Flatten(pairs: seq<(string, string)>): seq<string>
  {
    if pairs == [] then [] else [pairs[0].0, pairs[0].1] + Flatten(pairs[1..])
  }

  /** The import result: `getPairsFrom(text:)`. */
  function ParseText(text: string): (r: seq<(string, string)>)
    ensures |r| == |DropBlank(SplitLines(text))| / 2
  {
    PairUp(DropBlank(SplitLines(text)))
  }

  /** n surviving lines give n / 2 cards, the j-th made of lines 2j and 2j + 1. */
  lemma {:induction false} PairUpAt(lines: seq<string>)
    ensures |PairUp(lines)| == |lines| / 2
    ensures forall j :: 0 <= j < |lines| / 2 ==>
      PairUp(lines)[j] == (lines[2 * j], lines[2 * j + 1])
  {
    if |lines| >= 2 {
      PairUpAt(lines[2..]);
      var p := PairUp(lines);
      forall j | 0 <= j < |lines| / 2
        ensures p[j] == (lines[2 * j], lines[2 * j + 1])
      {
        if j > 0 {
          assert p[j] == PairUp(lines[2..])[j - 1];
        }
      }
    }
  }

  /** The cards hold exactly the surviving lines, minus a trailing odd one. */
  lemma {:induction false} FlattenPairUp(lines: seq<string>)
    ensures Flatten(PairUp(lines)) == lines[..2 * (|lines| / 2)]
  {
    if |lines| >= 2 {
      FlattenPairUp(lines[2..]);
      assert lines[..2 * (|lines| / 2)] == [lines[0], lines[1]] + lines[2..][..2 * (|lines[2..]| / 2)];
    }
  }

  /** Writing cards out as lines and pairing them up again gives back the cards. */
  lemma {:induction false} PairUpFlatten(pairs: seq<(string, string)>)
    ensures PairUp(Flatten(pairs)) == pairs
  {
    if pairs != [] {
      PairUpFlatten(pairs[1..]);
      assert Flatten(pairs)[2..] == Flatten(pairs[1..]);
    }
  }

  /** Every line handed to the pairing step is newline-free and not blank. */
  lemma ParsedLinesClean(text: string)
    ensures forall line :: line in DropBlank(SplitLines(text)) ==> NoNewline(line) && !IsBlank(line)
  {
    SplitLinesNoNewline(text);
    DropBlankMembers(SplitLines(text));
  }

  /** A blank line between cards is skipped. */
  lemma ParseBlankLineExample()
    ensures ParseText("a\nb\n\nc\nd\n") == [("a", "b"), ("c", "d")]
  {
    SplitBlankLineExample();
    DropBlankLineExample();
    assert ["a", "b", "c", "d"][2..] == ["c", "d"];
  }

  lemma SplitBlankLineExample()
    ensures SplitLines("a\nb\n\nc\nd\n") == ["a", "b", "", "c", "d", ""]
  {
    var lines := ["a", "b", "", "c", "d", ""];
    JoinBlankLineExample();
    assert forall line :: line in lines ==> NoNewline(line) by {
      assert NoNewline("a") && NoNewline("b") && NoNewline("c") && NoNewline("d") && NoNewline("");
    }
    SplitJoinLines(lines);
  }

  lemma JoinBlankLineExample()
    ensures JoinLines(["a", "b", "", "c", "d", ""]) == "a\nb\n\nc\nd\n"
  {
    var lines := ["a", "b", "", "c", "d", ""];
    assert JoinLines(lines[5..]) == "";
    assert JoinLines(lines[4..]) == "d\n";
    assert JoinLines(lines[3..]) == "c\nd\n";
    assert JoinLines(lines[2..]) == "\nc\nd\n";
    assert JoinLines(lines[1..]) == "b\n\nc\nd\n";
  }

  lemma DropBlankLineExample()
    ensures DropBlank(["a", "b", "", "c", "d", ""]) == ["a", "b", "c", "d"]
  {
    var lines := ["a", "b", "", "c", "d", ""];
    assert !IsBlank("a") && !IsBlank("b") && !IsBlank("c") && !IsBlank("d") by {
      assert "a"[0] == 'a' && "b"[0] == 'b' && "c"[0] == 'c' && "d"[0] == 'd';
    }
    assert DropBlank(lines[5..]) == [];
    assert DropBlank(lines[4..]) == ["d"];
    assert DropBlank(lines[3..]) == ["c", "d"];
    assert DropBlank(lines[2..]) == ["c", "d"];
    assert DropBlank(lines[1..]) == ["b", "c", "d"];
  }

  /** An odd last line is discarded. */
  lemma ParseOddLineExample()
    ensures ParseText("a\nb\nc") == [("a", "b")]
  {
    var lines := ["a", "b", "c"];
    assert JoinLines(lines) == "a\nb\nc" by {
      assert JoinLines(lines[2..]) == "c";
      assert JoinLines(lines[1..]) == "b\nc";
    }
    SplitJoinLines(lines);
    assert !IsBlank("a") && !IsBlank("b") && !IsBlank("c") by {
      assert "a"[0] == 'a' && "b"[0] == 'b' && "c"[0] == 'c';
    }
    assert DropBlank(lines) == lines by {
      assert DropBlank(lines[2..]) == ["c"];
      assert DropBlank(lines[1..]) == ["b", "c"];
    }
    assert lines[2..] == ["c"];
  }

  /** Empty text gives no cards. */
  lemma ParseEmptyExample()
    ensures ParseText("") == []
  {
    assert DropBlank([""]) == [];
  }
}
