/**
 * Greedy word wrapping of caption text: words are added to the current
 * line while the measured width stays within the limit; a word that does
 * not fit starts a new line. Text widths come from an abstract `width`
 * function standing for the canvas font metrics.
 */
module Wrap {

  /** Joins words with single spaces, as Array.prototype.join(' ') does. */
  function Join(ws: seq<string>): string
  {
    if |ws| == 0 then "" else if |ws| == 1 then ws[0] else ws[0] + " " + Join(ws[1..])
  }

  /**
   * Splits at every single space, as String.prototype.split(' ') does:
   * there is always at least one piece, empty pieces are kept (for leading,
   * trailing and repeated spaces), and no piece contains a space.
   */
  function Split(s: string): (ws: seq<string>)
    ensures |ws| >= 1
    ensures forall i :: 0 <= i < |ws| ==> ' ' !in ws[i]
    decreases |s|
  {
    if |s| == 0 then [""]
    else if s[0] == ' ' then [""] + Split(s[1..])
    else
      var rest := Split(s[1..]);
      [[s[0]] + rest[0]] + rest[1..]
  }

  lemma JoinCons(w: string, ws: seq<string>)
    requires |ws| >= 1
    ensures Join([w] + ws) == w + " " + Join(ws)
  {
    assert ([w] + ws)[1..] == ws;
  }

  /** Joining the pieces of a split gives back the text. */
  lemma {:induction false} JoinSplit(s: string)
    ensures Join(Split(s)) == s
    decreases |s|
  {
    if |s| == 0 {
    } else if s[0] == ' ' {
      JoinSplit(s[1..]);
      JoinCons("", Split(s[1..]));
      assert s == " " + s[1..];
    } else {
      var rest := Split(s[1..]);
      JoinSplit(s[1..]);
      assert s == [s[0]] + s[1..];
      if |rest| > 1 {
        var tail := Join(rest[1..]);
        JoinCons([s[0]] + rest[0], rest[1..]);
        assert rest == [rest[0]] + rest[1..];
        JoinCons(rest[0], rest[1..]);
        assert s[1..] == rest[0] + " " + tail;
        assert Join(Split(s)) == ([s[0]] + rest[0]) + " " + tail;
      }
    }
  }

  lemma {:induction false} SplitWord(w: string)
    requires ' ' !in w
    ensures Split(w) == [w]
    decreases |w|
  {
    if |w| > 0 {
      assert ' ' !in w[1..] by {
        forall k | 0 <= k < |w[1..]| ensures w[1..][k] != ' ' {
          assert w[1..][k] == w[k + 1];
        }
      }
      SplitWord(w[1..]);
      assert w == [w[0]] + w[1..];
    }
  }

  lemma {:induction false} SplitWordSpace(w: string, t: string)
    requires ' ' !in w
    ensures Split(w + " " + t) == [w] + Split(t)
    decreases |w|
  {
    if |w| == 0 {
      assert w + " " + t == [' '] + t;
      assert (w + " " + t)[1..] == t;
    } else {
      var s := w + " " + t;
      assert s[0] == w[0];
      assert s[1..] == w[1..] + " " + t;
      assert ' ' !in w[1..] by {
        forall k | 0 <= k < |w[1..]| ensures w[1..][k] != ' ' {
          assert w[1..][k] == w[k + 1];
        }
      }
      SplitWordSpace(w[1..], t);
      assert [w[0]] + w[1..] == w;
    }
  }

  /** Splitting joined space-free words gives back the words. */
  lemma {:induction false} SplitJoin(ws: seq<string>)
    requires |ws| >= 1
    requires forall i :: 0 <= i < |ws| ==> ' ' !in ws[i]
    ensures Split(Join(ws)) == ws
    decreases |ws|
  {
    if |ws| == 1 {
      SplitWord(ws[0]);
    } else {
      SplitJoin(ws[1..]);
      SplitWordSpace(ws[0], Join(ws[1..]));
      assert ws == [ws[0]] + ws[1..];
    }
  }

  /** Every piece is empty: the text these pieces came from is spaces only. */
  predicate NoWords(words: seq<string>)
  {
    forall i :: 0 <= i < |words| ==> words[i] == ""
  }

  /**
   * The lines produced from the remaining `words` when the line being
   * built is `current`: the loop of the wrapper, one word per step.
   */
  function WrapFrom(words: seq<string>, current: string, width: string -> real, maxWidth: real): (lines: seq<string>)
    ensures forall line <- lines :: line != ""
    ensures lines == [] <==> current == "" && NoWords(words)
    decreases |words|
  {
    if |words| == 0 then
      (if current != "" then [current] else [])
    else
      var word := words[0];
      var testLine := if current != "" then current + " " + word else word;
      if width(testLine) > maxWidth && current != "" then
        [current] + WrapFrom(words[1..], word, width, maxWidth)
      else
        WrapFrom(words[1..], testLine, width, maxWidth)
  }

  /**
   * The lines `text` is wrapped into for a line width of `maxWidth`: none
   * empty, and none at all exactly when the text has no word.
   */
  function Wrapped(text: string, maxWidth: real, width: string -> real): (lines: seq<string>)
    ensures forall line <- lines :: line != ""
    ensures lines == [] <==> NoWords(Split(text))
  {
    WrapFrom(Split(text), "", width, maxWidth)
  }

  /** A line is acceptable when it fits or when it is one word of `pool` that cannot be broken. */
  predicate FitsOrSingleWord(line: string, pool: seq<string>, width: string -> real, maxWidth: real)
  {
    width(line) <= maxWidth || line in pool
  }

  lemma {:induction false} WrapFromLinesFit(words: seq<string>, current: string, pool: seq<string>,
                                            width: string -> real, maxWidth: real)
    requires forall i :: 0 <= i < |words| ==> words[i] in pool
    requires current == "" || FitsOrSingleWord(current, pool, width, maxWidth)
    ensures forall line <- WrapFrom(words, current, width, maxWidth) ::
              line != "" && FitsOrSingleWord(line, pool, width, maxWidth)
    decreases |words|
  {
    if |words| > 0 {
      var word := words[0];
      var testLine := if current != "" then current + " " + word else word;
      assert words[0] in pool;
      if width(testLine) > maxWidth && current != "" {
        WrapFromLinesFit(words[1..], word, pool, width, maxWidth);
      } else {
        WrapFromLinesFit(words[1..], testLine, pool, width, maxWidth);
      }
    }
  }

  /**
   * No line is empty, and a line is wider than the limit only when it is a
   * single word of the text.
   */
  lemma WrappedLinesFit(text: string, maxWidth: real, width: string -> real)
    ensures forall line <- Wrapped(text, maxWidth, width) ::
              line != "" && (width(line) <= maxWidth || line in Split(text))
  {
    var words := Split(text);
    WrapFromLinesFit(words, "", words, width, maxWidth);
  }

  lemma {:induction false} WrapFromJoin(words: seq<string>, current: string, width: string -> real, maxWidth: real)
    requires current != ""
    requires forall i :: 0 <= i < |words| ==> words[i] != ""
    ensures |WrapFrom(words, current, width, maxWidth)| >= 1
    ensures Join(WrapFrom(words, current, width, maxWidth)) == Join([current] + words)
    decreases |words|
  {
    if |words| > 0 {
      var word := words[0];
      var rest := words[1..];
      assert words == [word] + rest;
      var testLine := current + " " + word;
      JoinCons(current, words);
      if width(testLine) > maxWidth {
        WrapFromJoin(rest, word, width, maxWidth);
        JoinCons(current, WrapFrom(rest, word, width, maxWidth));
      } else {
        WrapFromJoin(rest, testLine, width, maxWidth);
        if |rest| > 0 {
          JoinCons(testLine, rest);
          JoinCons(word, rest);
        }
      }
    }
  }

  /**
   * When the text has no leading, trailing or repeated spaces (every piece
   * of the split is a word), the lines joined with single spaces are the
   * text itself: the words, in order, none lost or duplicated.
   */
  lemma WrappedJoin(text: string, maxWidth: real, width: string -> real)
    requires forall i :: 0 <= i < |Split(text)| ==> Split(text)[i] != ""
    ensures Join(Wrapped(text, maxWidth, width)) == text
  {
    var words := Split(text);
    assert words == [words[0]] + words[1..];
    WrapFromJoin(words[1..], words[0], width, maxWidth);
    JoinSplit(text);
  }

  /** Leading spaces are lost: "  b" wraps to the single line "b", whatever the width. */
  lemma WrappedDropsLeadingSpaces(maxWidth: real, width: string -> real)
    ensures Wrapped("  b", maxWidth, width) == ["b"]
  {
    SplitWord("b");
    assert "  b"[1..] == " b" && " b"[1..] == "b";
    assert Split(" b") == ["", "b"];
    var words := Split("  b");
    assert words == ["", "", "b"];
    assert words[1..] == ["", "b"] && words[2..] == ["b"] && words[3..] == [];
    assert WrapFrom(words[3..], "b", width, maxWidth) == ["b"];
  }

  /** The wrapper itself: one pass over the words, building lines in place. */
  method WrappedLines(text: string, maxWidth: real, width: string -> real) returns (lines: seq<string>)
    ensures lines == Wrapped(text, maxWidth, width)
    ensures forall line <- lines :: line != "" && (width(line) <= maxWidth || line in Split(text))
  {
    var words := Split(text);
    lines := [];
    var currentLine := "";
    var i := 0;
    while i < |words|
      invariant 0 <= i <= |words|
      invariant lines + WrapFrom(words[i..], currentLine, width, maxWidth) == Wrapped(text, maxWidth, width)
    {
      var word := words[i];
      var testLine := if currentLine != "" then currentLine + " " + word else word;
      assert words[i..] == [word] + words[i + 1..];
      if width(testLine) > maxWidth && currentLine != "" {
        lines := lines + [currentLine];
        currentLine := word;
      } else {
        currentLine := testLine;
      }
      i := i + 1;
    }
    if currentLine != "" {
      lines := lines + [currentLine];
    }
    WrappedLinesFit(text, maxWidth, width);
  }
}
