/**
 * The two caption lines under the photo ("De: <donor>", "Para: <receiver>"),
 * their placement as a block centred horizontally and anchored at three
 * quarters of the canvas height, and the character counters beside the
 * two input fields. Text widths come from an abstract `measure` function
 * standing for the canvas font metrics.
 */
module Caption {
  import opened Geometry

  /** The characters String.prototype.trim removes: white space and line terminators. */
  predicate IsWhitespace(c: char)
  {
    || c == '\t' || c == '\n' || c == '\U{B}' || c == '\U{C}' || c == '\r' || c == ' '
    || c == '\U{A0}' || c == '\U{1680}' || ('\U{2000}' <= c <= '\U{200A}')
    || c == '\U{2028}' || c == '\U{2029}' || c == '\U{202F}' || c == '\U{205F}'
    || c == '\U{3000}' || c == '\U{FEFF}'
  }

  /** `s` without its leading white space. */
  function TrimStart(s: string): (r: string)
    ensures |r| <= |s| && r == s[|s| - |r|..]
    ensures forall k :: 0 <= k < |s| - |r| ==> IsWhitespace(s[k])
    ensures r == "" || !IsWhitespace(r[0])
    decreases |s|
  {
    if |s| > 0 && IsWhitespace(s[0]) then TrimStart(s[1..]) else s
  }

  /** `s` without its trailing white space. */
  function TrimEnd(s: string): (r: string)
    ensures |r| <= |s| && r == s[..|r|]
    ensures forall k :: |r| <= k < |s| ==> IsWhitespace(s[k])
    ensures r == "" || !IsWhitespace(r[|r| - 1])
    decreases |s|
  {
    if |s| > 0 && IsWhitespace(s[|s| - 1]) then TrimEnd(s[..|s| - 1]) else s
  }

  /** `r` is the part of `s` starting at `i`, with only white space before and after it. */
  predicate CutFrom(s: string, r: string, i: int)
  {
    && 0 <= i && i + |r| <= |s| && r == s[i..i + |r|]
    && (forall k :: 0 <= k < i ==> IsWhitespace(s[k]))
    && (forall k :: i + |r| <= k < |s| ==> IsWhitespace(s[k]))
  }

  /**
   * String.prototype.trim: the leading and then the trailing white space
   * removed; the result neither starts nor ends with white space.
   */
  function Trim(s: string): (r: string)
    ensures |r| <= |s|
    ensures r == "" || (!IsWhitespace(r[0]) && !IsWhitespace(r[|r| - 1]))
  {
    TrimEnd(TrimStart(s))
  }

  /** Trimming keeps a contiguous part of `s` and cuts only white space on either side of it. */
  lemma TrimIsCut(s: string)
    ensures exists i :: CutFrom(s, Trim(s), i)
  {
    var t := TrimStart(s);
    var r := TrimEnd(t);
    var i := |s| - |t|;
    assert r == Trim(s);
    assert t == s[i..];
    assert r == t[..|r|];
    assert r == s[i..i + |r|];
    forall k | 0 <= k < i ensures IsWhitespace(s[k]) {
    }
    forall k | i + |r| <= k < |s| ensures IsWhitespace(s[k]) {
      assert s[k] == t[k - i];
    }
    assert CutFrom(s, r, i);
  }

  /** A text trims to nothing exactly when it is all white space. */
  lemma TrimEmptyIffBlank(s: string)
    ensures Trim(s) == "" <==> forall k :: 0 <= k < |s| ==> IsWhitespace(s[k])
  {
    var t := TrimStart(s);
    if Trim(s) == "" {
      assert t == "";
    }
  }

  /** Trimming twice is trimming once. */
  lemma TrimIdempotent(s: string)
    ensures Trim(Trim(s)) == Trim(s)
  {
    var r := Trim(s);
    if r != "" {
      assert TrimStart(r) == r;
      assert TrimEnd(r) == r;
    }
  }

  /** The caption lines for the two input fields, before they are measured and placed. */
  function CaptionLines(donor: string, receiver: string): seq<string>
  {
    var donorText := Trim(donor);
    var receiverText := Trim(receiver);
    (if donorText != "" then ["De: " + donorText] else []) +
    (if receiverText != "" then ["Para: " + receiverText] else [])
  }

  /**
   * A field that is empty or all white space gives no line at all; the donor
   * line, when present, comes first and the receiver line last, each with
   * its label and the trimmed text.
   */
  lemma CaptionLinesSpec(donor: string, receiver: string)
    ensures var lines := CaptionLines(donor, receiver);
            && |lines| <= 2
            && (|lines| == 0 <==> (forall k :: 0 <= k < |donor| ==> IsWhitespace(donor[k])) &&
                                  (forall k :: 0 <= k < |receiver| ==> IsWhitespace(receiver[k])))
            && (Trim(donor) != "" <==> |lines| > 0 && lines[0] == "De: " + Trim(donor))
            && (Trim(receiver) != "" <==> |lines| > 0 && lines[|lines| - 1] == "Para: " + Trim(receiver))
            && |lines| == (if Trim(donor) != "" then 1 else 0) + (if Trim(receiver) != "" then 1 else 0)
  {
    TrimEmptyIffBlank(donor);
    TrimEmptyIffBlank(receiver);
    var lines := CaptionLines(donor, receiver);
    if Trim(donor) == "" && |lines| > 0 {
      assert lines[0] == "Para: " + Trim(receiver);
      assert lines[0][0] == 'P';
    }
    if Trim(receiver) == "" && |lines| > 0 {
      assert lines[|lines| - 1] == "De: " + Trim(donor);
      assert lines[|lines| - 1][0] == 'D';
    }
  }

  lemma TrimExamples()
    ensures Trim("Ana") == "Ana" && Trim(" Ana ") == "Ana" && Trim("Bia") == "Bia"
    ensures Trim("") == "" && Trim("  ") == ""
  {
    assert !IsWhitespace('A') && !IsWhitespace('a') && !IsWhitespace('B');
    assert "Ana"[0] == 'A' && "Ana"[2] == 'a' && "Bia"[0] == 'B' && "Bia"[2] == 'a';
    assert TrimStart("Ana") == "Ana" && TrimEnd("Ana") == "Ana";
    assert " Ana "[1..] == "Ana " && "Ana "[..3] == "Ana";
    assert TrimStart(" Ana ") == "Ana ";
    assert TrimEnd("Ana ") == "Ana";
    assert TrimStart("Bia") == "Bia" && TrimEnd("Bia") == "Bia";
    TrimEmptyIffBlank("  ");
  }

  /** The lines of two fields, given what they trim to. */
  lemma CaptionLinesOfTrimmed(donor: string, receiver: string)
    ensures Trim(donor) != "" && Trim(receiver) == "" ==> CaptionLines(donor, receiver) == ["De: " + Trim(donor)]
    ensures Trim(donor) != "" && Trim(receiver) != "" ==>
              CaptionLines(donor, receiver) == ["De: " + Trim(donor), "Para: " + Trim(receiver)]
  {
  }

  /** A blank receiver gives the donor line alone. */
  lemma CaptionLinesDonorOnly()
    ensures CaptionLines("Ana", "") == ["De: Ana"]
  {
    TrimExamples();
    CaptionLinesOfTrimmed("Ana", "");
    assert "De: " + "Ana" == "De: Ana";
  }

  /** Two blank fields give no caption. */
  lemma CaptionLinesBlank()
    ensures CaptionLines("", "  ") == []
  {
    TrimExamples();
  }

  /** Both fields give both lines, trimmed, donor first. */
  lemma CaptionLinesBoth()
    ensures CaptionLines(" Ana ", "Bia") == ["De: Ana", "Para: Bia"]
  {
    TrimExamples();
    CaptionLinesOfTrimmed(" Ana ", "Bia");
    assert "De: " + "Ana" == "De: Ana";
    assert "Para: " + "Bia" == "Para: Bia";
  }

  /** Vertical distance between caption baselines, in canvas pixels. */
  const LineHeight: real := 70.0

  /** Width of the caption block: the widest measured line, and 0 for no lines. */
  function MaxWidth(lines: seq<string>, measure: string -> real): (w: real)
    ensures w >= 0.0
    ensures forall i :: 0 <= i < |lines| ==> measure(lines[i]) <= w
  {
    if |lines| == 0 then 0.0
    else Max(MaxWidth(lines[..|lines| - 1], measure), measure(lines[|lines| - 1]))
  }

  /**
   * The block is as wide as its widest line: every line fits, and unless the
   * block has width 0, some line has exactly its width.
   */
  lemma {:induction false} MaxWidthIsWidest(lines: seq<string>, measure: string -> real)
    ensures MaxWidth(lines, measure) >= 0.0
    ensures forall line <- lines :: measure(line) <= MaxWidth(lines, measure)
    ensures MaxWidth(lines, measure) == 0.0 ||
            exists i :: 0 <= i < |lines| && measure(lines[i]) == MaxWidth(lines, measure)
  {
    if |lines| > 0 {
      var init := lines[..|lines| - 1];
      MaxWidthIsWidest(init, measure);
      assert lines == init + [lines[|lines| - 1]];
      if MaxWidth(lines, measure) != 0.0 && MaxWidth(lines, measure) != measure(lines[|lines| - 1]) {
        var i :| 0 <= i < |init| && measure(init[i]) == MaxWidth(init, measure);
        assert lines[i] == init[i];
      }
    }
  }

  /** A caption line and the canvas position of its left end on the baseline. */
  datatype PlacedLine = PlacedLine(text: string, x: real, y: real)

  /**
   * Places `lines` as one block: each line starts at the left edge of a
   * block as wide as the widest line and centred on the canvas; lines are
   * one line height apart, with the first and last baselines symmetric
   * about three quarters of the canvas height.
   */
  method PlaceLines(lines: seq<string>, canvas: Size, measure: string -> real)
    returns (placed: seq<PlacedLine>)
    ensures |placed| == |lines| && forall i :: 0 <= i < |placed| ==> placed[i].text == lines[i]
    ensures forall i :: 0 <= i < |placed| ==> placed[i].x + MaxWidth(lines, measure) / 2.0 == canvas.width / 2.0
    ensures forall i :: 0 <= i < |placed| ==> placed[i].y == placed[0].y + LineHeight * i as real
    ensures |placed| > 0 ==> placed[0].y + placed[|placed| - 1].y == 2.0 * (canvas.height * 0.75)
  {
    placed := [];
    if |lines| == 0 {
      return;
    }
    var maxLineWidth := 0.0;
    var i := 0;
    while i < |lines|
      invariant 0 <= i <= |lines|
      invariant maxLineWidth == MaxWidth(lines[..i], measure)
    {
      assert lines[..i + 1][..i] == lines[..i];
      maxLineWidth := Max(maxLineWidth, measure(lines[i]));
      i := i + 1;
    }
    assert lines[..|lines|] == lines;
    var blockStartX := canvas.width / 2.0 - maxLineWidth / 2.0;
    var startY := canvas.height * 0.75 - ((|lines| - 1) as real * LineHeight) / 2.0;
    i := 0;
    while i < |lines|
      invariant 0 <= i <= |lines|
      invariant |placed| == i
      invariant forall k :: 0 <= k < i ==>
                  placed[k] == PlacedLine(lines[k], blockStartX, startY + k as real * LineHeight)
    {
      placed := placed + [PlacedLine(lines[i], blockStartX, startY + i as real * LineHeight)];
      i := i + 1;
    }
  }

  /** Lays out the caption as the certificate is redrawn: the present caption lines, placed as one block. */
  method LayoutCaption(donor: string, receiver: string, canvas: Size, measure: string -> real)
    returns (placed: seq<PlacedLine>)
    ensures var lines := CaptionLines(donor, receiver);
            && |placed| == |lines| && (forall i :: 0 <= i < |placed| ==> placed[i].text == lines[i])
            && forall i :: 0 <= i < |placed| ==> placed[i].x + MaxWidth(lines, measure) / 2.0 == canvas.width / 2.0
    ensures forall i :: 0 <= i < |placed| ==> placed[i].y == placed[0].y + LineHeight * i as real
    ensures |placed| > 0 ==> placed[0].y + placed[|placed| - 1].y == 2.0 * (canvas.height * 0.75)
  {
    var textLines := CaptionLines(donor, receiver);
    placed := PlaceLines(textLines, canvas, measure);
  }

  /** The text of a length counter and whether it shows in the alert colour. */
  datatype Counter = Counter(text: string, alert: bool)

  function DigitChar(d: nat): (c: char)
    requires d < 10
    ensures '0' <= c <= '9'
  {
    "0123456789"[d]
  }

  /** Decimal notation of a natural number, as a template literal prints it. */
  function DecimalString(n: nat): (s: string)
    ensures |s| >= 1 && forall k :: 0 <= k < |s| ==> '0' <= s[k] <= '9'
    ensures s[0] == '0' <==> n == 0
    ensures n == 0 ==> s == "0"
  {
    if n < 10 then [DigitChar(n)] else DecimalString(n / 10) + [DigitChar(n % 10)]
  }

  /** The number a string of decimal digits denotes. */
  function DecimalValue(s: string): nat
    requires forall k :: 0 <= k < |s| ==> '0' <= s[k] <= '9'
  {
    if |s| == 0 then 0
    else DecimalValue(s[..|s| - 1]) * 10 + (s[|s| - 1] as int - '0' as int)
  }

  /** Reading back the printed number gives the number. */
  lemma {:induction false} DecimalRoundTrip(n: nat)
    ensures DecimalValue(DecimalString(n)) == n
  {
    var s := DecimalString(n);
    if n >= 10 {
      DecimalRoundTrip(n / 10);
      assert s[..|s| - 1] == DecimalString(n / 10);
    }
    assert "0123456789"[n % 10] as int - '0' as int == n % 10;
  }

  /**
   * The counter shown beside an input holding `length` characters: it ends
   * in "/25" and is in the alert colour exactly above 20 characters.
   */
  function CharCounter(length: nat): (c: Counter)
    ensures c.alert <==> length > 20
    ensures |c.text| >= 4 && c.text[|c.text| - 3..] == "/25"
    ensures c.text == DecimalString(length) + "/25"
  {
    Counter(DecimalString(length) + "/25", length > 20)
  }

  /**
   * The counter reads "<length>/25", and turns to the alert colour above 20
   * characters, five before the advisory limit of 25.
   */
  lemma CharCounterSpec(length: nat)
    ensures var c := CharCounter(length);
            && (c.alert <==> length > 20)
            && c.text[|c.text| - 3..] == "/25"
            && c.text[..|c.text| - 3] == DecimalString(length)
            && DecimalValue(c.text[..|c.text| - 3]) == length
  {
    var c := CharCounter(length);
    assert c.text[..|c.text| - 3] == DecimalString(length);
    DecimalRoundTrip(length);
  }

  lemma CharCounterExamples()
    ensures CharCounter(26) == Counter("26/25", true)
    ensures CharCounter(20) == Counter("20/25", false)
  {
    assert DecimalString(2) == "2";
    assert DecimalString(26) == "26";
    assert DecimalString(20) == "20";
  }
}
