/**
 Greedy wrapping of a message by display width, and the banner drawn from it
 (runner/runner.go). The width of a rune is a parameter: it comes from a library.
 */
module TextWrap {
  import opened Wrappers

  type RuneWidth = char -> nat

  function Width(s: string, w: RuneWidth): nat {
    if s == "" then 0 else Width(s[..|s| - 1], w) + w(s[|s| - 1])
  }

  function Concat(lines: seq<string>): string {
    if lines == [] then "" else Concat(lines[..|lines| - 1]) + lines[|lines| - 1]
  }

  ghost predicate AllFit(lines: seq<string>, limit: int, w: RuneWidth) {
    forall line :: line in lines ==> Width(line, w) <= limit
  }

  ghost predicate AllNarrow(text: string, limit: int, w: RuneWidth) {
    forall r :: r in text ==> w(r) <= limit
  }

  /** A division of the text into consecutive chunks, empty ones allowed, each of which fits. */
  ghost predicate Divides(chunks: seq<string>, text: string, limit: int, w: RuneWidth) {
    Concat(chunks) == text && AllFit(chunks, limit, w)
  }

  /** The lines that the loop has closed after a text, and the line that it is filling. */
  function Greedy(text: string, limit: int, w: RuneWidth): (seq<string>, string) {
    if text == "" then ([], "")
    else
      var (closed, current) := Greedy(text[..|text| - 1], limit, w);
      var r := text[|text| - 1];
      if Width(current, w) + w(r) > limit then (closed + [current], [r]) else (closed, current + [r])
  }

  function Lines(text: string, limit: int, w: RuneWidth): seq<string> {
    var (closed, current) := Greedy(text, limit, w);
    if current != "" then closed + [current] else closed
  }

  method WrapText(text: string, limit: int, w: RuneWidth) returns (lines: seq<string>)
    ensures lines == Lines(text, limit, w)
  {
    lines := [];
    var currentLine, currentWidth := "", 0;
    var i := 0;
    while i < |text|
      invariant 0 <= i <= |text|
      invariant (lines, currentLine) == Greedy(text[..i], limit, w)
      invariant currentWidth == Width(currentLine, w)
    {
      var r := text[i];
      assert text[..i + 1][..i] == text[..i];
      var runeWidth := w(r);
      if currentWidth + runeWidth > limit {
        lines := lines + [currentLine];
        currentLine := [r];
        currentWidth := runeWidth;
        assert [r][..0] == "";
      } else {
        assert (currentLine + [r])[..|currentLine|] == currentLine;
        currentLine := currentLine + [r];
        currentWidth := currentWidth + runeWidth;
      }
      i := i + 1;
    }
    assert text[..i] == text;
    if currentLine != "" {
      lines := lines + [currentLine];
    }
  }

  lemma WidthSnoc(s: string, r: char, w: RuneWidth)
    ensures Width(s + [r], w) == Width(s, w) + w(r)
  {
    assert (s + [r])[..|s|] == s;
  }

  lemma ConcatSnoc(lines: seq<string>, line: string)
    ensures Concat(lines + [line]) == Concat(lines) + line
  {
    assert (lines + [line])[..|lines|] == lines;
  }

  /** A longer suffix is at least as wide. */
  lemma {:induction false} WiderSuffix(text: string, short: nat, long: nat, w: RuneWidth)
    requires short <= long <= |text|
    ensures Width(text[|text| - short..], w) <= Width(text[|text| - long..], w)
  {
    if short == 0 {
      assert text[|text|..] == "";
    } else {
      var n := |text| - 1;
      assert text[|text| - short..] == text[..n][n - (short - 1)..] + [text[n]];
      assert text[|text| - long..] == text[..n][n - (long - 1)..] + [text[n]];
      WidthSnoc(text[..n][n - (short - 1)..], text[n], w);
      WidthSnoc(text[..n][n - (long - 1)..], text[n], w);
      WiderSuffix(text[..n], short - 1, long - 1, w);
    }
  }

  /** Nothing is lost, added or reordered, whatever the widths. */
  lemma {:induction false} GreedyKeepsText(text: string, limit: int, w: RuneWidth)
    ensures var (closed, current) := Greedy(text, limit, w);
            && Concat(closed) + current == text
            && (text != "" ==> current != "")
  {
    if text != "" {
      var n := |text| - 1;
      GreedyKeepsText(text[..n], limit, w);
      var (closed, current) := Greedy(text[..n], limit, w);
      ConcatSnoc(closed, current);
      assert text == text[..n] + [text[n]];
      assert Concat(closed) + current + [text[n]] == Concat(closed) + (current + [text[n]]);
    }
  }

  ghost predicate GoodLines(lines: seq<string>, limit: int, w: RuneWidth) {
    forall line :: line in lines ==> Width(line, w) <= limit && line != ""
  }

  lemma GoodLinesSnoc(lines: seq<string>, line: string, limit: int, w: RuneWidth)
    requires GoodLines(lines, limit, w) && Width(line, w) <= limit && line != ""
    ensures GoodLines(lines + [line], limit, w)
  {
  }

  lemma {:induction false} GreedyFits(text: string, limit: int, w: RuneWidth)
    requires AllNarrow(text, limit, w)
    ensures GoodLines(Greedy(text, limit, w).0, limit, w)
    ensures text != "" ==> Width(Greedy(text, limit, w).1, w) <= limit
  {
    if text != "" {
      var init, r := text[..|text| - 1], text[|text| - 1];
      assert r in text;
      GreedyFits(init, limit, w);
      GreedyKeepsText(init, limit, w);
      var (closed, current) := Greedy(init, limit, w);
      NextLineFits(current, r, limit, w);
      if current != "" {
        GoodLinesSnoc(closed, current, limit, w);
      }
    }
  }

  lemma NextLineFits(current: string, r: char, limit: int, w: RuneWidth)
    requires w(r) <= limit
    ensures Width([r], w) <= limit
    ensures Width(current, w) + w(r) <= limit ==> Width(current + [r], w) <= limit
    ensures current == "" ==> Width(current, w) + w(r) <= limit
  {
    WidthSnoc(current, r, w);
    WidthSnoc("", r, w);
    assert "" + [r] == [r];
  }

  /** What `GreedyStaysAhead` says about a text and the number and last chunk of one of its divisions. */
  predicate Ahead(text: string, count: nat, last: nat, limit: int, w: RuneWidth) {
    var (closed, current) := Greedy(text, limit, w);
    count >= |closed| + 1 && (count == |closed| + 1 ==> last >= |current|)
  }

  /** One more rune: it can join a last chunk of the same number only if greedy has room for it, too. */
  lemma AheadByOneRune(text: string, r: char, start: string, rest: string, count: nat, limit: int, w: RuneWidth)
    requires text == start + rest && Width(rest + [r], w) <= limit && count > 0
    requires text != "" ==> Ahead(text, count, |rest|, limit, w)
    ensures Ahead(text + [r], count, |rest| + 1, limit, w)
  {
    assert (text + [r])[..|text|] == text;
    WidthSnoc(rest, r, w);
    var (closed, current) := Greedy(text, limit, w);
    if text != "" && count == |closed| + 1 {
      GreedyKeepsText(text, limit, w);
      WiderSuffix(text, |current|, |rest|, w);
      assert text[|text| - |current|..] == current && text[|text| - |rest|..] == rest;
    }
  }

  /**
   Greedy stays ahead: no division has fewer chunks than the lines begun so far, and one with
   as many chunks began its last chunk no later than the line being filled.
   */
  lemma {:induction false} GreedyStaysAhead(text: string, chunks: seq<string>, limit: int, w: RuneWidth)
    requires text != "" && Divides(chunks, text, limit, w)
    ensures chunks != [] && Ahead(text, |chunks|, |chunks[|chunks| - 1]|, limit, w)
    decreases |text|, |chunks|
  {
    var n, m := |text| - 1, |chunks| - 1;
    var init, last := chunks[..m], chunks[m];
    assert last in chunks;
    if last == "" {
      GreedyStaysAhead(text, init, limit, w);
    } else {
      var rest, r := last[..|last| - 1], text[n];
      assert last == rest + [r];
      assert text[..n] == Concat(init) + rest && text == text[..n] + [r];
      WidthSnoc(rest, r, w);
      ConcatSnoc(init, rest);
      if n > 0 {
        GreedyStaysAhead(text[..n], init + [rest], limit, w);
      }
      AheadByOneRune(text[..n], r, Concat(init), rest, |chunks|, limit, w);
    }
  }

  /** If every rune fits, the lines are the text, each fits and none is empty, and no division uses fewer. */
  lemma WrappingIsOptimal(text: string, chunks: seq<string>, limit: int, w: RuneWidth)
    requires AllNarrow(text, limit, w)
    ensures Divides(Lines(text, limit, w), text, limit, w)
    ensures "" !in Lines(text, limit, w)
    ensures Divides(chunks, text, limit, w) ==> |Lines(text, limit, w)| <= |chunks|
  {
    GreedyKeepsText(text, limit, w);
    GreedyFits(text, limit, w);
    var (closed, current) := Greedy(text, limit, w);
    ConcatSnoc(closed, current);
    if Divides(chunks, text, limit, w) && text != "" {
      GreedyStaysAhead(text, chunks, limit, w);
    }
  }

  /** The lines always make up the text, and all of them fit exactly when every rune does. */
  lemma LinesFitExactlyIfRunesDo(text: string, limit: int, w: RuneWidth)
    ensures Concat(Lines(text, limit, w)) == text
    ensures AllFit(Lines(text, limit, w), limit, w) <==> AllNarrow(text, limit, w)
  {
    GreedyKeepsText(text, limit, w);
    var (closed, current) := Greedy(text, limit, w);
    ConcatSnoc(closed, current);
    if AllNarrow(text, limit, w) {
      GreedyFits(text, limit, w);
    }
    if AllFit(Lines(text, limit, w), limit, w) {
      FittingLinesHaveNarrowRunes(Lines(text, limit, w), limit, w);
    }
  }

  lemma {:induction false} FittingLinesHaveNarrowRunes(lines: seq<string>, limit: int, w: RuneWidth)
    requires AllFit(lines, limit, w)
    ensures AllNarrow(Concat(lines), limit, w)
  {
    if lines != [] {
      var m := |lines| - 1;
      assert lines[m] in lines;
      FittingLinesHaveNarrowRunes(lines[..m], limit, w);
      RunesAreNoWider(lines[m], w);
    }
  }

  lemma {:induction false} RunesAreNoWider(line: string, w: RuneWidth)
    ensures forall r :: r in line ==> w(r) <= Width(line, w)
  {
    if line != "" {
      RunesAreNoWider(line[..|line| - 1], w);
    }
  }

  // ---------- The banner ----------

  /** A framed row: the line between "║ " and " ║", with `padding` spaces after it. */
  datatype Row = Row(line: string, padding: nat)

  datatype Banner = Banner(borderLength: nat, rows: seq<Row>)

  /** The requested width, or the terminal's, or 80; never less than 20. */
  function BannerWidth(requested: int, terminal: Option<int>): (width: int)
    ensures width >= 20
  {
    var width := if requested > 0 then requested else if terminal.Some? then terminal.value else 80;
    if width < 20 then 20 else width
  }

  function WrapAll(messages: seq<string>, limit: int, w: RuneWidth): seq<string> {
    if messages == [] then []
    else WrapAll(messages[..|messages| - 1], limit, w) + Lines(messages[|messages| - 1], limit, w)
  }

  lemma WrapNext(messages: seq<string>, i: nat, limit: int, w: RuneWidth)
    requires i < |messages|
    ensures WrapAll(messages[..i + 1], limit, w) == WrapAll(messages[..i], limit, w) + Lines(messages[i], limit, w)
  {
    assert messages[..i + 1][..i] == messages[..i];
  }

  /** `sw` is the library's width of a whole string, which the banner pads by. */
  method DrawBanner(messages: seq<string>, requested: int, terminal: Option<int>, w: RuneWidth, sw: string -> nat)
    returns (banner: Banner)
    ensures var width := BannerWidth(requested, terminal);
            && banner.borderLength == width - 2
            && Frames(banner.rows, WrapAll(messages, width - 4, w), width, sw)
  {
    var width := BannerWidth(requested, terminal);
    var wrapped: seq<string> := [];
    var i := 0;
    while i < |messages|
      invariant 0 <= i <= |messages| && wrapped == WrapAll(messages[..i], width - 4, w)
    {
      var lines := WrapText(messages[i], width - 4, w);
      WrapNext(messages, i, width - 4, w);
      wrapped := wrapped + lines;
      i := i + 1;
    }
    assert messages[..i] == messages;
    var rows := PadRows(wrapped, width, sw);
    banner := Banner(width - 2, rows);
  }

  /** The rows show the lines in order; a row is as wide as the banner exactly if its line leaves room for the frame. */
  ghost predicate Frames(rows: seq<Row>, lines: seq<string>, width: nat, sw: string -> nat) {
    && |rows| == |lines|
    && forall k :: 0 <= k < |rows| ==>
         && rows[k].line == lines[k]
         && (RowWidth(rows[k], sw) == width <==> sw(lines[k]) + 4 <= width)
         && RowWidth(rows[k], sw) >= width
  }

  method PadRows(lines: seq<string>, width: nat, sw: string -> nat) returns (rows: seq<Row>)
    ensures Frames(rows, lines, width, sw)
  {
    rows := [];
    var i := 0;
    while i < |lines|
      invariant 0 <= i <= |lines| && Frames(rows, lines[..i], width, sw)
    {
      var padding := width - 4 - sw(lines[i]);
      rows := rows + [Row(lines[i], if padding < 0 then 0 else padding)];
      i := i + 1;
    }
    assert lines[..i] == lines;
  }

  /** Columns of a row: two frame columns on either side of the padded line. */
  function RowWidth(row: Row, sw: string -> nat): nat {
    2 + sw(row.line) + row.padding + 2
  }

  /**
   No rune is wider than the narrowest banner's content, and a string is no wider than its runes: then every
   line fits its row.
   */
  lemma {:induction false} BannerLinesFit(messages: seq<string>, limit: int, w: RuneWidth, sw: string -> nat)
    requires forall message :: message in messages ==> AllNarrow(message, limit, w)
    requires forall line :: line in WrapAll(messages, limit, w) ==> sw(line) <= Width(line, w)
    ensures forall line :: line in WrapAll(messages, limit, w) ==> sw(line) <= limit
  {
    if messages != [] {
      var n := |messages| - 1;
      assert messages[n] in messages;
      LinesFitExactlyIfRunesDo(messages[n], limit, w);
      BannerLinesFit(messages[..n], limit, w, sw);
    }
  }

  /**
   Every row is exactly as wide as the banner, if no rune is wider than the content and no string is displayed
   wider than its runes are.
   */
  lemma EveryRowIsAsWide(rows: seq<Row>, messages: seq<string>, width: nat, w: RuneWidth, sw: string -> nat)
    requires Frames(rows, WrapAll(messages, width - 4, w), width, sw)
    requires forall message :: message in messages ==> AllNarrow(message, width - 4, w)
    requires forall line :: line in WrapAll(messages, width - 4, w) ==> sw(line) <= Width(line, w)
    ensures forall row :: row in rows ==> RowWidth(row, sw) == width
  {
    BannerLinesFit(messages, width - 4, w, sw);
    var lines := WrapAll(messages, width - 4, w);
    forall k | 0 <= k < |rows| ensures RowWidth(rows[k], sw) == width {
      assert lines[k] in lines;
    }
  }
}
