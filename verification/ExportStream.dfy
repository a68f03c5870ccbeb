/**
 The paged export (web/app_exports.go): pages are asked for at the offset of the rows written so
 far and written one row at a time. The result set is stable while it is exported, and a page
 holds at least one row where rows are left. Numbers and times are given as their printed text;
 the library encoders are parameters.
 */
module ExportStream {
  import opened Wrappers
  import opened Escaping

  const MAXIMUM_EXPORT_ROWS := 1_000_000

  datatype Format = Csv | Json | Jsonl | GeoJson | Kml | Vcard | Txt | PostgresSql | MysqlSql | Unsupported

  datatype Business = Business(
    id: string, name: string, category: string, address: string, phone: string, email: string, website: string,
    domain: string, latitude: Option<string>, longitude: Option<string>, rating: Option<string>,
    reviewCount: Option<string>, scrapedAt: string)

  /**
   Library encoders: a CSV line, a JSON value, a GeoJSON feature (both can fail, as on a non-finite number)
   and XML text.
   */
  datatype Encoders = Encoders(csvHeader: string, csv: Business -> string, json: Business -> Option<string>,
                               feature: Business -> Option<string>, xml: string -> string)

  datatype ExportError = TooManyRows | RowNotWritten

  // ---------- Texts ----------

  function StartText(format: Format, enc: Encoders): string {
    match format
    case Csv => enc.csvHeader
    case Json => "[\n"
    case GeoJson => "{\"type\":\"FeatureCollection\",\"features\":[\n"
    case Kml => "<?xml version=\"1.0\" encoding=\"UTF-8\"?>\n<kml xmlns=\"http://www.opengis.net/kml/2.2\"><Document>\n"
    case PostgresSql => "BEGIN;\n"
    case MysqlSql => "START TRANSACTION;\n"
    case _ => ""
  }

  function EndText(format: Format): string {
    match format
    case Json => "\n]\n"
    case GeoJson => "\n]}\n"
    case Kml => "</Document></kml>\n"
    case PostgresSql => "COMMIT;\n"
    case MysqlSql => "COMMIT;\n"
    case _ => ""
  }

  /** What stands between two rows. */
  function Separator(format: Format): string {
    if format.Json? || format.GeoJson? then ",\n" else ""
  }

  function KmlText(b: Business, enc: Encoders): string {
    if b.latitude.None? || b.longitude.None? then ""
    else
      "<Placemark><name>" + enc.xml(b.name) + "</name><description>" + enc.xml(b.address)
      + "</description><Point><coordinates>" + b.longitude.value + "," + b.latitude.value
      + "</coordinates></Point></Placemark>\n"
  }

  /** The nine lines of a card, its values escaped. */
  function CardLines(b: Business): seq<string> {
    LinesAround(VcardEscape(b.name), VcardEscape(b.phone), VcardEscape(b.email), VcardEscape(b.website),
        VcardEscape(b.address))
  }

  function LinesAround(name: string, phone: string, email: string, url: string, address: string): seq<string> {
    ["BEGIN:VCARD", "VERSION:4.0", "FN:" + name, "ORG:" + name, "TEL:" + phone, "EMAIL:" + email, "URL:" + url,
     "ADR:;;" + address + ";;;;", "END:VCARD"]
  }

  /** Every line, ended by a line break. */
  function Terminated(lines: seq<string>): string {
    if lines == [] then "" else lines[0] + "\r\n" + Terminated(lines[1..])
  }

  function VcardText(b: Business): string {
    Terminated(CardLines(b))
  }

  function TxtText(b: Business): string {
    b.name + "\t" + b.domain + "\t" + b.email + "\t" + b.phone + "\t" + b.address + "\n"
  }

  const INSERT :=
    "INSERT INTO businesses (id,name,category,address,phone,email,website,domain,"
    + "latitude,longitude,rating,review_count,scraped_at) VALUES ("

  function TextColumns(b: Business): seq<string> {
    [b.id, b.name, b.category, b.address, b.phone, b.email, b.website, b.domain]
  }

  function NumberSql(n: Option<string>): string {
    if n.None? then "NULL" else n.value
  }

  function OtherColumns(b: Business): string {
    "," + NumberSql(b.latitude) + "," + NumberSql(b.longitude) + "," + NumberSql(b.rating)
    + "," + NumberSql(b.reviewCount) + "," + SqlExportValue(b.scrapedAt) + ");\n"
  }

  function SqlText(b: Business): string {
    INSERT + (ValueList(TextColumns(b)) + OtherColumns(b))
  }

  /** A row's own text, without a separator. */
  function RowText(format: Format, b: Business, enc: Encoders): Option<string> {
    match format
    case Csv => Some(enc.csv(b))
    case Json => enc.json(b)
    case Jsonl => if enc.json(b).None? then None else Some(enc.json(b).value + "\n")
    case GeoJson => enc.feature(b)
    case Kml => Some(KmlText(b, enc))
    case Vcard => Some(VcardText(b))
    case Txt => Some(TxtText(b))
    case PostgresSql => Some(SqlText(b))
    case MysqlSql => Some(SqlText(b))
    case Unsupported => None
  }

  /** What an export format fixes: the texts around and between the rows, and each row's own text. */
  datatype Layout = Layout(opening: string, ending: string, separator: string, row: Business -> Option<string>)

  function LayoutOf(format: Format, enc: Encoders): Layout {
    Layout(StartText(format, enc), EndText(format), Separator(format), b => RowText(format, b, enc))
  }

  /** Writes one row: a separator before every row but the first, which stays written when the row itself fails. */
  method WriteExportRow(layout: Layout, b: Business, first: bool) returns (written: string, ok: bool)
    ensures ok == layout.row(b).Some?
    ensures written == (if first then "" else layout.separator) + if ok then layout.row(b).value else ""
  {
    written := "";
    if !first {
      written := layout.separator;
    }
    var text := layout.row(b);
    if text.None? {
      return written, false;
    }
    return written + text.value, true;
  }

  // ---------- Pages ----------

  /** A stable result set with the page length its store gives at each offset. */
  datatype Store = Store(rows: seq<Business>, pageLength: nat -> nat) {
    ghost predicate Valid() {
      forall offset: nat :: pageLength(offset) >= 1
    }

    function Page(offset: nat): seq<Business> {
      if offset >= |rows| then []
      else if offset + pageLength(offset) >= |rows| then rows[offset..]
      else rows[offset..offset + pageLength(offset)]
    }
  }

  function Joined(texts: seq<string>, separator: string): string {
    if texts == [] then ""
    else if |texts| == 1 then texts[0]
    else texts[0] + separator + Joined(texts[1..], separator)
  }

  ghost predicate Writable(layout: Layout, rows: seq<Business>) {
    forall i :: 0 <= i < |rows| ==> layout.row(rows[i]).Some?
  }

  ghost function Texts(layout: Layout, rows: seq<Business>): (texts: seq<string>)
    requires Writable(layout, rows)
    ensures |texts| == |rows| && forall i :: 0 <= i < |rows| ==> texts[i] == layout.row(rows[i]).value
  {
    seq(|rows|, i requires 0 <= i < |rows| => layout.row(rows[i]).value)
  }

  /** The rows as they stand in the file, separators between them. */
  ghost function Body(layout: Layout, rows: seq<Business>): string
    requires Writable(layout, rows)
  {
    Joined(Texts(layout, rows), layout.separator)
  }

  lemma {:induction false} JoinedAppend(texts: seq<string>, t: string, separator: string)
    ensures Joined(texts + [t], separator) == Joined(texts, separator) + (if texts == [] then "" else separator) + t
  {
    if texts == [] {
      assert texts + [t] == [t];
    } else {
      JoinedAppend(texts[1..], t, separator);
      assert (texts + [t])[1..] == texts[1..] + [t];
      if |texts| > 1 {
        assert texts[0] + separator + (Joined(texts[1..], separator) + separator + t)
            == Joined(texts, separator) + separator + t;
      }
    }
  }

  /** The first `count` rows, and nothing else, have been written behind the opening. */
  ghost predicate Written(layout: Layout, rows: seq<Business>, count: nat, output: string) {
    && count <= |rows| && Writable(layout, rows[..count])
    && output == layout.opening + Body(layout, rows[..count])
  }

  lemma NothingWritten(layout: Layout, rows: seq<Business>)
    ensures Written(layout, rows, 0, layout.opening)
  {
    assert rows[..0] == [] && Body(layout, []) == "";
  }

  lemma WritesOneMore(layout: Layout, rows: seq<Business>, count: nat, output: string)
    requires Written(layout, rows, count, output) && count < |rows| && layout.row(rows[count]).Some?
    ensures var written := (if count == 0 then "" else layout.separator) + layout.row(rows[count]).value;
            Written(layout, rows, count + 1, output + written)
  {
    OneMoreRow(layout, rows, count);
  }

  lemma OneMoreRow(layout: Layout, rows: seq<Business>, count: nat)
    requires count < |rows| && Writable(layout, rows[..count]) && layout.row(rows[count]).Some?
    ensures Writable(layout, rows[..count + 1])
    ensures Body(layout, rows[..count + 1])
            == Body(layout, rows[..count])
               + ((if count == 0 then "" else layout.separator) + layout.row(rows[count]).value)
  {
    var before, after := Texts(layout, rows[..count]), Texts(layout, rows[..count + 1]);
    assert after == before + [layout.row(rows[count]).value];
    JoinedAppend(before, layout.row(rows[count]).value, layout.separator);
  }

  /**
   Whatever the page lengths: the whole set is written exactly once, in order, between the opening and
   the closing text with separators only between rows, and counted. Too large a set is refused before
   its first row, and a row that cannot be encoded ends the export with the rows before it written.
   */
  method StreamExportRows(store: Store, layout: Layout)
      returns (output: string, count: nat, failed: Option<ExportError>)
    requires store.Valid()
    ensures failed.None? <==> |store.rows| <= MAXIMUM_EXPORT_ROWS && Writable(layout, store.rows)
    ensures failed.None? ==>
              count == |store.rows| && output == layout.opening + Body(layout, store.rows) + layout.ending
    ensures failed == Some(TooManyRows) <==> |store.rows| > MAXIMUM_EXPORT_ROWS
    ensures failed == Some(TooManyRows) ==> count == 0 && output == layout.opening
    ensures failed == Some(RowNotWritten) ==>
              && count < |store.rows|
              && layout.row(store.rows[count]).None?
              && Writable(layout, store.rows[..count])
              && output == layout.opening + Body(layout, store.rows[..count])
                           + if count == 0 then "" else layout.separator
  {
    NothingWritten(layout, store.rows);
    output := layout.opening;
    count := 0;
    var first := true;
    while true
      invariant first == (count == 0) && Written(layout, store.rows, count, output)
      invariant count > 0 ==> |store.rows| <= MAXIMUM_EXPORT_ROWS
      decreases |store.rows| - count
    {
      var page := store.Page(count);
      ghost var offset := count;
      if |store.rows| > MAXIMUM_EXPORT_ROWS {
        return output, count, Some(TooManyRows);
      }
      for i := 0 to |page|
        invariant count == offset + i && first == (count == 0) && Written(layout, store.rows, count, output)
      {
        assert page[i] == store.rows[count];
        var written, ok := WriteExportRow(layout, page[i], first);
        if !ok {
          return output + written, count, Some(RowNotWritten);
        }
        WritesOneMore(layout, store.rows, count, output);
        output := output + written;
        first := false;
        count := count + 1;
      }
      if page == [] || count >= |store.rows| {
        break;
      }
    }
    assert store.rows[..count] == store.rows;
    return output + layout.ending, count, None;
  }

  // ---------- Reading the output back ----------

  /**
   Cuts a text at its line feeds; each piece that ends at one gives up the character before it (the comma, or
   the carriage return).
   */
  function Pieces(s: string): seq<string> {
    var k := LineEnd(s);
    if k == |s| then [s] else [if k == 0 then "" else s[..k - 1]] + Pieces(s[k + 1..])
  }

  function LineEnd(s: string): (k: nat)
    ensures k <= |s|
    ensures k < |s| ==> s[k] == '\n'
  {
    if s == "" || s[0] == '\n' then 0 else 1 + LineEnd(s[1..])
  }

  lemma {:induction false} LineEndAfter(line: string, rest: string)
    requires '\n' !in line
    ensures LineEnd(line) == |line|
    ensures LineEnd(line + "\n" + rest) == |line|
  {
    if line == "" {
      assert "" + "\n" + rest == "\n" + rest;
    } else {
      LineEndAfter(line[1..], rest);
      assert (line + "\n" + rest)[1..] == line[1..] + "\n" + rest;
    }
  }

  /** Rows without line feeds, joined by a two-character separator that ends in one, are cut back into the same rows. */
  lemma {:induction false} JoinedReadsBack(texts: seq<string>, mark: char)
    requires texts != [] && mark != '\n' && Plain(texts)
    ensures Pieces(Joined(texts, [mark, '\n'])) == texts
  {
    var line := texts[0];
    if |texts| == 1 {
      LineEndAfter(line, "");
      assert texts == [line];
    } else {
      var rest := Joined(texts[1..], [mark, '\n']);
      JoinedReadsBack(texts[1..], mark);
      var s := Joined(texts, [mark, '\n']);
      assert s == (line + [mark]) + "\n" + rest;
      LineEndAfter(line + [mark], rest);
      assert s[..|line|] == line && s[|line| + 2..] == rest;
      assert texts == [line] + texts[1..];
    }
  }

  /** What stands between the opening and the closing text of an export. */
  function Inside(layout: Layout, file: string): string
    requires |layout.opening| + |layout.ending| <= |file|
  {
    file[|layout.opening|..|file| - |layout.ending|]
  }

  /** The rows of a JSON or GeoJSON file can be recovered from it: encoders never put a raw line feed into a value. */
  lemma ListExportReadsBack(format: Format, rows: seq<Business>, enc: Encoders)
    requires (format.Json? || format.GeoJson?) && rows != [] && Writable(LayoutOf(format, enc), rows)
    requires Plain(Texts(LayoutOf(format, enc), rows))
    ensures var layout := LayoutOf(format, enc);
            var file := layout.opening + Body(layout, rows) + layout.ending;
            Pieces(Inside(layout, file)) == Texts(layout, rows)
  {
    var layout := LayoutOf(format, enc);
    InsideIsBody(layout, Body(layout, rows));
    JoinedReadsBack(Texts(layout, rows), ',');
  }

  lemma InsideIsBody(layout: Layout, body: string)
    ensures Inside(layout, layout.opening + body + layout.ending) == body
  {
    var file := layout.opening + body + layout.ending;
    assert |file| - |layout.ending| == |layout.opening| + |body|;
  }

  ghost predicate Plain(lines: seq<string>) {
    forall line :: line in lines ==> '\n' !in line
  }

  function Flat(groups: seq<seq<string>>): seq<string> {
    if groups == [] then [] else groups[0] + Flat(groups[1..])
  }

  lemma {:induction false} JoinedWithTail(lines: seq<string>, tail: seq<string>, separator: string)
    requires tail != []
    ensures Joined(lines + tail, separator) == Joined(lines + [""], separator) + Joined(tail, separator)
  {
    if lines == [] {
      assert lines + tail == tail && lines + [""] == [""];
    } else {
      JoinedWithTail(lines[1..], tail, separator);
      assert (lines + tail)[1..] == lines[1..] + tail && (lines + [""])[1..] == lines[1..] + [""];
      var x, y := Joined(lines[1..] + [""], separator), Joined(tail, separator);
      assert lines[0] + separator + (x + y) == (lines[0] + separator + x) + y;
    }
  }

  lemma {:induction false} TerminatedIsJoined(lines: seq<string>)
    ensures Terminated(lines) == Joined(lines + [""], "\r\n")
  {
    if lines == [] {
      assert lines + [""] == [""];
    } else {
      TerminatedIsJoined(lines[1..]);
      assert (lines + [""])[1..] == lines[1..] + [""];
    }
  }

  lemma LinesHaveNoBreak(name: string, phone: string, email: string, url: string, address: string)
    requires '\n' !in name && '\n' !in phone && '\n' !in email && '\n' !in url && '\n' !in address
    ensures Plain(LinesAround(name, phone, email, url, address))
  {
  }

  /** Texts that are lines ended by a separator make up, put together, the lines of all of them. */
  lemma {:induction false} GroupsAreTheirLines(texts: seq<string>, groups: seq<seq<string>>, separator: string)
    requires |texts| == |groups| && forall i :: 0 <= i < |texts| ==> texts[i] == Joined(groups[i] + [""], separator)
    ensures Joined(texts, "") == Joined(Flat(groups) + [""], separator)
  {
    if texts != [] {
      GroupsAreTheirLines(texts[1..], groups[1..], separator);
      JoinedWithTail(groups[0], Flat(groups[1..]) + [""], separator);
      assert Flat(groups) + [""] == groups[0] + (Flat(groups[1..]) + [""]);
      assert Joined(texts, "") == texts[0] + Joined(texts[1..], "");
    }
  }

  lemma OneMore(size: nat, n: nat)
    ensures size * (n + 1) == size + size * n
  {
  }

  lemma {:induction false} FlatSize(groups: seq<seq<string>>, size: nat)
    requires forall g :: g in groups ==> |g| == size
    ensures |Flat(groups)| == size * |groups|
  {
    if groups != [] {
      assert groups[0] in groups;
      FlatSize(groups[1..], size);
      OneMore(size, |groups| - 1);
    }
  }

  lemma {:induction false} FlatIsPlain(groups: seq<seq<string>>)
    requires forall g :: g in groups ==> Plain(g)
    ensures Plain(Flat(groups))
  {
    if groups != [] {
      assert groups[0] in groups;
      FlatIsPlain(groups[1..]);
    }
  }

  lemma {:induction false} FlatAt(groups: seq<seq<string>>, size: nat, i: nat, k: nat)
    requires i < |groups| && k < size && forall g :: g in groups ==> |g| == size
    ensures 0 <= i * size + k < |Flat(groups)| && Flat(groups)[i * size + k] == groups[i][k]
  {
    assert groups[0] in groups;
    if i > 0 {
      FlatAt(groups[1..], size, i - 1, k);
      assert i * size == (i - 1) * size + size;
    }
  }

  lemma GroupsReadBack(texts: seq<string>, groups: seq<seq<string>>, size: nat)
    requires |texts| == |groups| && forall i :: 0 <= i < |texts| ==> texts[i] == Joined(groups[i] + [""], "\r\n")
    requires forall g :: g in groups ==> |g| == size && Plain(g)
    ensures Pieces(Joined(texts, "")) == Flat(groups) + [""] && |Flat(groups)| == size * |groups|
  {
    FlatSize(groups, size);
    FlatIsPlain(groups);
    GroupsAreTheirLines(texts, groups, "\r\n");
    JoinedReadsBack(Flat(groups) + [""], '\r');
  }

  /** A layout that writes each row as its lines, ended by line breaks, is read back line by line. */
  lemma LinesReadBack(layout: Layout, lines: Business -> seq<string>, size: nat, rows: seq<Business>, i: nat, k: nat)
    requires layout.separator == "" && i < |rows| && k < size
    requires forall b :: layout.row(b) == Some(Joined(lines(b) + [""], "\r\n"))
    requires forall b :: |lines(b)| == size && Plain(lines(b))
    ensures var pieces := Pieces(Body(layout, rows)); |pieces| == size * |rows| + 1
    ensures var pieces := Pieces(Body(layout, rows));
            0 <= i * size + k < size * |rows| && pieces[i * size + k] == lines(rows[i])[k]
  {
    var groups := seq(|rows|, i requires 0 <= i < |rows| => lines(rows[i]));
    GroupsReadBack(Texts(layout, rows), groups, size);
    FlatAt(groups, size, i, k);
  }

  lemma CardIsPlain(b: Business)
    ensures VcardText(b) == Joined(CardLines(b) + [""], "\r\n")
    ensures |CardLines(b)| == 9 && Plain(CardLines(b))
  {
    VcardRoundTrip(b.name);
    VcardRoundTrip(b.phone);
    VcardRoundTrip(b.email);
    VcardRoundTrip(b.website);
    VcardRoundTrip(b.address);
    var name, phone, email, url, address :=
      VcardEscape(b.name), VcardEscape(b.phone), VcardEscape(b.email), VcardEscape(b.website), VcardEscape(b.address);
    TerminatedIsJoined(CardLines(b));
    LinesHaveNoBreak(name, phone, email, url, address);
  }

  lemma CardRow(b: Business, enc: Encoders)
    ensures LayoutOf(Vcard, enc).row(b) == Some(Joined(CardLines(b) + [""], "\r\n"))
    ensures |CardLines(b)| == 9 && Plain(CardLines(b))
  {
    CardIsPlain(b);
    assert LayoutOf(Vcard, enc).row(b) == Some(VcardText(b));
  }

  /**
   No value breaks out of its card: cut at its line breaks, a vCard export is nine lines a row, and
   line k of row i's card is line 9i + k.
   */
  lemma VcardExportReadsBack(rows: seq<Business>, enc: Encoders, i: nat, k: nat)
    requires i < |rows| && k < 9
    ensures var pieces := Pieces(Body(LayoutOf(Vcard, enc), rows));
            |pieces| == 9 * |rows| + 1 && pieces[i * 9 + k] == CardLines(rows[i])[k]
  {
    assert LayoutOf(Vcard, enc).separator == "";
    forall b
      ensures LayoutOf(Vcard, enc).row(b) == Some(Joined(CardLines(b) + [""], "\r\n"))
      ensures |CardLines(b)| == 9 && Plain(CardLines(b))
    {
      CardRow(b, enc);
    }
    LinesReadBack(LayoutOf(Vcard, enc), CardLines, 9, rows, i, k);
  }

  function CountOf(c: char, s: string): nat {
    if s == "" then 0 else (if s[0] == c then 1 else 0) + CountOf(c, s[1..])
  }

  lemma {:induction false} CountDistributes(c: char, s: string, t: string)
    ensures CountOf(c, s + t) == CountOf(c, s) + CountOf(c, t)
  {
    if s == "" {
      assert s + t == t;
    } else {
      assert (s + t)[1..] == s[1..] + t;
      CountDistributes(c, s[1..], t);
    }
  }

  lemma {:induction false} CountIsZeroIff(c: char, s: string)
    ensures CountOf(c, s) == 0 <==> c !in s
  {
    if s != "" {
      CountIsZeroIff(c, s[1..]);
    }
  }

  ghost predicate PlainFields(b: Business) {
    '\n' !in b.name && '\n' !in b.domain && '\n' !in b.email && '\n' !in b.phone && '\n' !in b.address
  }

  lemma TxtRowLines(b: Business)
    ensures CountOf('\n', TxtText(b)) >= 1
    ensures CountOf('\n', TxtText(b)) == 1 <==> PlainFields(b)
  {
    CountDistributes('\n', b.name + "\t" + b.domain + "\t" + b.email + "\t" + b.phone + "\t" + b.address, "\n");
    CountDistributes('\n', b.name + "\t" + b.domain + "\t" + b.email + "\t" + b.phone + "\t", b.address);
    CountDistributes('\n', b.name + "\t" + b.domain + "\t" + b.email + "\t" + b.phone, "\t");
    CountDistributes('\n', b.name + "\t" + b.domain + "\t" + b.email + "\t", b.phone);
    CountDistributes('\n', b.name + "\t" + b.domain + "\t" + b.email, "\t");
    CountDistributes('\n', b.name + "\t" + b.domain + "\t", b.email);
    CountDistributes('\n', b.name + "\t" + b.domain, "\t");
    CountDistributes('\n', b.name + "\t", b.domain);
    CountDistributes('\n', b.name, "\t");
    CountIsZeroIff('\n', b.name);
    CountIsZeroIff('\n', b.domain);
    CountIsZeroIff('\n', b.email);
    CountIsZeroIff('\n', b.phone);
    CountIsZeroIff('\n', b.address);
    assert CountOf('\n', "\t") == 0 && CountOf('\n', "\n") == 1;
  }

  /** A text export has one line per row exactly if no printed field holds a line feed: this format escapes nothing. */
  lemma {:induction false} TxtLinesAreRowsIff(rows: seq<Business>, enc: Encoders)
    ensures var lines := CountOf('\n', Body(LayoutOf(Txt, enc), rows));
            lines >= |rows| && (lines == |rows| <==> forall b :: b in rows ==> PlainFields(b))
  {
    if rows != [] {
      TxtLinesAreRowsIff(rows[1..], enc);
      TxtBodyStarts(rows, enc);
      TxtRowLines(rows[0]);
      CountDistributes('\n', TxtText(rows[0]), Body(LayoutOf(Txt, enc), rows[1..]));
      assert rows == [rows[0]] + rows[1..];
    }
  }

  lemma TxtBodyStarts(rows: seq<Business>, enc: Encoders)
    requires rows != []
    ensures Body(LayoutOf(Txt, enc), rows) == TxtText(rows[0]) + Body(LayoutOf(Txt, enc), rows[1..])
  {
    var texts := Texts(LayoutOf(Txt, enc), rows);
    assert texts[1..] == Texts(LayoutOf(Txt, enc), rows[1..]);
    JoinedBackToBack(texts);
  }

  lemma JoinedBackToBack(texts: seq<string>)
    requires texts != []
    ensures Joined(texts, "") == texts[0] + Joined(texts[1..], "")
  {
  }

  /** The text columns of an inserted row read back from its statement, as PostgreSQL reads literals. */
  lemma InsertReadsBack(b: Business)
    ensures INSERT <= SqlText(b)
    ensures ReadValues(SqlText(b)[|INSERT|..], 8) == Some((TextColumns(b), OtherColumns(b)))
  {
    RowReadsBack(TextColumns(b), OtherColumns(b));
    assert SqlText(b)[|INSERT|..] == ValueList(TextColumns(b)) + OtherColumns(b);
  }

  /**
   As MySQL reads it, they read back exactly if each backslash in them stands before a percent sign or an
   underscore.
   */
  lemma MysqlInsertReadsBackExactly(b: Business)
    ensures INSERT <= SqlText(b)
    ensures ReadMysqlValues(SqlText(b)[|INSERT|..], 8) == Some((TextColumns(b), OtherColumns(b)))
            <==> forall column :: column in TextColumns(b) ==> BackslashesStay(column)
  {
    var columns := TextColumns(b);
    MysqlRowReadsBackExactly(columns, OtherColumns(b));
    assert SqlText(b)[|INSERT|..] == ValueList(columns) + OtherColumns(b);
    assert (forall column :: column in columns ==> BackslashesStay(column))
      <==> forall i :: 0 <= i < |columns| ==> BackslashesStay(columns[i]);
  }
}
