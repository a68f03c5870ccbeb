/**
 The escapers of the exports (web/app_exports.go): vCard text by five whole-string
 replacements, read back by section 3.4 of RFC 6350, and SQL string literals.
 */
module Escaping {
  import opened Wrappers

  /** Replaces every occurrence of one character. */
  function ReplaceAll(s: string, old_: char, replacement: string): string {
    if s == "" then "" else (if s[0] == old_ then replacement else [s[0]]) + ReplaceAll(s[1..], old_, replacement)
  }

  function VcardEscape(value: string): string {
    var v1 := ReplaceAll(value, '\\', "\\\\");
    var v2 := ReplaceAll(v1, '\r', "");
    var v3 := ReplaceAll(v2, '\n', "\\n");
    var v4 := ReplaceAll(v3, ';', "\\;");
    ReplaceAll(v4, ',', "\\,")
  }

  // ---------- One character at a time ----------

  function EscapeChar(c: char): string {
    match c
    case '\\' => "\\\\"
    case '\r' => ""
    case '\n' => "\\n"
    case ';' => "\\;"
    case ',' => "\\,"
    case _ => [c]
  }

  function EscapeEach(s: string): string {
    if s == "" then "" else EscapeChar(s[0]) + EscapeEach(s[1..])
  }

  lemma {:induction false} ReplaceAllDistributes(a: string, b: string, old_: char, replacement: string)
    ensures ReplaceAll(a + b, old_, replacement) == ReplaceAll(a, old_, replacement) + ReplaceAll(b, old_, replacement)
  {
    if a == "" {
      assert a + b == b;
    } else {
      assert (a + b)[1..] == a[1..] + b;
      ReplaceAllDistributes(a[1..], b, old_, replacement);
    }
  }

  lemma VcardEscapeDistributes(a: string, b: string)
    ensures VcardEscape(a + b) == VcardEscape(a) + VcardEscape(b)
  {
    ReplaceAllDistributes(a, b, '\\', "\\\\");
    var a1, b1 := ReplaceAll(a, '\\', "\\\\"), ReplaceAll(b, '\\', "\\\\");
    ReplaceAllDistributes(a1, b1, '\r', "");
    var a2, b2 := ReplaceAll(a1, '\r', ""), ReplaceAll(b1, '\r', "");
    ReplaceAllDistributes(a2, b2, '\n', "\\n");
    var a3, b3 := ReplaceAll(a2, '\n', "\\n"), ReplaceAll(b2, '\n', "\\n");
    ReplaceAllDistributes(a3, b3, ';', "\\;");
    var a4, b4 := ReplaceAll(a3, ';', "\\;"), ReplaceAll(b3, ';', "\\;");
    ReplaceAllDistributes(a4, b4, ',', "\\,");
  }

  lemma ReplaceOne(c: char, old_: char, replacement: string)
    ensures ReplaceAll([c], old_, replacement) == if c == old_ then replacement else [c]
  {
    assert [c][1..] == "";
  }

  lemma ReplaceTwo(c: char, d: char, old_: char, replacement: string)
    requires c != old_ && d != old_
    ensures ReplaceAll([c, d], old_, replacement) == [c, d]
  {
    assert [c, d][1..] == [d];
    ReplaceOne(d, old_, replacement);
    assert [c] + [d] == [c, d];
  }

  lemma EscapesOneCharacter(c: char)
    ensures VcardEscape([c]) == EscapeChar(c)
  {
    ReplaceOne(c, '\\', "\\\\");
    ReplaceOne(c, '\r', "");
    ReplaceOne(c, '\n', "\\n");
    ReplaceOne(c, ';', "\\;");
    ReplaceOne(c, ',', "\\,");
    ReplaceTwo('\\', '\\', '\r', "");
    ReplaceTwo('\\', '\\', '\n', "\\n");
    ReplaceTwo('\\', '\\', ';', "\\;");
    ReplaceTwo('\\', '\\', ',', "\\,");
    ReplaceTwo('\\', 'n', ';', "\\;");
    ReplaceTwo('\\', 'n', ',', "\\,");
    ReplaceTwo('\\', ';', ',', "\\,");
  }

  /** The five replacements are one escape per character: none of them touches what an earlier one put in. */
  lemma {:induction false} VcardEscapesEachCharacter(value: string)
    ensures VcardEscape(value) == EscapeEach(value)
  {
    if value != "" {
      assert value == [value[0]] + value[1..];
      VcardEscapeDistributes([value[0]], value[1..]);
      EscapesOneCharacter(value[0]);
      VcardEscapesEachCharacter(value[1..]);
    }
  }

  // ---------- Reading back ----------

  /** The reader of section 3.4 of RFC 6350. */
  function Unescape(s: string): string {
    if s == "" then ""
    else if s[0] == '\\' && |s| > 1 then
      (if s[1] == 'n' || s[1] == 'N' then "\n" else [s[1]]) + Unescape(s[2..])
    else [s[0]] + Unescape(s[1..])
  }

  function WithoutCR(s: string): string {
    if s == "" then "" else (if s[0] == '\r' then "" else [s[0]]) + WithoutCR(s[1..])
  }

  lemma {:induction false} UnescapeReadsBack(value: string)
    ensures Unescape(EscapeEach(value)) == WithoutCR(value)
  {
    if value != "" {
      UnescapeReadsBack(value[1..]);
      UnescapesOneCharacter(value[0], EscapeEach(value[1..]));
    }
  }

  lemma UnescapesOneCharacter(c: char, rest: string)
    ensures Unescape(EscapeChar(c) + rest) == (if c == '\r' then "" else [c]) + Unescape(rest)
  {
    var e := EscapeChar(c);
    if |e| == 2 {
      assert (e + rest)[2..] == rest;
    } else if |e| == 1 {
      assert (e + rest)[1..] == rest;
    } else {
      assert e + rest == rest && "" + Unescape(rest) == Unescape(rest);
    }
  }

  lemma {:induction false} WithoutCRIsShorter(s: string)
    ensures |WithoutCR(s)| <= |s|
    ensures WithoutCR(s) == s <==> '\r' !in s
  {
    if s != "" {
      WithoutCRIsShorter(s[1..]);
    }
  }

  lemma {:induction false} EscapedHasNoBreak(value: string)
    ensures '\n' !in EscapeEach(value) && '\r' !in EscapeEach(value)
  {
    if value != "" {
      EscapedHasNoBreak(value[1..]);
    }
  }

  /**
   The escaped text has no line break, reads back to the input without carriage returns, and so to the input
   exactly if it has none.
   */
  lemma VcardRoundTrip(value: string)
    ensures '\n' !in VcardEscape(value) && '\r' !in VcardEscape(value)
    ensures Unescape(VcardEscape(value)) == WithoutCR(value)
    ensures Unescape(VcardEscape(value)) == value <==> '\r' !in value
  {
    VcardEscapesEachCharacter(value);
    EscapedHasNoBreak(value);
    UnescapeReadsBack(value);
    WithoutCRIsShorter(value);
  }

  /** Where a component of a structured value ends: at its first unescaped semicolon. */
  function ComponentEnd(s: string): (k: nat)
    ensures k <= |s|
  {
    if s == "" || s[0] == ';' then 0
    else if s[0] == '\\' && |s| > 1 then 2 + ComponentEnd(s[2..])
    else 1 + ComponentEnd(s[1..])
  }

  /** An escaped value stays one component, whatever follows its separator. */
  lemma {:induction false} EscapedIsOneComponent(value: string, rest: string)
    ensures ComponentEnd(EscapeEach(value) + ";" + rest) == |EscapeEach(value)|
  {
    if value == "" {
      assert "" + ";" + rest == ";" + rest;
    } else {
      var e, tail := EscapeChar(value[0]), EscapeEach(value[1..]) + ";" + rest;
      EscapedIsOneComponent(value[1..], rest);
      assert EscapeEach(value) + ";" + rest == e + tail;
      if |e| == 2 {
        assert (e + tail)[2..] == tail;
      } else if |e| == 1 {
        assert (e + tail)[1..] == tail;
      } else {
        assert e + tail == tail;
      }
    }
  }

  /** The components of a structured value. */
  function Components(s: string): seq<string> {
    var k := ComponentEnd(s);
    if k == |s| then [s] else [s[..k]] + Components(s[k + 1..])
  }

  lemma FirstComponent(value: string, rest: string)
    ensures Components(EscapeEach(value) + ";" + rest) == [EscapeEach(value)] + Components(rest)
  {
    var s := EscapeEach(value) + ";" + rest;
    EscapedIsOneComponent(value, rest);
    assert s[..|EscapeEach(value)|] == EscapeEach(value) && s[|EscapeEach(value)| + 1..] == rest;
  }

  lemma EmptyComponent(rest: string)
    ensures Components(";" + rest) == [""] + Components(rest)
  {
    FirstComponent("", rest);
    assert EscapeEach("") + ";" + rest == ";" + rest;
  }

  lemma FourEmptyComponents()
    ensures Components(";;;") == ["", "", "", ""]
  {
    EmptyComponent("");
    TwoEmptyComponents(";");
    assert ";" + "" == ";" && ";;" + ";" == ";;;";
    assert Components("") == [""];
  }

  lemma TwoEmptyComponents(rest: string)
    ensures Components(";;" + rest) == ["", ""] + Components(rest)
  {
    EmptyComponent(rest);
    EmptyComponent(";" + rest);
    assert ";" + (";" + rest) == ";;" + rest;
    assert [""] + ([""] + Components(rest)) == ["", ""] + Components(rest);
  }

  /** The address line has seven components, of which the third is the escaped address and the others are empty. */
  lemma AddressIsThirdComponent(address: string)
    ensures Components(";;" + VcardEscape(address) + ";;;;") == ["", "", VcardEscape(address), "", "", "", ""]
  {
    VcardEscapesEachCharacter(address);
    ThirdComponent(VcardEscape(address), address);
  }

  lemma ThirdComponent(escaped: string, address: string)
    requires escaped == EscapeEach(address)
    ensures Components(";;" + escaped + ";;;;") == ["", "", escaped, "", "", "", ""]
  {
    FirstComponent(address, ";;;");
    FourEmptyComponents();
    TwoEmptyComponents(escaped + ";" + ";;;");
    SevenParts(escaped);
  }

  lemma SevenParts(part: string)
    ensures ";;" + part + ";;;;" == ";;" + (part + ";" + ";;;")
    ensures ["", ""] + ([part] + ["", "", "", ""]) == ["", "", part, "", "", "", ""]
  {
  }

  // ---------- SQL literals ----------

  function SqlExportValue(value: string): string {
    "'" + ReplaceAll(value, '\'', "''") + "'"
  }

  /** The body of a literal after its opening quote: a doubled quote stands for one, a single one ends it. */
  function ReadBody(s: string): Option<(string, string)> {
    if s == "" then None
    else if s[0] == '\'' then
      if |s| > 1 && s[1] == '\'' then
        var r := ReadBody(s[2..]);
        if r.None? then None else Some(("'" + r.value.0, r.value.1))
      else Some(("", s[1..]))
    else
      var r := ReadBody(s[1..]);
      if r.None? then None else Some(([s[0]] + r.value.0, r.value.1))
  }

  /** A literal's value and the text behind it. */
  function ReadLiteral(s: string): Option<(string, string)> {
    if s != "" && s[0] == '\'' then ReadBody(s[1..]) else None
  }

  lemma {:induction false} BodyReadsBack(value: string, rest: string)
    requires rest == "" || rest[0] != '\''
    ensures ReadBody(ReplaceAll(value, '\'', "''") + "'" + rest) == Some((value, rest))
  {
    if value == "" {
      assert "" + "'" + rest == "'" + rest;
    } else {
      var e := if value[0] == '\'' then "''" else [value[0]];
      var tail := ReplaceAll(value[1..], '\'', "''") + "'" + rest;
      assert ReplaceAll(value, '\'', "''") + "'" + rest == e + tail;
      BodyReadsBack(value[1..], rest);
      if value[0] == '\'' {
        assert (e + tail)[2..] == tail;
      } else {
        assert (e + tail)[1..] == tail;
      }
      assert value == [value[0]] + value[1..];
    }
  }

  /**
   As PostgreSQL reads it, a literal gives back its value and ends where it should, in any statement that
   glues no quote to it.
   */
  lemma LiteralReadsBack(value: string, rest: string)
    requires rest == "" || rest[0] != '\''
    ensures ReadLiteral(SqlExportValue(value) + rest) == Some((value, rest))
  {
    BodyReadsBack(value, rest);
    assert (SqlExportValue(value) + rest)[1..] == ReplaceAll(value, '\'', "''") + "'" + rest;
  }

  // ---------- SQL literals as MySQL reads them ----------

  /** What a backslash and the character behind it stand for. Before a percent sign or an underscore it stays. */
  function Unbackslashed(c: char): string {
    match c
    case '0' => "\0"
    case 'b' => "\U{08}"
    case 'n' => "\n"
    case 'r' => "\r"
    case 't' => "\t"
    case 'Z' => "\U{1a}"
    case '%' => "\\%"
    case '_' => "\\_"
    case _ => [c]
  }

  /** The body of a literal in MySQL's default mode, where a backslash escapes the character behind it. */
  function ReadMysqlBody(s: string): Option<(string, string)> {
    if s == "" then None
    else if s[0] == '\\' then
      if |s| == 1 then None
      else
        var r := ReadMysqlBody(s[2..]);
        if r.None? then None else Some((Unbackslashed(s[1]) + r.value.0, r.value.1))
    else if s[0] == '\'' then
      if |s| > 1 && s[1] == '\'' then
        var r := ReadMysqlBody(s[2..]);
        if r.None? then None else Some(("'" + r.value.0, r.value.1))
      else Some(("", s[1..]))
    else
      var r := ReadMysqlBody(s[1..]);
      if r.None? then None else Some(([s[0]] + r.value.0, r.value.1))
  }

  function ReadMysqlLiteral(s: string): Option<(string, string)> {
    if s != "" && s[0] == '\'' then ReadMysqlBody(s[1..]) else None
  }

  /** Every backslash stands before a percent sign or an underscore, where MySQL leaves it alone. */
  predicate BackslashesStay(value: string) {
    if value == "" then true
    else if value[0] == '\\' then |value| > 1 && (value[1] == '%' || value[1] == '_') && BackslashesStay(value[2..])
    else BackslashesStay(value[1..])
  }

  lemma {:induction false} NoBackslashStays(value: string)
    requires '\\' !in value
    ensures BackslashesStay(value)
  {
    if value != "" {
      NoBackslashStays(value[1..]);
    }
  }

  /** The characters of a text other than quotes; reading a literal never adds to them. */
  function OtherThanQuotes(s: string): nat {
    if s == "" then 0 else (if s[0] == '\'' then 0 else 1) + OtherThanQuotes(s[1..])
  }

  lemma {:induction false} OtherThanQuotesAdds(s: string, t: string)
    ensures OtherThanQuotes(s + t) == OtherThanQuotes(s) + OtherThanQuotes(t)
  {
    if s == "" {
      assert s + t == t;
    } else {
      assert (s + t)[1..] == s[1..] + t;
      OtherThanQuotesAdds(s[1..], t);
    }
  }

  lemma {:induction false} ReadingAddsNothing(s: string)
    requires ReadMysqlBody(s).Some?
    ensures var (value, rest) := ReadMysqlBody(s).value;
            OtherThanQuotes(value) + OtherThanQuotes(rest) <= OtherThanQuotes(s)
    ensures s != ""
    ensures s[0] == '\\' && s[1] != '%' && s[1] != '_' ==>
              var (value, rest) := ReadMysqlBody(s).value;
              OtherThanQuotes(value) + OtherThanQuotes(rest) < OtherThanQuotes(s)
    decreases |s|
  {
    if s[0] == '\\' {
      ReadingAddsNothing(s[2..]);
      assert s[1..][1..] == s[2..];
      UnbackslashedWeighs(s[1]);
      OtherThanQuotesAdds(Unbackslashed(s[1]), ReadMysqlBody(s[2..]).value.0);
    } else if s[0] == '\'' {
      if |s| > 1 && s[1] == '\'' {
        ReadingAddsNothing(s[2..]);
        assert s[1..][1..] == s[2..];
        OtherThanQuotesAdds("'", ReadMysqlBody(s[2..]).value.0);
      }
    } else {
      ReadingAddsNothing(s[1..]);
      OtherThanQuotesAdds([s[0]], ReadMysqlBody(s[1..]).value.0);
    }
  }

  lemma {:induction false} WeighsAtMostItsLength(s: string)
    ensures OtherThanQuotes(s) <= |s|
  {
    if s != "" {
      WeighsAtMostItsLength(s[1..]);
    }
  }

  lemma UnbackslashedWeighs(c: char)
    ensures OtherThanQuotes(Unbackslashed(c)) <= 1 + if c == '\'' then 0 else 1
    ensures c != '%' && c != '_' ==> OtherThanQuotes(Unbackslashed(c)) <= if c == '\'' then 0 else 1
  {
    if c == '%' || c == '_' {
      WeighsAtMostItsLength(Unbackslashed(c));
    } else {
      var u := Unbackslashed(c);
      assert |u| == 1 && u[1..] == "";
    }
  }

  lemma {:induction false} DoublingAddsQuotes(value: string)
    ensures OtherThanQuotes(ReplaceAll(value, '\'', "''")) == OtherThanQuotes(value)
  {
    if value != "" {
      DoublingAddsQuotes(value[1..]);
      OtherThanQuotesAdds(if value[0] == '\'' then "''" else [value[0]], ReplaceAll(value[1..], '\'', "''"));
      assert "''"[1..] == "'" && "'"[1..] == "" && [value[0]][1..] == "";
    }
  }

  function LiteralBody(value: string, rest: string): string {
    ReplaceAll(value, '\'', "''") + "'" + rest
  }

  lemma BodyWeighs(value: string, rest: string)
    ensures OtherThanQuotes(LiteralBody(value, rest)) == OtherThanQuotes(value) + OtherThanQuotes(rest)
  {
    var doubled := ReplaceAll(value, '\'', "''");
    DoublingAddsQuotes(value);
    OtherThanQuotesAdds(doubled + "'", rest);
    OtherThanQuotesAdds(doubled, "'");
    assert "'"[1..] == "";
  }

  lemma BodyStarts(value: string, rest: string)
    requires value != ""
    ensures LiteralBody(value, rest) == (if value[0] == '\'' then "''" else [value[0]]) + LiteralBody(value[1..], rest)
  {
  }

  /** A backslash that is taken for an escape loses something, so the value cannot come back. */
  lemma EscapeLoses(value: string, rest: string)
    requires value != "" && value[0] == '\\' && (|value| == 1 || (value[1] != '%' && value[1] != '_'))
    requires ReadMysqlBody(LiteralBody(value, rest)).Some?
    ensures var r := ReadMysqlBody(LiteralBody(value, rest)).value; LosesFrom(value, rest, r)
  {
    var s := LiteralBody(value, rest);
    BodyStarts(value, rest);
    if |value| > 1 {
      BodyStarts(value[1..], rest);
    }
    assert |s| > 1 && s[0] == '\\' && s[1] == if |value| > 1 then value[1] else '\'';
    BodyWeighs(value, rest);
    ReadingAddsNothing(s);
  }

  /** What was read weighs less than what was written, so they differ. */
  predicate LosesFrom(value: string, rest: string, r: (string, string)) {
    OtherThanQuotes(r.0) + OtherThanQuotes(r.1) < OtherThanQuotes(value) + OtherThanQuotes(rest)
  }

  lemma {:induction false} UnsafeLoses(value: string, rest: string)
    requires !BackslashesStay(value) && ReadMysqlBody(LiteralBody(value, rest)).Some?
    ensures LosesFrom(value, rest, ReadMysqlBody(LiteralBody(value, rest)).value)
    decreases |value|
  {
    if value[0] == '\\' && (|value| == 1 || (value[1] != '%' && value[1] != '_')) {
      EscapeLoses(value, rest);
    } else {
      var n := if value[0] == '\\' then 2 else 1;
      KeptPrefix(value, rest);
      UnsafeLoses(value[n..], rest);
      var read := ReadMysqlBody(LiteralBody(value[n..], rest)).value.0;
      assert value == value[..n] + value[n..];
      OtherThanQuotesAdds(value[..n], value[n..]);
      OtherThanQuotesAdds(value[..n], read);
    }
  }

  /**
   What is read as it stands: a character that is not a backslash, or a backslash that stays with what is
   behind it.
   */
  lemma KeptPrefix(value: string, rest: string)
    requires value != ""
    requires value[0] == '\\' ==> |value| > 1 && (value[1] == '%' || value[1] == '_')
    ensures var n := if value[0] == '\\' then 2 else 1;
            var r := ReadMysqlBody(LiteralBody(value[n..], rest));
            ReadMysqlBody(LiteralBody(value, rest))
            == if r.None? then None else Some((value[..n] + r.value.0, r.value.1))
  {
    if value[0] == '\\' {
      KeptPair(value, rest);
    } else {
      PlainCharacter(value, rest);
    }
  }

  lemma KeptPair(value: string, rest: string)
    requires |value| > 1 && value[0] == '\\' && (value[1] == '%' || value[1] == '_')
    ensures var r := ReadMysqlBody(LiteralBody(value[2..], rest));
            ReadMysqlBody(LiteralBody(value, rest))
            == if r.None? then None else Some((value[..2] + r.value.0, r.value.1))
  {
    var s, tail := LiteralBody(value, rest), LiteralBody(value[2..], rest);
    BodyStarts(value, rest);
    BodyStarts(value[1..], rest);
    assert value[1..][1..] == value[2..];
    assert s[0] == '\\' && s[1] == value[1] && s[2..] == tail;
    assert Unbackslashed(value[1]) == value[..2];
  }

  lemma PlainCharacter(value: string, rest: string)
    requires value != "" && value[0] != '\\'
    ensures var r := ReadMysqlBody(LiteralBody(value[1..], rest));
            ReadMysqlBody(LiteralBody(value, rest))
            == if r.None? then None else Some((value[..1] + r.value.0, r.value.1))
  {
    var s, tail := LiteralBody(value, rest), LiteralBody(value[1..], rest);
    BodyStarts(value, rest);
    assert value[..1] == [value[0]];
    if value[0] == '\'' {
      assert s[..2] == "''" && s[2..] == tail;
    } else {
      assert s[0] == value[0] && s[1..] == tail;
    }
  }

  lemma {:induction false} SafeReadsBack(value: string, rest: string)
    requires BackslashesStay(value) && (rest == "" || rest[0] != '\'')
    ensures ReadMysqlBody(LiteralBody(value, rest)) == Some((value, rest))
    decreases |value|
  {
    if value == "" {
      assert LiteralBody(value, rest) == "'" + rest;
    } else {
      var n := if value[0] == '\\' then 2 else 1;
      SafeReadsBack(value[n..], rest);
      KeptPrefix(value, rest);
      assert value == value[..n] + value[n..];
    }
  }

  /**
   As MySQL reads it, a literal gives back its value exactly if each backslash stands before a percent sign or
   an underscore.
   */
  lemma MysqlLiteralReadsBackExactly(value: string, rest: string)
    requires rest == "" || rest[0] != '\''
    ensures ReadMysqlLiteral(SqlExportValue(value) + rest) == Some((value, rest)) <==> BackslashesStay(value)
    ensures '\\' !in value ==> BackslashesStay(value)
  {
    LiteralIsItsBody(value, rest);
    if BackslashesStay(value) {
      SafeReadsBack(value, rest);
    } else if ReadMysqlLiteral(SqlExportValue(value) + rest).Some? {
      UnsafeLoses(value, rest);
    }
    if '\\' !in value {
      NoBackslashStays(value);
    }
  }

  lemma LiteralIsItsBody(value: string, rest: string)
    ensures ReadMysqlLiteral(SqlExportValue(value) + rest) == ReadMysqlBody(LiteralBody(value, rest))
  {
    assert (SqlExportValue(value) + rest)[1..] == LiteralBody(value, rest);
  }

  // ---------- Value lists ----------

  /** The value list of an insert: literals joined by commas, up to the closing parenthesis. */
  function ValueList(values: seq<string>): string
    requires values != []
  {
    if |values| == 1 then SqlExportValue(values[0]) else SqlExportValue(values[0]) + "," + ValueList(values[1..])
  }

  function ReadValues(s: string, n: nat): Option<(seq<string>, string)>
    requires n > 0
    decreases n
  {
    var first := ReadLiteral(s);
    if first.None? then None
    else if n == 1 then Some(([first.value.0], first.value.1))
    else if first.value.1 == "" || first.value.1[0] != ',' then None
    else
      var others := ReadValues(first.value.1[1..], n - 1);
      if others.None? then None else Some(([first.value.0] + others.value.0, others.value.1))
  }

  lemma ReadValuesStep(s: string, v: string, tail: string, n: nat, vs: seq<string>, rest: string)
    requires n > 1 && ReadLiteral(s) == Some((v, tail)) && tail != "" && tail[0] == ','
    requires ReadValues(tail[1..], n - 1) == Some((vs, rest))
    ensures ReadValues(s, n) == Some(([v] + vs, rest))
  {
  }

  /** Every column of an inserted row reads back to its own value. */
  lemma {:induction false} RowReadsBack(values: seq<string>, rest: string)
    requires values != [] && (rest == "" || rest[0] != '\'')
    ensures ReadValues(ValueList(values) + rest, |values|) == Some((values, rest))
  {
    if |values| == 1 {
      LiteralReadsBack(values[0], rest);
      assert [values[0]] == values;
    } else {
      var tail := "," + ValueList(values[1..]) + rest;
      RowReadsBack(values[1..], rest);
      LiteralReadsBack(values[0], tail);
      RowText(values, rest, tail);
      ReadValuesStep(ValueList(values) + rest, values[0], tail, |values|, values[1..], rest);
      assert [values[0]] + values[1..] == values;
    }
  }

  lemma RowText(values: seq<string>, rest: string, tail: string)
    requires |values| > 1 && tail == "," + ValueList(values[1..]) + rest
    ensures ValueList(values) + rest == SqlExportValue(values[0]) + tail && tail[1..] == ValueList(values[1..]) + rest
  {
    Regroup(SqlExportValue(values[0]), ValueList(values[1..]), rest);
  }

  lemma Regroup(first: string, others: string, rest: string)
    ensures first + "," + others + rest == first + ("," + others + rest)
    ensures ("," + others + rest)[1..] == others + rest
  {
  }

  // ---------- Value lists as MySQL reads them ----------

  function ReadMysqlValues(s: string, n: nat): Option<(seq<string>, string)>
    requires n > 0
    decreases n
  {
    var first := ReadMysqlLiteral(s);
    if first.None? then None
    else if n == 1 then Some(([first.value.0], first.value.1))
    else if first.value.1 == "" || first.value.1[0] != ',' then None
    else
      var others := ReadMysqlValues(first.value.1[1..], n - 1);
      if others.None? then None else Some(([first.value.0] + others.value.0, others.value.1))
  }

  /** The weight of a list of values and of the commas between them. */
  function ListWeight(values: seq<string>): nat
    requires values != []
  {
    OtherThanQuotes(values[0]) + if |values| == 1 then 0 else 1 + ListWeight(values[1..])
  }

  lemma CommaWeighs(s: string)
    requires s != "" && s[0] == ','
    ensures OtherThanQuotes(s) == 1 + OtherThanQuotes(s[1..])
  {
  }

  lemma LiteralWeighs(s: string)
    requires ReadMysqlLiteral(s).Some?
    ensures var (value, rest) := ReadMysqlLiteral(s).value;
            OtherThanQuotes(value) + OtherThanQuotes(rest) <= OtherThanQuotes(s)
  {
    ReadingAddsNothing(s[1..]);
  }

  lemma {:induction false} ReadListAddsNothing(s: string, n: nat)
    requires n > 0 && ReadMysqlValues(s, n).Some?
    ensures var (values, rest) := ReadMysqlValues(s, n).value;
            |values| == n && ListWeight(values) + OtherThanQuotes(rest) <= OtherThanQuotes(s)
    decreases n
  {
    LiteralWeighs(s);
    if n > 1 {
      var (first, tail) := ReadMysqlLiteral(s).value;
      CommaWeighs(tail);
      ReadListAddsNothing(tail[1..], n - 1);
      var others := ReadMysqlValues(tail[1..], n - 1).value.0;
      assert ([first] + others)[1..] == others;
    }
  }

  lemma {:induction false} WrittenListWeighs(values: seq<string>, rest: string)
    requires values != []
    ensures OtherThanQuotes(ValueList(values) + rest) == ListWeight(values) + OtherThanQuotes(rest)
  {
    if |values| == 1 {
      ValueWeighs(values[0], rest);
    } else {
      var tail := "," + ValueList(values[1..]) + rest;
      WrittenListWeighs(values[1..], rest);
      RowText(values, rest, tail);
      CommaWeighs(tail);
      ValueWeighs(values[0], tail);
    }
  }

  lemma ValueWeighs(value: string, rest: string)
    ensures OtherThanQuotes(SqlExportValue(value) + rest) == OtherThanQuotes(value) + OtherThanQuotes(rest)
  {
    BodyWeighs(value, rest);
    assert (SqlExportValue(value) + rest)[1..] == LiteralBody(value, rest);
  }

  /** A first value that does not come back is read as something lighter, and the others cannot make up for it. */
  lemma FirstOfList(values: seq<string>, rest: string)
    requires |values| > 1 && !BackslashesStay(values[0])
    ensures ReadMysqlValues(ValueList(values) + rest, |values|) != Some((values, rest))
  {
    var tail := "," + ValueList(values[1..]) + rest;
    RowText(values, rest, tail);
    LiteralIsItsBody(values[0], tail);
    var s := ValueList(values) + rest;
    if ReadMysqlValues(s, |values|).Some? {
      UnsafeLoses(values[0], tail);
      var (first, t) := ReadMysqlLiteral(s).value;
      CommaWeighs(t);
      ReadListAddsNothing(t[1..], |values| - 1);
      CommaWeighs(tail);
      WrittenListWeighs(values[1..], rest);
      var others := ReadMysqlValues(t[1..], |values| - 1).value.0;
      assert ([first] + others)[1..] == others;
    }
  }

  lemma RestOfList(values: seq<string>, rest: string)
    requires |values| > 1 && BackslashesStay(values[0])
    ensures ReadMysqlValues(ValueList(values) + rest, |values|) == Some((values, rest))
            <==> ReadMysqlValues(ValueList(values[1..]) + rest, |values| - 1) == Some((values[1..], rest))
  {
    var tail := "," + ValueList(values[1..]) + rest;
    RowText(values, rest, tail);
    LiteralIsItsBody(values[0], tail);
    SafeReadsBack(values[0], tail);
    var others := ReadMysqlValues(tail[1..], |values| - 1);
    assert others.Some? ==> ([values[0]] + others.value.0)[1..] == others.value.0;
    assert [values[0]] + values[1..] == values;
  }

  /** As MySQL reads it, a value list gives back its values exactly if each of them would come back alone. */
  lemma {:induction false} MysqlRowReadsBackExactly(values: seq<string>, rest: string)
    requires values != [] && (rest == "" || rest[0] != '\'')
    ensures ReadMysqlValues(ValueList(values) + rest, |values|) == Some((values, rest))
            <==> forall i :: 0 <= i < |values| ==> BackslashesStay(values[i])
  {
    if |values| == 1 {
      MysqlLiteralReadsBackExactly(values[0], rest);
      assert [values[0]] == values;
    } else if BackslashesStay(values[0]) {
      RestOfList(values, rest);
      MysqlRowReadsBackExactly(values[1..], rest);
      assert forall i :: 0 < i < |values| ==> values[i] == values[1..][i - 1];
    } else {
      FirstOfList(values, rest);
    }
  }
}
