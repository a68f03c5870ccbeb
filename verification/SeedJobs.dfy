/**
 Grid seed jobs and their deterministic ids (runner/jobs.go). The name-based UUID is an
 uninterpreted hash with results of one length; so is the source of random ids.
 */
module SeedJobs {
  import opened Wrappers
  import opened Decimal
  import opened Tables

  const SEPARATOR: char := '\U{1f}'
  const DELIMITER: string := "#!#"

  datatype Query = Query(text: string, id: string)

  datatype SeedError = InvalidZoom | NoCells | EmptyQueryText | NoQueries

  /** `geo` is the cell's coordinates as text. */
  datatype SeedJob = SeedJob(id: string, query: string, geo: string, zoom: int)

  // ---------- Query lines ----------

  predicate IsSpace(c: char) {
    c == ' ' || c == '\t' || c == '\n' || c == '\r' || c == '\U{0b}' || c == '\U{0c}' || c == '\U{85}' || c == '\U{a0}'
  }

  function TrimSpace(s: string): string {
    if s == "" then s
    else if IsSpace(s[0]) then TrimSpace(s[1..])
    else if IsSpace(s[|s| - 1]) then TrimSpace(s[..|s| - 1])
    else s
  }

  predicate Trimmed(s: string) {
    s == "" || (!IsSpace(s[0]) && !IsSpace(s[|s| - 1]))
  }

  /** The first position of the delimiter, or the length of the line. */
  function CutIndex(line: string): (k: nat)
    ensures k <= |line|
    ensures k < |line| ==> DELIMITER <= line[k..]
  {
    if line == "" || DELIMITER <= line then 0 else 1 + CutIndex(line[1..])
  }

  /** No query for a blank line, an error for an empty text before the delimiter. */
  function ParseQueryLine(line: string): Result<Option<Query>, SeedError> {
    var trimmed := TrimSpace(line);
    if trimmed == "" then Ok(None)
    else
      var k := CutIndex(trimmed);
      var q := if k < |trimmed|
               then Query(TrimSpace(trimmed[..k]), TrimSpace(trimmed[k + |DELIMITER|..]))
               else Query(trimmed, "");
      if q.text == "" then Err(EmptyQueryText) else Ok(Some(q))
  }

  /** The queries of the lines up to the first bad one, which fails the whole input. */
  function QueriesOf(lines: seq<string>): Result<seq<Query>, SeedError> {
    if lines == [] then Ok([])
    else
      var before := QueriesOf(lines[..|lines| - 1]);
      if before.Err? then before
      else
        var q := ParseQueryLine(lines[|lines| - 1]);
        if q.Err? then Err(q.error)
        else if q.value.None? then before
        else Ok(before.value + [q.value.value])
  }

  method ReadQueries(lines: seq<string>) returns (r: Result<seq<Query>, SeedError>)
    ensures r == QueriesOf(lines)
  {
    var queries := [];
    var i := 0;
    while i < |lines|
      invariant 0 <= i <= |lines| && QueriesOf(lines[..i]) == Ok(queries)
    {
      assert lines[..i + 1][..i] == lines[..i];
      var q := ParseQueryLine(lines[i]);
      if q.Err? {
        ErrorsPersist(lines, i + 1);
        return Err(q.error);
      }
      if q.value.Some? {
        queries := queries + [q.value.value];
      }
      i := i + 1;
    }
    assert lines[..i] == lines;
    return Ok(queries);
  }

  lemma {:induction false} ErrorsPersist(lines: seq<string>, i: nat)
    requires i <= |lines| && QueriesOf(lines[..i]).Err?
    ensures QueriesOf(lines) == QueriesOf(lines[..i])
    decreases |lines| - i
  {
    if i == |lines| {
      assert lines[..i] == lines;
    } else {
      assert lines[..i + 1][..i] == lines[..i];
      ErrorsPersist(lines, i + 1);
    }
  }

  lemma {:induction false} TrimSpaceTrims(s: string)
    ensures Trimmed(TrimSpace(s))
    decreases |s|
  {
    if s != "" {
      if IsSpace(s[0]) {
        TrimSpaceTrims(s[1..]);
      } else if IsSpace(s[|s| - 1]) {
        TrimSpaceTrims(s[..|s| - 1]);
      }
    }
  }

  predicate HasDelimiterAt(s: string, i: nat) {
    i + |DELIMITER| <= |s| && s[i..i + |DELIMITER|] == DELIMITER
  }

  ghost predicate NoDelimiter(s: string) {
    forall i: nat :: !HasDelimiterAt(s, i)
  }

  lemma {:induction false} CutIndexIsFirst(s: string)
    ensures CutIndex(s) < |s| ==> HasDelimiterAt(s, CutIndex(s))
    ensures forall i: nat :: i < CutIndex(s) ==> !HasDelimiterAt(s, i)
    ensures CutIndex(s) == |s| ==> NoDelimiter(s)
  {
    if s != "" && !(DELIMITER <= s) {
      CutIndexIsFirst(s[1..]);
      forall i: nat | i > 0 ensures HasDelimiterAt(s, i) <==> HasDelimiterAt(s[1..], i - 1) {
        DelimiterShifts(s, i);
      }
      assert !HasDelimiterAt(s, 0);
    }
  }

  lemma DelimiterShifts(s: string, i: nat)
    requires s != "" && i > 0
    ensures HasDelimiterAt(s, i) <==> HasDelimiterAt(s[1..], i - 1)
  {
    if i + |DELIMITER| <= |s| {
      assert s[1..][i - 1..i - 1 + |DELIMITER|] == s[i..i + |DELIMITER|];
    }
  }

  /** What a parsed query looks like: a trimmed text without the delimiter, and a trimmed id. */
  ghost predicate Normal(q: Query) {
    q.text != "" && Trimmed(q.text) && NoDelimiter(q.text) && Trimmed(q.id)
  }

  function Render(q: Query): string {
    if q.id == "" then q.text else q.text + " " + DELIMITER + " " + q.id
  }

  lemma SliceHasNoDelimiter(s: string, i: nat, j: nat)
    requires i <= j <= |s| && forall k: nat :: k < j ==> !HasDelimiterAt(s, k)
    ensures NoDelimiter(s[i..j])
  {
    forall k: nat ensures !HasDelimiterAt(s[i..j], k) {
      if k + |DELIMITER| <= j - i {
        SliceOfSlice(s, i, j, k, k + |DELIMITER|);
        assert !HasDelimiterAt(s, i + k);
      }
    }
  }

  lemma SliceOfSlice(s: string, i: nat, j: nat, k: nat, l: nat)
    requires i <= j <= |s| && k <= l <= j - i
    ensures s[i..j][k..l] == s[i + k..i + l]
  {
    var part, whole := s[i..j][k..l], s[i + k..i + l];
    assert |part| == |whole| && forall m :: 0 <= m < |part| ==> part[m] == s[i..j][k + m] == s[i + k + m] == whole[m];
  }

  lemma {:induction false} TrimmedHasNoDelimiter(s: string)
    requires NoDelimiter(s)
    ensures NoDelimiter(TrimSpace(s))
    decreases |s|
  {
    if s != "" {
      if IsSpace(s[0]) {
        SliceHasNoDelimiter(s, 1, |s|);
        assert s[1..] == s[1..|s|];
        TrimmedHasNoDelimiter(s[1..]);
      } else if IsSpace(s[|s| - 1]) {
        SliceHasNoDelimiter(s, 0, |s| - 1);
        assert s[..|s| - 1] == s[0..|s| - 1];
        TrimmedHasNoDelimiter(s[..|s| - 1]);
      }
    }
  }

  lemma ParsedQueryIsNormal(line: string)
    requires ParseQueryLine(line).Ok? && ParseQueryLine(line).value.Some?
    ensures Normal(ParseQueryLine(line).value.value)
  {
    var trimmed := TrimSpace(line);
    TrimSpaceTrims(line);
    CutIndexIsFirst(trimmed);
    var k := CutIndex(trimmed);
    if k < |trimmed| {
      SliceHasNoDelimiter(trimmed, 0, k);
      assert trimmed[..k] == trimmed[0..k];
      TrimSpaceTrims(trimmed[..k]);
      TrimSpaceTrims(trimmed[k + |DELIMITER|..]);
      TrimmedHasNoDelimiter(trimmed[..k]);
    }
  }

  lemma TrimKeepsTrimmed(s: string)
    requires Trimmed(s)
    ensures TrimSpace(s) == s && TrimSpace(s + " ") == s && TrimSpace(" " + s) == s
  {
    assert (" " + s)[1..] == s && (s + " ")[..|s|] == s;
    if s == "" {
      assert s + " " == " " && " "[1..] == "";
    }
  }

  lemma DelimiterIsCut(text: string, rest: string)
    requires NoDelimiter(text)
    ensures CutIndex(text + " " + DELIMITER + rest) == |text| + 1
  {
    var s := text + " " + DELIMITER + rest;
    forall k: nat | k <= |text| ensures !HasDelimiterAt(s, k) {
      if k + |DELIMITER| <= |text| {
        assert s[k..k + |DELIMITER|] == text[k..k + |DELIMITER|];
        assert !HasDelimiterAt(text, k);
      } else {
        assert s[k..k + |DELIMITER|][|text| - k] == s[|text|] == ' ';
      }
    }
    assert s[|text| + 1..|text| + 1 + |DELIMITER|] == DELIMITER;
    assert HasDelimiterAt(s, |text| + 1);
    CutIndexIsFirst(s);
  }

  /**
   Parsing is a normal form: it reads back every normal query, and its results are normal, so parsing twice
   changes nothing.
   */
  lemma QueryReadsBack(q: Query)
    requires Normal(q)
    ensures ParseQueryLine(Render(q)) == Ok(Some(q))
  {
    TrimKeepsTrimmed(q.text);
    CutIndexIsFirst(q.text);
    if q.id != "" {
      TrimKeepsTrimmed(q.id);
      LineIsCut(q.text, q.id);
    }
  }

  lemma LineIsCut(text: string, id: string)
    requires text != "" && Trimmed(text) && NoDelimiter(text) && id != "" && Trimmed(id)
    ensures var line := text + " " + DELIMITER + " " + id;
            && TrimSpace(line) == line && CutIndex(line) == |text| + 1 < |line| && |text| + 1 + |DELIMITER| <= |line|
            && line[..|text| + 1] == text + " "
            && line[|text| + 1 + |DELIMITER|..] == " " + id
  {
    LineParts(text, DELIMITER, id);
    DelimiterIsCut(text, " " + id);
    LineIsTrimmed(text, DELIMITER, id);
  }

  lemma LineParts(text: string, mark: string, id: string)
    ensures var line := text + " " + mark + " " + id;
            && line == text + " " + mark + (" " + id)
            && line[..|text| + 1] == text + " " && line[|text| + 1 + |mark|..] == " " + id
  {
  }

  lemma LineIsTrimmed(text: string, mark: string, id: string)
    requires text != "" && Trimmed(text) && id != "" && Trimmed(id)
    ensures var line := text + " " + mark + " " + id; TrimSpace(line) == line
  {
    var line := text + " " + mark + " " + id;
    assert line[0] == text[0] && line[|line| - 1] == id[|id| - 1];
    TrimKeepsTrimmed(line);
  }

  // ---------- Grid seeds ----------

  function Join(parts: seq<string>): string
    requires parts != []
  {
    if |parts| == 1 then parts[0] else parts[0] + [SEPARATOR] + Join(parts[1..])
  }

  /** The text that is hashed for the cell with index `c` of the query with index `q`. */
  function SeedText(q: nat, c: nat, text: string, geo: string, zoom: nat): string {
    Join(["grid", Itoa(q), Itoa(c), text, geo, Itoa(zoom)])
  }

  /** How an id is made: from the position's text, or at random. */
  datatype Naming = Deterministic(hash: string -> string) | Random(fresh_: (nat, nat) -> string)

  function SeedId(query: Query, q: nat, c: nat, geo: string, zoom: nat, naming: Naming): string {
    var cellId := match naming
                  case Deterministic(hash) => hash(SeedText(q, c, query.text, geo, zoom))
                  case Random(fresh_) => fresh_(q, c);
    if query.id != "" then query.id + "-" + cellId else cellId
  }

  function JobAt(queries: seq<Query>, cells: seq<string>, q: nat, c: nat, zoom: nat, naming: Naming): SeedJob
    requires q < |queries| && c < |cells|
  {
    SeedJob(SeedId(queries[q], q, c, cells[c], zoom, naming), queries[q].text, cells[c], zoom)
  }

  function Jobs(queries: seq<Query>, cells: seq<string>, zoom: nat, naming: Naming): (nat, nat) --> SeedJob {
    (q: nat, c: nat) requires q < |queries| && c < |cells| => JobAt(queries, cells, q, c, zoom, naming)
  }

  function AllJobs(queries: seq<Query>, cells: seq<string>, zoom: nat, naming: Naming): seq<SeedJob> {
    Table(Jobs(queries, cells, zoom, naming), |queries|, |cells|)
  }

  /** The error that comes first, or every query with every cell. */
  function SeedsOf(lines: seq<string>, cells: seq<string>, zoom: int, naming: Naming): Result<seq<SeedJob>, SeedError> {
    if zoom < 1 || zoom > 21 then Err(InvalidZoom)
    else if cells == [] then Err(NoCells)
    else
      var queries := QueriesOf(lines);
      if queries.Err? then Err(queries.error)
      else if queries.value == [] then Err(NoQueries)
      else Ok(AllJobs(queries.value, cells, zoom, naming))
  }

  method CreateGridSeedJobs(lines: seq<string>, cells: seq<string>, zoom: int, naming: Naming)
    returns (r: Result<seq<SeedJob>, SeedError>)
    ensures r == SeedsOf(lines, cells, zoom, naming)
  {
    if zoom < 1 || zoom > 21 {
      return Err(InvalidZoom);
    }
    if cells == [] {
      return Err(NoCells);
    }
    var parsed := ReadQueries(lines);
    if parsed.Err? {
      return Err(parsed.error);
    }
    var queries := parsed.value;
    if queries == [] {
      return Err(NoQueries);
    }
    var jobs := JobsOf(Jobs(queries, cells, zoom, naming), |queries|, |cells|);
    return Ok(jobs);
  }

  /** The two nested loops. */
  method JobsOf(job: (nat, nat) --> SeedJob, queries: nat, cells: nat) returns (jobs: seq<SeedJob>)
    requires forall q: nat, c: nat :: q < queries && c < cells ==> job.requires(q, c)
    ensures jobs == Table(job, queries, cells)
  {
    jobs := [];
    var q := 0;
    while q < queries
      invariant 0 <= q <= queries && jobs == Table(job, q, cells)
    {
      ghost var before := jobs;
      var c := 0;
      while c < cells
        invariant 0 <= c <= cells && jobs == before + Row(job, q, c)
      {
        assert before + (Row(job, q, c) + [job(q, c)]) == before + Row(job, q, c) + [job(q, c)];
        jobs := jobs + [job(q, c)];
        c := c + 1;
      }
      q := q + 1;
    }
  }

  // ---------- Main results ----------

  /** The jobs are queries times cells, each pair once, in lexicographic order. */
  lemma JobsAreQueriesTimesCells(queries: seq<Query>, cells: seq<string>, zoom: nat, naming: Naming, q: nat, c: nat)
    ensures |AllJobs(queries, cells, zoom, naming)| == |queries| * |cells|
    ensures q < |queries| && c < |cells| ==>
              && 0 <= q * |cells| + c < |queries| * |cells|
              && AllJobs(queries, cells, zoom, naming)[q * |cells| + c] == JobAt(queries, cells, q, c, zoom, naming)
  {
    var f := Jobs(queries, cells, zoom, naming);
    TableSize(f, |queries|, |cells|);
    if q < |queries| && c < |cells| {
      TableAt(f, |queries|, |cells|, q, c);
      assert f(q, c) == JobAt(queries, cells, q, c, zoom, naming);
    }
  }

  function FirstSeparator(s: string): nat {
    if s == "" || s[0] == SEPARATOR then 0 else 1 + FirstSeparator(s[1..])
  }

  lemma {:induction false} FirstSeparatorIsAfter(a: string, x: string)
    requires SEPARATOR !in a
    ensures FirstSeparator(a + [SEPARATOR] + x) == |a|
  {
    var s := a + [SEPARATOR] + x;
    if a != "" {
      assert s[1..] == a[1..] + [SEPARATOR] + x;
      FirstSeparatorIsAfter(a[1..], x);
    }
  }

  /** Two texts that begin with a separator-free part and a separator agree on that part. */
  lemma FirstPartIsDetermined(a: string, x: string, b: string, y: string)
    requires SEPARATOR !in a && SEPARATOR !in b && a + [SEPARATOR] + x == b + [SEPARATOR] + y
    ensures a == b && x == y
  {
    var s, t := a + [SEPARATOR] + x, b + [SEPARATOR] + y;
    FirstSeparatorIsAfter(a, x);
    FirstSeparatorIsAfter(b, y);
    assert s[..|a|] == a && t[..|b|] == b;
    assert s[|a| + 1..] == x && t[|b| + 1..] == y;
  }

  lemma NumeralHasNoSeparator(n: nat)
    ensures SEPARATOR !in Itoa(n)
  {
    ItoaReadsBack(n);
  }

  lemma JoinPrefixes(part: string, parts: seq<string>)
    requires parts != []
    ensures Join([part] + parts) == part + [SEPARATOR] + Join(parts)
  {
    assert ([part] + parts)[1..] == parts;
  }

  lemma SeedTextParts(q: nat, c: nat, text: string, geo: string, zoom: nat)
    ensures SeedText(q, c, text, geo, zoom)
            == "grid" + [SEPARATOR] + (Itoa(q) + [SEPARATOR] + (Itoa(c) + [SEPARATOR] + Join([text, geo, Itoa(zoom)])))
  {
    var rest := [text, geo, Itoa(zoom)];
    JoinPrefixes(Itoa(c), rest);
    JoinPrefixes(Itoa(q), [Itoa(c)] + rest);
    JoinPrefixes("grid", [Itoa(q)] + ([Itoa(c)] + rest));
    assert ["grid"] + ([Itoa(q)] + ([Itoa(c)] + rest)) == ["grid", Itoa(q), Itoa(c), text, geo, Itoa(zoom)];
  }

  /** Whatever the query texts contain, equal texts to hash come from the same query index and the same cell index. */
  lemma SeedTextDeterminesPosition(q: nat, c: nat, text: string, geo: string, q': nat, c': nat, text': string,
      geo': string, zoom: nat)
    requires SeedText(q, c, text, geo, zoom) == SeedText(q', c', text', geo', zoom)
    ensures q == q' && c == c'
  {
    SeedTextParts(q, c, text, geo, zoom);
    SeedTextParts(q', c', text', geo', zoom);
    var x := Itoa(c) + [SEPARATOR] + Join([text, geo, Itoa(zoom)]);
    var x' := Itoa(c') + [SEPARATOR] + Join([text', geo', Itoa(zoom)]);
    FirstPartIsDetermined("grid", Itoa(q) + [SEPARATOR] + x, "grid", Itoa(q') + [SEPARATOR] + x');
    NumeralHasNoSeparator(q);
    NumeralHasNoSeparator(q');
    FirstPartIsDetermined(Itoa(q), x, Itoa(q'), x');
    NumeralHasNoSeparator(c);
    NumeralHasNoSeparator(c');
    FirstPartIsDetermined(Itoa(c), Join([text, geo, Itoa(zoom)]), Itoa(c'), Join([text', geo', Itoa(zoom)]));
    ItoaReadsBack(q);
    ItoaReadsBack(q');
    ItoaReadsBack(c);
    ItoaReadsBack(c');
  }

  /**
   Two seeds of a grid can share an id only if the hash collides on two different texts, also when custom
   query ids are put in front. Hash results have one length.
   */
  lemma IdsCollideOnlyIfHashesDo(queries: seq<Query>, cells: seq<string>, zoom: nat, hash: string -> string,
                                 length: nat, q: nat, c: nat, q': nat, c': nat)
    requires q < |queries| && q' < |queries| && c < |cells| && c' < |cells| && (q != q' || c != c')
    requires forall s :: |hash(s)| == length
    requires JobAt(queries, cells, q, c, zoom, Deterministic(hash)).id
             == JobAt(queries, cells, q', c', zoom, Deterministic(hash)).id
    ensures var s := SeedText(q, c, queries[q].text, cells[c], zoom);
            var s' := SeedText(q', c', queries[q'].text, cells[c'], zoom);
            s != s' && hash(s) == hash(s')
  {
    var s := SeedText(q, c, queries[q].text, cells[c], zoom);
    var s' := SeedText(q', c', queries[q'].text, cells[c'], zoom);
    var id := JobAt(queries, cells, q, c, zoom, Deterministic(hash)).id;
    var id' := JobAt(queries, cells, q', c', zoom, Deterministic(hash)).id;
    assert id[|id| - length..] == hash(s) && id'[|id'| - length..] == hash(s');
    if s == s' {
      SeedTextDeterminesPosition(q, c, queries[q].text, cells[c], q', c', queries[q'].text, cells[c'], zoom);
    }
  }
}
