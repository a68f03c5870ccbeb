/**
 The Server-Sent-Events parser of the acceptance runs (acceptance/events.go), held
 against the encoding of payloads by section 9.2.6 of the WHATWG HTML standard.

 Decoding a payload as JSON is a parameter. Lines are unbounded.
 */
module ServerSentEvents {
  import opened Wrappers

  datatype Event = Event(kind: string, payload: string)

  type Decoder = string -> Option<Event>

  // ---------- Lines ----------

  function DropCR(line: string): string {
    if line != "" && line[|line| - 1] == '\r' then line[..|line| - 1] else line
  }

  function NewlineIndex(s: string): nat
    ensures NewlineIndex(s) <= |s|
    ensures '\n' !in s[..NewlineIndex(s)]
    ensures NewlineIndex(s) < |s| ==> s[NewlineIndex(s)] == '\n'
  {
    if s == "" || s[0] == '\n' then 0 else 1 + NewlineIndex(s[1..])
  }

  /** The line scanner: lines end at a newline, lose one carriage return, and an empty rest is no line. */
  function ScanLines(body: string): seq<string>
    decreases |body|
  {
    if body == "" then []
    else
      var k := NewlineIndex(body);
      if k == |body| then [DropCR(body)] else [DropCR(body[..k])] + ScanLines(body[k + 1..])
  }

  function HasPrefix(s: string, prefix: string): bool {
    prefix <= s
  }

  function TrimPrefix(s: string, prefix: string): string {
    if prefix <= s then s[|prefix|..] else s
  }

  // ---------- The parser ----------

  function IsData(line: string): bool {
    HasPrefix(line, "data:")
  }

  function Chunk(line: string): string {
    TrimPrefix(TrimPrefix(line, "data:"), " ")
  }

  function Append(data: string, chunk: string): string {
    if data != "" then data + "\n" + chunk else chunk
  }

  /** The payloads that are flushed while reading `lines` with `data` in the buffer, the last one at the end. */
  function Payloads(data: string, lines: seq<string>): seq<string>
    decreases |lines|
  {
    if lines == [] then Flushed(data)
    else if lines[0] == "" then Flushed(data) + Payloads("", lines[1..])
    else if IsData(lines[0]) then Payloads(Append(data, Chunk(lines[0])), lines[1..])
    else Payloads(data, lines[1..])
  }

  function Flushed(data: string): seq<string> {
    if data == "" then [] else [data]
  }

  /** A payload becomes an event if it decodes and names its type. */
  function Events(payloads: seq<string>, decode: Decoder): seq<Event> {
    if payloads == [] then []
    else
      var event := decode(payloads[0]);
      (if event.Some? && event.value.kind != "" then [event.value] else []) + Events(payloads[1..], decode)
  }

  function Take(events: seq<Event>, n: nat): seq<Event> {
    if n <= |events| then events[..n] else events
  }

  /** The events still to come with `data` in the buffer and `lines` to read. */
  function Coming(data: string, lines: seq<string>, decode: Decoder): seq<Event> {
    Events(Payloads(data, lines), decode)
  }

  lemma ComingStep(data: string, lines: seq<string>, decode: Decoder)
    requires lines != []
    ensures Coming(data, lines, decode) ==
            if lines[0] == "" then Events(Flushed(data), decode) + Coming("", lines[1..], decode)
            else if IsData(lines[0]) then Coming(Append(data, Chunk(lines[0])), lines[1..], decode)
            else Coming(data, lines[1..], decode)
  {
    if lines[0] == "" {
      EventsOfFlush(data, Payloads("", lines[1..]), decode);
    }
  }

  /** `sends` is the number of events that are sent before the context is found done. */
  method ParseSSE(body: string, decode: Decoder, sends: nat) returns (frames: seq<Event>)
    ensures frames == Take(Coming("", ScanLines(body), decode), sends)
  {
    frames := [];
    var data := "";
    var rest := ScanLines(body);
    ghost var all := Coming(data, rest, decode);
    while rest != []
      invariant |frames| <= sends && frames + Coming(data, rest, decode) == all
      decreases |rest|
    {
      ComingStep(data, rest, decode);
      var line := rest[0];
      rest := rest[1..];
      if line == "" {
        var ok;
        ghost var before, later := frames, Coming("", rest, decode);
        frames, ok := Flush(frames, data, decode, sends);
        StopsOrGoesOn(before, Events(Flushed(data), decode), later, frames, ok, sends);
        if !ok {
          return;
        }
        data := "";
      } else if HasPrefix(line, ":") {
        // a comment, which is no data line
        assert line[0] == ':';
        assert !IsData(line);
      } else if HasPrefix(line, "data:") {
        data := Append(data, Chunk(line));
      }
    }
    var ok;
    ghost var before := frames;
    frames, ok := Flush(frames, data, decode, sends);
    StopsOrGoesOn(before, Events(Flushed(data), decode), [], frames, ok, sends);
    assert frames + [] == frames && Events(Flushed(data), decode) + [] == Events(Flushed(data), decode);
  }

  lemma StopsOrGoesOn(before: seq<Event>, flushed: seq<Event>, later: seq<Event>, after: seq<Event>, ok: bool,
      sends: nat)
    requires |before| <= sends
    requires if ok then after == before + flushed && |after| <= sends else after == before && |before| == sends
    ensures ok ==> after + later == before + (flushed + later)
    ensures !ok ==> after == Take(before + (flushed + later), sends)
  {
  }

  /** One flush: false if the context was done when an event was to be sent. */
  method Flush(frames: seq<Event>, data: string, decode: Decoder, sends: nat) returns (frames': seq<Event>, ok: bool)
    requires |frames| <= sends
    ensures ok ==> frames' == frames + Events(Flushed(data), decode) && |frames'| <= sends
    ensures !ok ==> frames' == frames && |frames| == sends && Events(Flushed(data), decode) != []
  {
    frames', ok := frames, true;
    if data == "" {
      return;
    }
    var event := decode(data);
    assert [data][1..] == [];
    if event.None? || event.value.kind == "" {
      return;
    }
    if |frames| < sends {
      frames' := frames + [event.value];
    } else {
      ok := false;
    }
  }

  lemma EventsOfFlush(data: string, later: seq<string>, decode: Decoder)
    ensures Events(Flushed(data) + later, decode) == Events(Flushed(data), decode) + Events(later, decode)
  {
    if data == "" {
      assert Flushed(data) + later == later;
    } else {
      assert ([data] + later)[1..] == later && [data][1..] == [];
    }
  }

  // ---------- The encoder ----------

  /** The lines of a payload. */
  function SplitLines(p: string): (chunks: seq<string>)
    ensures chunks != []
    decreases |p|
  {
    var k := NewlineIndex(p);
    if k == |p| then [p] else [p[..k]] + SplitLines(p[k + 1..])
  }

  function DataLines(chunks: seq<string>): seq<string> {
    if chunks == [] then [] else ["data: " + chunks[0]] + DataLines(chunks[1..])
  }

  /** The lines of a frame: its data lines and a blank one. */
  function EncodeAll(payloads: seq<string>): seq<string> {
    if payloads == [] then [] else DataLines(SplitLines(payloads[0])) + [""] + EncodeAll(payloads[1..])
  }

  function Stream(lines: seq<string>): string {
    if lines == [] then "" else lines[0] + "\n" + Stream(lines[1..])
  }

  /** A comment, an id, an event name or any other line that the parser skips. */
  predicate IsNoise(line: string) {
    DropCR(line) != "" && !IsData(line)
  }

  function WithoutNoise(lines: seq<string>): seq<string> {
    if lines == [] then []
    else if IsNoise(lines[0]) then WithoutNoise(lines[1..])
    else [lines[0]] + WithoutNoise(lines[1..])
  }

  predicate SingleLines(lines: seq<string>) {
    forall i :: 0 <= i < |lines| ==> '\n' !in lines[i]
  }

  // ---------- Scanning a stream ----------

  function DropAll(lines: seq<string>): seq<string> {
    if lines == [] then [] else [DropCR(lines[0])] + DropAll(lines[1..])
  }

  lemma {:induction false} NewlineIndexIs(s: string, rest: string)
    requires '\n' !in s
    ensures NewlineIndex(s + "\n" + rest) == |s|
  {
    if s != "" {
      assert (s + "\n" + rest)[1..] == s[1..] + "\n" + rest;
      NewlineIndexIs(s[1..], rest);
    }
  }

  lemma {:induction false} ScanReversesStream(lines: seq<string>)
    requires SingleLines(lines)
    ensures ScanLines(Stream(lines)) == DropAll(lines)
  {
    if lines != [] {
      ScanOneLine(lines[0], Stream(lines[1..]));
      ScanReversesStream(lines[1..]);
    }
  }

  /** The stream without its last newline. */
  function OpenStream(lines: seq<string>): string
    requires lines != []
  {
    if |lines| == 1 then lines[0] else lines[0] + "\n" + OpenStream(lines[1..])
  }

  lemma {:induction false} OpenStreamLacksNewline(lines: seq<string>)
    requires lines != []
    ensures Stream(lines) == OpenStream(lines) + "\n"
  {
    if |lines| == 1 {
      assert Stream(lines[1..]) == "";
    } else {
      OpenStreamLacksNewline(lines[1..]);
      assert lines[0] + "\n" + (OpenStream(lines[1..]) + "\n") == lines[0] + "\n" + OpenStream(lines[1..]) + "\n";
    }
  }

  lemma {:induction false} OpenStreamScans(lines: seq<string>)
    requires SingleLines(lines) && lines != [] && lines[|lines| - 1] != ""
    ensures ScanLines(OpenStream(lines)) == DropAll(lines)
  {
    if |lines| == 1 {
      NoNewline(lines[0]);
      assert DropAll(lines[1..]) == [];
    } else {
      assert lines[1..][|lines| - 2] == lines[|lines| - 1];
      OpenStreamScans(lines[1..]);
      ScanOneLine(lines[0], OpenStream(lines[1..]));
    }
  }

  /** The last line needs no newline, unless it is blank. */
  lemma LastNewlineIsOptional(lines: seq<string>)
    requires SingleLines(lines) && lines != [] && lines[|lines| - 1] != ""
    ensures Stream(lines) != ""
    ensures ScanLines(Stream(lines)[..|Stream(lines)| - 1]) == DropAll(lines)
  {
    OpenStreamLacksNewline(lines);
    assert Stream(lines)[..|Stream(lines)| - 1] == OpenStream(lines);
    OpenStreamScans(lines);
  }

  lemma ScanOneLine(line: string, rest: string)
    requires '\n' !in line
    ensures ScanLines(line + "\n" + rest) == [DropCR(line)] + ScanLines(rest)
  {
    var s := line + "\n" + rest;
    NewlineIndexIs(line, rest);
    assert s[..|line|] == line && s[|line| + 1..] == rest;
  }

  lemma {:induction false} NoNewline(s: string)
    requires '\n' !in s
    ensures NewlineIndex(s) == |s|
  {
    if s != "" {
      NoNewline(s[1..]);
    }
  }

  // ---------- Reassembly ----------

  function Assemble(data: string, chunks: seq<string>): string
    decreases |chunks|
  {
    if chunks == [] then data else Assemble(Append(data, chunks[0]), chunks[1..])
  }

  function Join(chunks: seq<string>): string
    requires chunks != []
  {
    if |chunks| == 1 then chunks[0] else chunks[0] + "\n" + Join(chunks[1..])
  }

  /** What the parser makes of one payload: at most one payload, put together from its scanned lines. */
  function Delivered(p: string): seq<string> {
    Flushed(Assemble("", DropAll(SplitLines(p))))
  }

  function DeliveredAll(payloads: seq<string>): seq<string> {
    if payloads == [] then [] else Delivered(payloads[0]) + DeliveredAll(payloads[1..])
  }

  /** A payload that survives: not empty, not beginning with a newline, no line of it ending in a carriage return. */
  predicate Plain(p: string) {
    p != "" && p[0] != '\n' && forall c :: c in SplitLines(p) ==> DropCR(c) == c
  }

  lemma {:induction false} NoiseIsSkipped(data: string, lines: seq<string>)
    ensures Payloads(data, DropAll(lines)) == Payloads(data, DropAll(WithoutNoise(lines)))
    decreases |lines|
  {
    if lines != [] {
      var line := DropCR(lines[0]);
      assert line <= lines[0];
      if IsNoise(lines[0]) {
        NoiseIsSkipped(data, lines[1..]);
      } else {
        NoiseIsSkipped("", lines[1..]);
        NoiseIsSkipped(Append(data, Chunk(line)), lines[1..]);
        NoiseIsSkipped(data, lines[1..]);
      }
    }
  }

  lemma DataLineScans(c: string)
    ensures var line := DropCR("data: " + c); line != "" && IsData(line) && Chunk(line) == DropCR(c)
  {
    var line := "data: " + c;
    if c != "" && c[|c| - 1] == '\r' {
      assert DropCR(line) == "data: " + DropCR(c);
    } else {
      assert DropCR(line) == line;
    }
    assert ("data: " + DropCR(c))[5..] == " " + DropCR(c);
    assert (" " + DropCR(c))[1..] == DropCR(c);
  }

  /** Reading a frame's data lines and its blank line flushes what they assemble to. */
  lemma {:induction false} FrameIsDelivered(data: string, chunks: seq<string>, later: seq<string>)
    ensures Payloads(data, DropAll(DataLines(chunks)) + [""] + later)
            == Flushed(Assemble(data, DropAll(chunks))) + Payloads("", later)
    ensures Payloads(data, DropAll(DataLines(chunks))) == Flushed(Assemble(data, DropAll(chunks)))
    decreases |chunks|
  {
    if chunks == [] {
      assert [] + [""] + later == [""] + later && ([""] + later)[1..] == later;
    } else {
      DataLineScans(chunks[0]);
      var line := DropCR("data: " + chunks[0]);
      var rest := DropAll(DataLines(chunks[1..]));
      assert DropAll(DataLines(chunks)) == [line] + rest;
      assert [line] + rest + [""] + later == [line] + (rest + [""] + later);
      assert ([line] + (rest + [""] + later))[1..] == rest + [""] + later;
      assert DropAll(chunks)[0] == DropCR(chunks[0]) && DropAll(chunks)[1..] == DropAll(chunks[1..]);
      FrameIsDelivered(Append(data, DropCR(chunks[0])), chunks[1..], later);
    }
  }

  lemma {:induction false} DropAllDistributes(a: seq<string>, b: seq<string>)
    ensures DropAll(a + b) == DropAll(a) + DropAll(b)
  {
    if a == [] {
      assert a + b == b;
    } else {
      assert (a + b)[1..] == a[1..] + b;
      DropAllDistributes(a[1..], b);
    }
  }

  lemma {:induction false} EncodedIsDelivered(payloads: seq<string>)
    ensures Payloads("", DropAll(EncodeAll(payloads))) == DeliveredAll(payloads)
  {
    if payloads != [] {
      var frame, rest := DataLines(SplitLines(payloads[0])), EncodeAll(payloads[1..]);
      DropAllDistributes(frame + [""], rest);
      DropAllDistributes(frame, [""]);
      assert DropAll([""]) == [""] by { assert [""][1..] == []; }
      FrameIsDelivered("", SplitLines(payloads[0]), DropAll(rest));
      EncodedIsDelivered(payloads[1..]);
    }
  }

  // ---------- Exactness ----------

  function Tail(chunks: seq<string>): string {
    if chunks == [] then "" else "\n" + chunks[0] + Tail(chunks[1..])
  }

  lemma {:induction false} AssembleAppends(data: string, chunks: seq<string>)
    requires data != ""
    ensures Assemble(data, chunks) == data + Tail(chunks)
    decreases |chunks|
  {
    if chunks != [] {
      AssembleAppends(Append(data, chunks[0]), chunks[1..]);
    }
  }

  lemma {:induction false} JoinIsTail(chunks: seq<string>)
    requires chunks != []
    ensures Join(chunks) == chunks[0] + Tail(chunks[1..])
  {
    if |chunks| > 1 {
      JoinIsTail(chunks[1..]);
    }
  }

  /** Leading empty chunks are forgotten, so that the result can only be shorter than the join. */
  lemma {:induction false} AssembleIsShorter(chunks: seq<string>)
    requires chunks != []
    ensures chunks[0] != "" ==> Assemble("", chunks) == Join(chunks)
    ensures |Assemble("", chunks)| <= |Join(chunks)|
    ensures chunks[0] == "" && |chunks| > 1 ==> |Assemble("", chunks)| < |Join(chunks)|
  {
    JoinIsTail(chunks);
    if chunks[0] != "" {
      AssembleAppends(chunks[0], chunks[1..]);
    } else if |chunks| > 1 {
      AssembleIsShorter(chunks[1..]);
    }
  }

  lemma {:induction false} DroppingShortens(chunks: seq<string>)
    requires chunks != []
    ensures DropAll(chunks) != [] && |Join(DropAll(chunks))| <= |Join(chunks)|
    ensures |Join(DropAll(chunks))| == |Join(chunks)| <==> forall c :: c in chunks ==> DropCR(c) == c
    ensures (forall c :: c in chunks ==> DropCR(c) == c) ==> DropAll(chunks) == chunks
  {
    assert DropAll(chunks)[1..] == DropAll(chunks[1..]);
    if |chunks| > 1 {
      DroppingShortens(chunks[1..]);
      assert chunks == [chunks[0]] + chunks[1..];
    }
  }

  lemma {:induction false} SplitJoins(p: string)
    ensures Join(SplitLines(p)) == p
    ensures SplitLines(p)[0] == p[..NewlineIndex(p)]
    decreases |p|
  {
    var k := NewlineIndex(p);
    if k < |p| {
      SplitJoins(p[k + 1..]);
      JoinFirst(p[..k], SplitLines(p[k + 1..]));
      CutAtNewline(p, k);
    }
  }

  lemma JoinFirst(chunk: string, chunks: seq<string>)
    requires chunks != []
    ensures Join([chunk] + chunks) == chunk + "\n" + Join(chunks)
  {
    assert ([chunk] + chunks)[1..] == chunks;
  }

  lemma CutAtNewline(p: string, k: nat)
    requires k < |p| && p[k] == '\n'
    ensures p == p[..k] + "\n" + p[k + 1..]
  {
  }

  /** A payload comes through unchanged exactly if it is plain. */
  lemma DeliveredExactlyIfPlain(p: string)
    ensures Delivered(p) == [p] <==> Plain(p)
  {
    var chunks := SplitLines(p);
    var scanned := DropAll(chunks);
    SplitJoins(p);
    DroppingShortens(chunks);
    AssembleIsShorter(scanned);
    if Plain(p) {
      assert chunks[0] != "";
    } else if p != "" && p[0] == '\n' {
      assert chunks[0] == "" && |chunks| > 1 && |scanned| > 1 by {
        assert Join(chunks) == p;
      }
    }
  }

  // ---------- Main results ----------

  /** Any stream of frames, with any skipped lines in between, is parsed to what its payloads deliver. */
  lemma StreamIsParsed(payloads: seq<string>, lines: seq<string>)
    requires SingleLines(lines) && WithoutNoise(lines) == EncodeAll(payloads)
    ensures Payloads("", ScanLines(Stream(lines))) == DeliveredAll(payloads)
  {
    ScanReversesStream(lines);
    NoiseIsSkipped("", lines);
    EncodedIsDelivered(payloads);
  }

  /** The round trip holds for a list of payloads exactly if each of them is plain. */
  lemma RoundTrip(payloads: seq<string>, lines: seq<string>)
    requires SingleLines(lines) && WithoutNoise(lines) == EncodeAll(payloads)
    ensures Payloads("", ScanLines(Stream(lines))) == payloads <==> forall p :: p in payloads ==> Plain(p)
  {
    StreamIsParsed(payloads, lines);
    AllDeliveredExactlyIfPlain(payloads);
  }

  lemma {:induction false} AllDeliveredExactlyIfPlain(payloads: seq<string>)
    ensures |DeliveredAll(payloads)| <= |payloads|
    ensures DeliveredAll(payloads) == payloads <==> forall p :: p in payloads ==> Plain(p)
  {
    if payloads != [] {
      var p, rest := payloads[0], payloads[1..];
      assert payloads == [p] + rest;
      DeliveredExactlyIfPlain(p);
      AllDeliveredExactlyIfPlain(rest);
      if DeliveredAll(payloads) == payloads {
        if Delivered(p) != [] {
          assert DeliveredAll(payloads)[0] == Delivered(p)[0];
          assert DeliveredAll(payloads)[1..] == DeliveredAll(rest);
        }
      }
    }
  }

  /** The last frame is delivered without its blank line, and without the newline of its last data line. */
  lemma LastFrameNeedsNoBlankLine(payloads: seq<string>, lines: seq<string>, p: string)
    requires SingleLines(lines) && lines != [] && lines[|lines| - 1] != ""
    requires WithoutNoise(lines) == EncodeAll(payloads) + DataLines(SplitLines(p))
    ensures Payloads("", ScanLines(Stream(lines))) == DeliveredAll(payloads) + Delivered(p)
    ensures Payloads("", ScanLines(Stream(lines)[..|Stream(lines)| - 1])) == DeliveredAll(payloads) + Delivered(p)
  {
    ScanReversesStream(lines);
    LastNewlineIsOptional(lines);
    NoiseIsSkipped("", lines);
    EncodedThenOpenFrame(payloads, p);
  }

  lemma {:induction false} EncodedThenOpenFrame(payloads: seq<string>, p: string)
    ensures Payloads("", DropAll(EncodeAll(payloads) + DataLines(SplitLines(p))))
            == DeliveredAll(payloads) + Delivered(p)
  {
    var open := DataLines(SplitLines(p));
    if payloads == [] {
      assert [] + open == open;
      FrameIsDelivered("", SplitLines(p), []);
    } else {
      var chunks, rest := SplitLines(payloads[0]), EncodeAll(payloads[1..]) + open;
      EncodedThenOpenFrame(payloads[1..], p);
      assert EncodeAll(payloads) + open == DataLines(chunks) + [""] + rest;
      DropFrame(DataLines(chunks), rest);
      FrameIsDelivered("", chunks, DropAll(rest));
    }
  }

  lemma DropFrame(frame: seq<string>, rest: seq<string>)
    ensures DropAll(frame + [""] + rest) == DropAll(frame) + [""] + DropAll(rest)
  {
    DropAllDistributes(frame + [""], rest);
    DropAllDistributes(frame, [""]);
    assert DropAll([""]) == [""] by { assert [""][1..] == []; }
  }
}
