/**
 * Server-sent event framing: the incremental splitter, the reader of one
 * frame's payload, and the encoder. Characters stand for decoded text.
 */
module Sse {
  import opened Wrappers

  const FRAME_SEPARATOR := "\n\n"
  const DATA_FIELD := "data:"

  // ---- Splitting ----

  /** Where the first separator starts. */
  function FirstSeparator(s: string): (r: Option<nat>)
    ensures r.Some? ==> SeparatorAt(s, r.value) && forall j: nat :: j < r.value ==> !SeparatorAt(s, j)
    ensures r.None? ==> forall j: nat :: !SeparatorAt(s, j)
  {
    if |s| < 2 then None
    else if s[0] == '\n' && s[1] == '\n' then Some(0)
    else
      var rest := FirstSeparator(s[1..]);
      assert forall j: nat :: j >= 1 ==> (SeparatorAt(s, j) <==> SeparatorAt(s[1..], j - 1));
      if rest.Some? then Some(rest.value + 1) else None
  }

  predicate SeparatorAt(s: string, j: nat) {
    j + 2 <= |s| && s[j] == '\n' && s[j + 1] == '\n'
  }

  /** `String.split` on the separator: leftmost, non-overlapping. */
  function Split(s: string): (parts: seq<string>)
    ensures |parts| >= 1
    decreases |s|
  {
    match FirstSeparator(s)
    case None => [s]
    case Some(i) => [s[..i]] + Split(s[i + 2..])
  }

  function Join(parts: seq<string>, separator: string): string {
    if |parts| == 0 then ""
    else if |parts| == 1 then parts[0]
    else parts[0] + separator + Join(parts[1..], separator)
  }

  function Front<T>(xs: seq<T>): seq<T>
    requires |xs| >= 1
  {
    xs[..|xs| - 1]
  }

  function Last<T>(xs: seq<T>): T
    requires |xs| >= 1
  {
    xs[|xs| - 1]
  }

  /** No part holds a separator, and no complete part ends where one could have started earlier. */
  ghost predicate IsSplit(parts: seq<string>) {
    && |parts| >= 1
    && (forall i :: 0 <= i < |parts| ==> FirstSeparator(parts[i]).None?)
    && (forall i :: 0 <= i < |parts| - 1 ==> |parts[i]| == 0 || Last(parts[i]) != '\n')
  }

  /** A separator right after text that neither holds one nor ends in a newline is the first one. */
  lemma FirstAfter(x: string, rest: string)
    requires FirstSeparator(x).None? && (|x| == 0 || Last(x) != '\n')
    ensures FirstSeparator(x + FRAME_SEPARATOR + rest) == Some(|x|)
  {
    var s := x + FRAME_SEPARATOR + rest;
    assert SeparatorAt(s, |x|);
    forall j: nat | j < |x| ensures !SeparatorAt(s, j) {
      assert !SeparatorAt(x, j);
      assert s[j] == x[j];
    }
  }

  /** Splitting loses nothing and is the only way to cut the text at its leftmost separators. */
  lemma {:induction false} SplitCharacterised(s: string, parts: seq<string>)
    ensures parts == Split(s) <==> IsSplit(parts) && Join(parts, FRAME_SEPARATOR) == s
    decreases |s|
  {
    SplitIsSplit(s);
    if IsSplit(parts) && Join(parts, FRAME_SEPARATOR) == s {
      SplitUnique(s, parts);
    }
  }

  lemma SplitCons(x: string, parts: seq<string>)
    requires IsSplit(parts) && FirstSeparator(x).None? && (|x| == 0 || Last(x) != '\n')
    ensures IsSplit([x] + parts)
    ensures Join([x] + parts, FRAME_SEPARATOR) == x + FRAME_SEPARATOR + Join(parts, FRAME_SEPARATOR)
  {
    var all := [x] + parts;
    assert all[1..] == parts;
    forall j | 0 <= j < |all| ensures FirstSeparator(all[j]).None? {
      assert j > 0 ==> all[j] == parts[j - 1];
    }
    forall j | 0 <= j < |all| - 1 ensures |all[j]| == 0 || Last(all[j]) != '\n' {
      assert j > 0 ==> all[j] == parts[j - 1];
    }
  }

  /** The text before the first separator holds none and does not end in a newline. */
  lemma BeforeFirst(s: string, i: nat)
    requires FirstSeparator(s) == Some(i)
    ensures FirstSeparator(s[..i]).None? && (i == 0 || Last(s[..i]) != '\n')
    ensures s == s[..i] + FRAME_SEPARATOR + s[i + 2..]
  {
    assert forall j: nat :: j + 1 < i ==> (SeparatorAt(s[..i], j) <==> SeparatorAt(s, j));
    if i > 0 {
      assert !SeparatorAt(s, i - 1);
    }
  }

  lemma {:induction false} SplitIsSplit(s: string)
    ensures IsSplit(Split(s)) && Join(Split(s), FRAME_SEPARATOR) == s
    decreases |s|
  {
    match FirstSeparator(s)
    case None =>
    case Some(i) =>
      SplitIsSplit(s[i + 2..]);
      BeforeFirst(s, i);
      SplitCons(s[..i], Split(s[i + 2..]));
  }

  /** Splitting after a part that holds no separator. */
  lemma SplitAfter(part: string, rest: string)
    requires FirstSeparator(part).None? && (|part| == 0 || Last(part) != '\n')
    ensures Split(part + FRAME_SEPARATOR + rest) == [part] + Split(rest)
  {
    FirstAfter(part, rest);
    var s := part + FRAME_SEPARATOR + rest;
    assert s[|part| + 2..] == rest && s[..|part|] == part;
  }

  lemma IsSplitTail(parts: seq<string>)
    requires IsSplit(parts) && |parts| > 1
    ensures IsSplit(parts[1..]) && FirstSeparator(parts[0]).None? && (|parts[0]| == 0 || Last(parts[0]) != '\n')
  {
    assert forall i :: 0 <= i < |parts[1..]| ==> parts[1..][i] == parts[i + 1];
  }

  lemma {:induction false} SplitUnique(s: string, parts: seq<string>)
    requires IsSplit(parts) && Join(parts, FRAME_SEPARATOR) == s
    ensures parts == Split(s)
    decreases |parts|
  {
    if |parts| > 1 {
      IsSplitTail(parts);
      SplitUnique(Join(parts[1..], FRAME_SEPARATOR), parts[1..]);
      SplitAfter(parts[0], Join(parts[1..], FRAME_SEPARATOR));
    }
  }

  lemma FirstOfLonger(x: string, y: string)
    requires FirstSeparator(x).Some?
    ensures FirstSeparator(x + y) == FirstSeparator(x)
  {
    var i := FirstSeparator(x).value;
    assert SeparatorAt(x + y, i);
    forall j: nat | j < i ensures !SeparatorAt(x + y, j) {
      assert !SeparatorAt(x, j);
    }
  }

  lemma ConcatSlices(x: string, y: string, i: nat)
    requires i <= |x|
    ensures (x + y)[i..] == x[i..] + y && (x + y)[..i] == x[..i]
  {
  }

  lemma SplitAtFirst(x: string, y: string, i: nat)
    requires FirstSeparator(x) == Some(i)
    ensures Split(x + y) == [x[..i]] + Split(x[i + 2..] + y)
  {
    FirstOfLonger(x, y);
    ConcatSlices(x, y, i);
    ConcatSlices(x, y, i + 2);
  }

  lemma FrontOfCons(a: string, parts: seq<string>, tail: seq<string>)
    requires |parts| >= 1
    ensures Last([a] + parts) == Last(parts)
    ensures [a] + (Front(parts) + tail) == Front([a] + parts) + tail
  {
    assert Front([a] + parts) == [a] + Front(parts);
  }

  /** Splitting can be resumed from the last part. */
  lemma {:induction false} SplitResumes(x: string, y: string)
    ensures Split(x + y) == Front(Split(x)) + Split(Last(Split(x)) + y)
    decreases |x|
  {
    match FirstSeparator(x)
    case None =>
      assert Split(x) == [x] && Front([x]) == [];
    case Some(i) =>
      var b := x[i + 2..];
      SplitAtFirst(x, y, i);
      SplitResumes(b, y);
      FrontOfCons(x[..i], Split(b), Split(Last(Split(b)) + y));
  }

  // ---- White space ----

  /** The white space and line terminators that `String.trim` removes. */
  predicate IsSpace(c: char) {
    c in {'\t', '\n', '\U{000B}', '\U{000C}', '\r', ' ', '\U{00A0}', '\U{1680}', '\U{2028}', '\U{2029}',
          '\U{202F}', '\U{205F}', '\U{3000}', '\U{FEFF}'}
    || '\U{2000}' <= c <= '\U{200A}'
  }

  /** By code point, as ECMAScript lists them: tab to carriage return, the space separators, LS, PS and the byte order mark. */
  lemma IsSpaceIff(c: char)
    ensures IsSpace(c) <==>
              || 9 <= c as int <= 13 || 8192 <= c as int <= 8202
              || c as int in {32, 160, 5760, 8232, 8233, 8239, 8287, 12288, 65279}
  {
  }

  function TrimStart(s: string): string {
    if |s| > 0 && IsSpace(s[0]) then TrimStart(s[1..]) else s
  }

  function TrimEnd(s: string): string {
    if |s| > 0 && IsSpace(Last(s)) then TrimEnd(Front(s)) else s
  }

  function Trim(s: string): string { TrimEnd(TrimStart(s)) }

  lemma {:induction false} TrimStartBlank(s: string)
    ensures TrimStart(s) == "" <==> forall i :: 0 <= i < |s| ==> IsSpace(s[i])
  {
    if |s| > 0 && IsSpace(s[0]) {
      TrimStartBlank(s[1..]);
      assert forall i :: 1 <= i < |s| ==> s[i] == s[1..][i - 1];
    }
  }

  lemma {:induction false} TrimEndKeepsFirst(s: string)
    requires |s| > 0 && !IsSpace(s[0])
    ensures |TrimEnd(s)| > 0
  {
    if IsSpace(Last(s)) {
      TrimEndKeepsFirst(Front(s));
    }
  }

  lemma {:induction false} TrimStartFirst(s: string)
    ensures |TrimStart(s)| > 0 ==> !IsSpace(TrimStart(s)[0])
  {
    if |s| > 0 && IsSpace(s[0]) {
      TrimStartFirst(s[1..]);
    }
  }

  /** Trimming leaves nothing exactly when every character is white space. */
  lemma BlankIff(s: string)
    ensures Trim(s) == "" <==> forall i :: 0 <= i < |s| ==> IsSpace(s[i])
  {
    TrimStartBlank(s);
    TrimStartFirst(s);
    if |TrimStart(s)| > 0 {
      TrimEndKeepsFirst(TrimStart(s));
    }
  }

  predicate AllSpace(s: string) {
    forall i :: 0 <= i < |s| ==> IsSpace(s[i])
  }

  lemma {:induction false} TrimStartStrips(before: string, s: string)
    requires AllSpace(before)
    ensures TrimStart(before + s) == TrimStart(s)
  {
    if |before| == 0 {
      assert before + s == s;
    } else {
      assert (before + s)[1..] == before[1..] + s;
      TrimStartStrips(before[1..], s);
    }
  }

  lemma {:induction false} TrimEndStrips(s: string, after: string)
    requires AllSpace(after)
    ensures TrimEnd(s + after) == TrimEnd(s)
  {
    if |after| == 0 {
      assert s + after == s;
    } else {
      assert Front(s + after) == s + Front(after) && Last(s + after) == Last(after);
      TrimEndStrips(s, Front(after));
    }
  }

  /** Trimming takes away all white space around a text and nothing of the text itself. */
  lemma TrimStrips(before: string, text: string, after: string)
    requires AllSpace(before) && AllSpace(after)
    requires |text| > 0 ==> !IsSpace(text[0]) && !IsSpace(Last(text))
    ensures Trim(before + text + after) == text
  {
    if |text| == 0 {
      assert before + text + after == before + after;
      BlankIff(before + after);
    } else {
      assert before + text + after == before + (text + after);
      TrimStartStrips(before, text + after);
      assert TrimStart(text + after) == text + after;
      TrimEndStrips(text, after);
    }
  }

  // ---- The splitter ----

  function NonBlank(parts: seq<string>): seq<string> {
    if |parts| == 0 then []
    else (if |Trim(parts[0])| > 0 then [parts[0]] else []) + NonBlank(parts[1..])
  }

  lemma {:induction false} NonBlankConcat(a: seq<string>, b: seq<string>)
    ensures NonBlank(a + b) == NonBlank(a) + NonBlank(b)
  {
    if |a| == 0 {
      assert a + b == b;
    } else {
      assert (a + b)[1..] == a[1..] + b;
      NonBlankConcat(a[1..], b);
    }
  }

  /** The filter keeps exactly the parts with a character other than white space, each in its place. */
  lemma NonBlankIff(before: seq<string>, part: string, rest: seq<string>)
    ensures NonBlank(before + [part] + rest)
            == NonBlank(before) + (if exists i :: 0 <= i < |part| && !IsSpace(part[i]) then [part] else []) + NonBlank(rest)
  {
    BlankIff(part);
    NonBlankConcat(before, [part]);
    NonBlankConcat(before + [part], rest);
  }

  /** One push: the frames it completes and the text it holds back. */
  function Step(buffer: string, chunk: string): (seq<string>, string) {
    var parts := Split(buffer + chunk);
    (NonBlank(Front(parts)), Last(parts))
  }

  function Steps(buffer: string, chunks: seq<string>): (seq<string>, string)
    decreases |chunks|
  {
    if |chunks| == 0 then ([], buffer)
    else
      var (frames, held) := Step(buffer, chunks[0]);
      var (more, end) := Steps(held, chunks[1..]);
      (frames + more, end)
  }

  class SseFrames {
    var buffer: string

    constructor ()
      ensures buffer == ""
    {
      buffer := "";
    }

    method Push(chunk: string) returns (frames: seq<string>)
      modifies this
      ensures (frames, buffer) == Step(old(buffer), chunk)
      ensures FirstSeparator(buffer).None?
      ensures exists parts :: IsSplit(parts) && Join(parts, FRAME_SEPARATOR) == old(buffer) + chunk
                              && frames == NonBlank(Front(parts)) && buffer == Last(parts)
    {
      buffer := buffer + chunk;
      var parts := Split(buffer);
      SplitCharacterised(buffer, parts);
      buffer := Last(parts);
      frames := NonBlank(Front(parts));
    }
  }

  function Concat(chunks: seq<string>): string {
    if |chunks| == 0 then "" else chunks[0] + Concat(chunks[1..])
  }

  lemma FrontOfConcat(parts: seq<string>, tail: seq<string>)
    requires |tail| >= 1
    ensures Front(parts + tail) == parts + Front(tail) && Last(parts + tail) == Last(tail)
  {
  }

  /** Two pushes in a row are one push of both chunks. */
  lemma StepTwice(buffer: string, x: string, y: string)
    ensures var (first, held) := Step(buffer, x); var (second, end) := Step(held, y);
            Step(buffer, x + y) == (first + second, end)
  {
    var z := buffer + x;
    SplitResumes(z, y);
    assert buffer + (x + y) == z + y;
    var tail := Split(Last(Split(z)) + y);
    FrontOfConcat(Front(Split(z)), tail);
    NonBlankConcat(Front(Split(z)), Front(tail));
  }

  lemma {:induction false} StepsAreOneStep(buffer: string, chunks: seq<string>)
    requires FirstSeparator(buffer).None?
    ensures Steps(buffer, chunks) == Step(buffer, Concat(chunks))
    decreases |chunks|
  {
    if |chunks| == 0 {
      assert buffer + "" == buffer;
      assert Split(buffer) == [buffer] && Front([buffer]) == [];
    } else {
      SplitIsSplit(buffer + chunks[0]);
      StepsAreOneStep(Step(buffer, chunks[0]).1, chunks[1..]);
      StepTwice(buffer, chunks[0], Concat(chunks[1..]));
    }
  }

  /**
   * However a text is cut into chunks, the frames and the held text are those
   * of pushing it whole; the held text never holds a separator.
   */
  lemma ChunkingDoesNotMatter(chunks: seq<string>, chunks': seq<string>)
    requires Concat(chunks) == Concat(chunks')
    ensures Steps("", chunks) == Steps("", chunks')
    ensures Steps("", chunks) == Step("", Concat(chunks))
    ensures FirstSeparator(Steps("", chunks).1).None?
  {
    StepsAreOneStep("", chunks);
    StepsAreOneStep("", chunks');
    SplitIsSplit("" + Concat(chunks));
  }

  // ---- One frame's payload ----

  function Lines(s: string): (lines: seq<string>)
    ensures |lines| >= 1
  {
    if |s| == 0 then [""]
    else
      var rest := Lines(s[1..]);
      if s[0] == '\n' then [""] + rest else [[s[0]] + rest[0]] + rest[1..]
  }

  function DataLines(lines: seq<string>): seq<string> {
    if |lines| == 0 then []
    else (if DATA_FIELD <= lines[0] then [Trim(lines[0][|DATA_FIELD|..])] else []) + DataLines(lines[1..])
  }

  /** `dataOf`, over any JSON reader; malformed payloads and frames without data give None. */
  function DataOf<T>(parse: string -> Option<T>, frame: string): Option<T> {
    var payload := Join(DataLines(Lines(frame)), "\n");
    if payload == "" then None else parse(payload)
  }

  /** `frame`, over any JSON writer. */
  function Frame<T>(encode: T -> string, payload: T): string {
    DATA_FIELD + " " + encode(payload) + FRAME_SEPARATOR
  }

  function Body<T>(encode: T -> string, payload: T): string {
    DATA_FIELD + " " + encode(payload)
  }

  /** What a JSON encoding of a payload looks like on the wire. */
  ghost predicate Encodes<T>(encode: T -> string, parse: string -> Option<T>, payload: T) {
    var text := encode(payload);
    && |text| > 0 && !IsSpace(text[0]) && !IsSpace(Last(text))
    && (forall i :: 0 <= i < |text| ==> text[i] != '\n')
    && parse(text) == Some(payload)
  }

  lemma {:induction false} OneLine(s: string)
    requires forall i :: 0 <= i < |s| ==> s[i] != '\n'
    ensures Lines(s) == [s]
  {
    if |s| > 0 {
      assert forall i :: 0 <= i < |s[1..]| ==> s[1..][i] == s[i + 1];
      OneLine(s[1..]);
      assert [s[0]] + s[1..] == s;
    }
  }

  /** A framed payload reads back as itself. */
  lemma BodyReadsBack<T>(encode: T -> string, parse: string -> Option<T>, payload: T)
    requires Encodes(encode, parse, payload)
    ensures DataOf(parse, Body(encode, payload)) == Some(payload)
  {
    var text := encode(payload);
    var body := Body(encode, payload);
    OneLine(body);
    assert body[|DATA_FIELD|..] == " " + text;
    assert (" " + text)[1..] == text;
    assert TrimStart(" " + text) == text;
    assert DataLines([body]) == [text];
  }

  // ---- Frames of several lines ----

  predicate NoNewline(s: string) {
    forall i :: 0 <= i < |s| ==> s[i] != '\n'
  }

  predicate NoNewlines(lines: seq<string>) {
    forall i :: 0 <= i < |lines| ==> NoNewline(lines[i])
  }

  lemma {:induction false} FirstLine(line: string, rest: string)
    requires NoNewline(line)
    ensures Lines(line + "\n" + rest) == [line] + Lines(rest)
  {
    var s := line + "\n" + rest;
    if |line| == 0 {
      assert s[1..] == rest;
    } else {
      assert s[1..] == line[1..] + "\n" + rest;
      FirstLine(line[1..], rest);
      assert [line[0]] + line[1..] == line;
    }
  }

  /** Cutting joined lines gives the lines back. */
  lemma {:induction false} LinesOfJoin(lines: seq<string>)
    requires |lines| > 0 && NoNewlines(lines)
    ensures Lines(Join(lines, "\n")) == lines
  {
    if |lines| == 1 {
      OneLine(lines[0]);
    } else {
      LinesOfJoin(lines[1..]);
      FirstLine(lines[0], Join(lines[1..], "\n"));
    }
  }

  lemma {:induction false} DataLinesConcat(a: seq<string>, b: seq<string>)
    ensures DataLines(a + b) == DataLines(a) + DataLines(b)
  {
    if |a| == 0 {
      assert a + b == b;
    } else {
      assert (a + b)[1..] == a[1..] + b;
      DataLinesConcat(a[1..], b);
    }
  }

  lemma OtherLineAddsNothing(before: seq<string>, other: string, rest: seq<string>)
    requires !(DATA_FIELD <= other)
    ensures DataLines(before + [other] + rest) == DataLines(before + rest)
  {
    DataLinesConcat(before, [other]);
    DataLinesConcat(before + [other], rest);
    DataLinesConcat(before, rest);
    assert DataLines([other]) == [];
  }

  /** Comments, heartbeats and other fields in a frame do not change what is read from it. */
  lemma OtherLinesAreIgnored<T>(parse: string -> Option<T>, before: seq<string>, other: string, rest: seq<string>)
    requires |before + rest| > 0 && !(DATA_FIELD <= other)
    requires NoNewlines(before) && NoNewline(other) && NoNewlines(rest)
    ensures DataOf(parse, Join(before + [other] + rest, "\n")) == DataOf(parse, Join(before + rest, "\n"))
  {
    var lines, fewer := before + [other] + rest, before + rest;
    assert NoNewlines(lines) && NoNewlines(fewer);
    LinesOfJoin(lines);
    LinesOfJoin(fewer);
    OtherLineAddsNothing(before, other, rest);
  }

  /** A frame of data lines, each with what follows its field name. */
  function DataFrame(rests: seq<string>): seq<string> {
    if |rests| == 0 then [] else [DATA_FIELD + rests[0]] + DataFrame(rests[1..])
  }

  function Trims(rests: seq<string>): seq<string> {
    if |rests| == 0 then [] else [Trim(rests[0])] + Trims(rests[1..])
  }

  lemma {:induction false} DataFrameReads(rests: seq<string>)
    ensures DataLines(DataFrame(rests)) == Trims(rests)
  {
    if |rests| > 0 {
      var line := DATA_FIELD + rests[0];
      assert line[|DATA_FIELD|..] == rests[0];
      DataFrameReads(rests[1..]);
      assert DataFrame(rests)[0] == line && DataFrame(rests)[1..] == DataFrame(rests[1..]);
    }
  }

  lemma {:induction false} DataFrameLines(rests: seq<string>)
    requires NoNewlines(rests)
    ensures |DataFrame(rests)| == |rests| && NoNewlines(DataFrame(rests))
  {
    if |rests| > 0 {
      DataFrameLines(rests[1..]);
      assert forall i :: 1 <= i < |rests| ==> DataFrame(rests)[i] == DataFrame(rests[1..])[i - 1];
    }
  }

  /** A payload sent as several data lines, blank ones included, is read as what each holds, trimmed, line by line. */
  lemma SeveralLinesReadBack<T>(parse: string -> Option<T>, rests: seq<string>)
    requires |rests| > 0 && NoNewlines(rests)
    ensures DataOf(parse, Join(DataFrame(rests), "\n"))
            == if Join(Trims(rests), "\n") == "" then None else parse(Join(Trims(rests), "\n"))
  {
    DataFrameLines(rests);
    LinesOfJoin(DataFrame(rests));
    DataFrameReads(rests);
  }

  function Stream<T>(encode: T -> string, payloads: seq<T>): string {
    if |payloads| == 0 then "" else Frame(encode, payloads[0]) + Stream(encode, payloads[1..])
  }

  function Bodies<T>(encode: T -> string, payloads: seq<T>): seq<string> {
    if |payloads| == 0 then [] else [Body(encode, payloads[0])] + Bodies(encode, payloads[1..])
  }

  function Read<T>(parse: string -> Option<T>, frames: seq<string>): seq<Option<T>> {
    if |frames| == 0 then [] else [DataOf(parse, frames[0])] + Read(parse, frames[1..])
  }

  function AllSome<T>(payloads: seq<T>): seq<Option<T>> {
    if |payloads| == 0 then [] else [Some(payloads[0])] + AllSome(payloads[1..])
  }

  lemma BodyIsOneFrame<T>(encode: T -> string, parse: string -> Option<T>, payload: T)
    requires Encodes(encode, parse, payload)
    ensures var body := Body(encode, payload);
            FirstSeparator(body).None? && |body| > 0 && Last(body) != '\n' && |Trim(body)| > 0
  {
    var body := Body(encode, payload);
    forall j: nat ensures !SeparatorAt(body, j) {}
    assert body[0] == 'd';
    BlankIff(body);
  }

  lemma {:induction false} StreamSplits<T>(encode: T -> string, parse: string -> Option<T>, payloads: seq<T>)
    requires forall i :: 0 <= i < |payloads| ==> Encodes(encode, parse, payloads[i])
    ensures Split(Stream(encode, payloads)) == Bodies(encode, payloads) + [""]
    ensures NonBlank(Bodies(encode, payloads)) == Bodies(encode, payloads)
    ensures Read(parse, Bodies(encode, payloads)) == AllSome(payloads)
  {
    if |payloads| > 0 {
      var body, rest := Body(encode, payloads[0]), Stream(encode, payloads[1..]);
      assert Encodes(encode, parse, payloads[0]);
      BodyIsOneFrame(encode, parse, payloads[0]);
      BodyReadsBack(encode, parse, payloads[0]);
      StreamSplits(encode, parse, payloads[1..]);
      assert Stream(encode, payloads) == body + FRAME_SEPARATOR + rest;
      SplitAfter(body, rest);
    }
  }

  /**
   * Payloads framed, concatenated, cut anywhere and pushed come back exactly,
   * in order, with nothing held.
   */
  lemma RoundTrip<T>(encode: T -> string, parse: string -> Option<T>, payloads: seq<T>, chunks: seq<string>)
    requires forall i :: 0 <= i < |payloads| ==> Encodes(encode, parse, payloads[i])
    requires Concat(chunks) == Stream(encode, payloads)
    ensures Read(parse, Steps("", chunks).0) == AllSome(payloads)
    ensures Steps("", chunks).1 == ""
  {
    StepsAreOneStep("", chunks);
    StreamSplits(encode, parse, payloads);
    assert "" + Concat(chunks) == Stream(encode, payloads);
    assert Front(Bodies(encode, payloads) + [""]) == Bodies(encode, payloads);
  }
}
