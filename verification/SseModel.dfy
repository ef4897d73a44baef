/** The SSE metrics observer of `gateway/observability/sse.py`: what an event means, and a
    reference parse of a whole byte stream that knows nothing of chunks. It follows a subset
    of section 9.2 (Server-sent events) of the WHATWG HTML Living Standard. */
module SseModel {
  import opened Json

  newtype byte = x: int | 0 <= x < 256

  const CR: byte := 13
  const LF: byte := 10
  const SPACE: byte := 32
  const COLON: byte := 58

  /** The bytes `data`. */
  const DATA: seq<byte> := [100, 97, 116, 97]
  /** The bytes `[DONE]`. */
  const DONE: seq<byte> := [91, 68, 79, 78, 69, 93]

  /** What `json.loads` makes of the data of an event; the parser itself is a parameter. */
  datatype Payload = Malformed | Parsed(data: Data)
  type JsonParser = seq<byte> -> Payload

  // ---------------------------------------------------------------- boundaries

  /** The length of `\r?\n` at `p`, or 0. */
  function LineEnd(s: seq<byte>, p: nat): (n: nat)
    ensures n <= 2 && (n > 0 ==> p + n <= |s|)
  {
    if p < |s| && s[p] == LF then 1
    else if p + 1 < |s| && s[p] == CR && s[p + 1] == LF then 2
    else 0
  }

  /** The length of `\r?\n\r?\n` at `p`, or 0. */
  function Boundary(s: seq<byte>, p: nat): (n: nat)
    ensures n > 0 ==> 2 <= n <= 4 && p + n <= |s|
  {
    var a := LineEnd(s, p);
    if a == 0 then 0 else
      var b := LineEnd(s, p + a);
      if b == 0 then 0 else a + b
  }

  /** The leftmost boundary at or after `p`, or the length of `s`. */
  function FirstBoundary(s: seq<byte>, p: nat): (q: nat)
    requires p <= |s|
    ensures p <= q <= |s|
    ensures q < |s| ==> Boundary(s, q) > 0
    ensures forall i :: p <= i < q ==> Boundary(s, i) == 0
    decreases |s| - p
  {
    if p == |s| || Boundary(s, p) > 0 then p else FirstBoundary(s, p + 1)
  }

  predicate NoBoundary(s: seq<byte>) {
    FirstBoundary(s, 0) == |s|
  }

  // ---------------------------------------------------------------- one event

  function LineLength(s: seq<byte>): (n: nat)
    ensures n <= |s| && (n < |s| ==> s[n] == CR || s[n] == LF)
  {
    if s == [] || s[0] == CR || s[0] == LF then 0 else 1 + LineLength(s[1..])
  }

  /** `bytes.splitlines()`. */
  function SplitLines(s: seq<byte>): seq<seq<byte>>
    decreases |s|
  {
    if s == [] then [] else
      var n := LineLength(s);
      if n == |s| then [s] else
        var k := if s[n] == CR && n + 1 < |s| && s[n + 1] == LF then 2 else 1;
        [s[..n]] + SplitLines(s[n + k..])
  }

  /** The text of lines with their ends. */
  function Unsplit(lines: seq<seq<byte>>, ends: seq<seq<byte>>): seq<byte>
    requires |lines| == |ends|
  {
    if lines == [] then [] else lines[0] + ends[0] + Unsplit(lines[1..], ends[1..])
  }

  predicate Unbroken(line: seq<byte>) {
    forall i :: 0 <= i < |line| ==> line[i] != CR && line[i] != LF
  }

  /** No line holds an end; every line but the last has one, the last one may lack it if it is
      not empty, and a CR is an end by itself only if no LF follows. */
  ghost predicate ProperLines(lines: seq<seq<byte>>, ends: seq<seq<byte>>)
    requires |lines| == |ends|
  {
    lines == [] ||
    (&& Unbroken(lines[0]) && ends[0] in {[], [LF], [CR], [CR, LF]}
     && (ends[0] == [] ==> |lines| == 1 && lines[0] != [])
     && (ends[0] == [CR] ==> !([LF] <= Unsplit(lines[1..], ends[1..])))
     && ProperLines(lines[1..], ends[1..]))
  }

  lemma {:induction false} LineIsUnbroken(s: seq<byte>)
    ensures Unbroken(s[..LineLength(s)])
  {
    var n := LineLength(s);
    if n > 0 {
      LineIsUnbroken(s[1..]);
      assert s[..n] == [s[0]] + s[1..][..n - 1];
    }
  }

  lemma OneMoreLine(line: seq<byte>, end: seq<byte>, lines: seq<seq<byte>>, ends: seq<seq<byte>>)
    requires |lines| == |ends| && ProperLines(lines, ends) && Unbroken(line)
    requires end == [LF] || end == [CR, LF] || (end == [CR] && !([LF] <= Unsplit(lines, ends)))
    ensures ProperLines([line] + lines, [end] + ends)
    ensures Unsplit([line] + lines, [end] + ends) == line + end + Unsplit(lines, ends)
  {
    hide Unbroken;
    assert ([line] + lines)[1..] == lines && ([end] + ends)[1..] == ends;
  }

  lemma LastLine(line: seq<byte>)
    requires Unbroken(line) && line != []
    ensures ProperLines([line], [[]]) && Unsplit([line], [[]]) == line
  {
    hide Unbroken;
    var none: seq<seq<byte>> := [[]];
    assert [line][1..] == [] && none[1..] == [];
    assert Unsplit([], []) == [];
  }

  /** Splitting loses nothing: the lines with their ends, LF, CR or CRLF, are the bytes again. */
  lemma {:induction false} SplitLinesExact(s: seq<byte>) returns (ends: seq<seq<byte>>)
    ensures |ends| == |SplitLines(s)|
    ensures ProperLines(SplitLines(s), ends) && Unsplit(SplitLines(s), ends) == s
    decreases |s|
  {
    hide Unbroken, ProperLines, Unsplit;
    var n := LineLength(s);
    LineIsUnbroken(s);
    NoLines();
    if s == [] {
      ends := [];
    } else if n == |s| {
      ends := [[]];
      assert s[..n] == s;
      LastLine(s);
    } else {
      var k := if s[n] == CR && n + 1 < |s| && s[n + 1] == LF then 2 else 1;
      var rest := SplitLinesExact(s[n + k..]);
      ends := [s[n..n + k]] + rest;
      assert s == s[..n] + s[n..n + k] + s[n + k..];
      assert k == 1 ==> s[n..n + k] == [s[n]];
      OneMoreLine(s[..n], s[n..n + k], SplitLines(s[n + k..]), rest);
    }
  }

  lemma NoLines()
    ensures ProperLines([], []) && Unsplit([], []) == []
  {
  }

  /** The value of a data field, as a list of at most one line. */
  function DataLine(line: seq<byte>): seq<seq<byte>> {
    if line == DATA then [[]]
    else if DATA + [COLON] <= line then
      var value := line[5..];
      [if value != [] && value[0] == SPACE then value[1..] else value]
    else []
  }

  function DataLines(lines: seq<seq<byte>>): seq<seq<byte>> {
    if lines == [] then [] else
      (if lines[0] != [] && lines[0][0] == COLON then [] else DataLine(lines[0])) + DataLines(lines[1..])
  }

  function JoinLines(lines: seq<seq<byte>>): seq<byte> {
    if lines == [] then [] else if |lines| == 1 then lines[0] else lines[0] + [LF] + JoinLines(lines[1..])
  }

  predicate Blank(b: byte) { b == SPACE || 9 <= b <= 13 }

  function StripLeft(s: seq<byte>): seq<byte> {
    if s != [] && Blank(s[0]) then StripLeft(s[1..]) else s
  }

  function StripRight(s: seq<byte>): seq<byte> {
    if s != [] && Blank(s[|s| - 1]) then StripRight(s[..|s| - 1]) else s
  }

  // ---------------------------------------------------------------- the verdict

  datatype Usage = Unseen | Observed(tokens: int) | Invalid

  /** Everything the observer has concluded; `events` lists the events it looked at. */
  datatype Verdict = Verdict(firstContent: bool, usage: Usage, disabled: bool, events: seq<seq<byte>>)

  const START := Verdict(false, Unseen, false, [])

  /** The choice carries a non-empty content delta. */
  predicate HasContent(choice: Data) {
    && choice.Dict? && "delta" in choice.entries && choice.entries["delta"].Dict?
    && "content" in choice.entries["delta"].entries
    && choice.entries["delta"].entries["content"].Str?
    && choice.entries["delta"].entries["content"].chars != ""
  }

  predicate ShowsContent(payload: map<string, Data>) {
    && "choices" in payload && payload["choices"].List?
    && exists i :: 0 <= i < |payload["choices"].items| && HasContent(payload["choices"].items[i])
  }

  function UsageOf(payload: map<string, Data>): Usage {
    if "usage" !in payload then Unseen
    else if !payload["usage"].Dict? || "completion_tokens" !in payload["usage"].entries then Invalid
    else
      var tokens := payload["usage"].entries["completion_tokens"];
      if tokens.Int? && tokens.value >= 0 then Observed(tokens.value) else Invalid
  }

  function ObservePayload(v: Verdict, payload: map<string, Data>): Verdict {
    v.(firstContent := v.firstContent || ShowsContent(payload),
       usage := if v.usage.Unseen? then UsageOf(payload) else v.usage)
  }

  /** The effect of one event. */
  function ObserveEvent(json: JsonParser, v: Verdict, event: seq<byte>): Verdict {
    var seen := v.(events := v.events + [event]);
    var lines := DataLines(SplitLines(event));
    if lines == [] then seen else
      var data := JoinLines(lines);
      if StripRight(StripLeft(data)) == DONE then seen else
        match json(data)
        case Malformed => seen.(disabled := true)
        case Parsed(d) => if d.Dict? then ObservePayload(seen, d.entries) else seen.(disabled := true)
  }

  // ---------------------------------------------------------------- the reference parse

  /** What is left to parse, and the verdict so far. */
  datatype Progress = Progress(buffer: seq<byte>, verdict: Verdict)

  /** A whole stream, event by event. An event must fit with its boundary into `max` bytes;
      after `max` bytes without a complete event the next byte disables the observer. */
  function Parse(json: JsonParser, max: nat, s: seq<byte>, v: Verdict): Progress
    decreases |s|
  {
    var p := FirstBoundary(s, 0);
    if p < |s| && p + Boundary(s, p) <= max then
      var w := ObserveEvent(json, v, s[..p]);
      if w.disabled then Progress([], w) else Parse(json, max, s[p + Boundary(s, p)..], w)
    else if |s| <= max then Progress(s, v)
    else Progress([], v.(disabled := true))
  }

  /** One call of `observe_bytes` before the stream ends. */
  function Feed(json: JsonParser, max: nat, g: Progress, chunk: seq<byte>): Progress {
    if g.verdict.disabled then g else Parse(json, max, g.buffer + chunk, g.verdict)
  }

  function FeedAll(json: JsonParser, max: nat, g: Progress, chunks: seq<seq<byte>>): Progress
    decreases |chunks|
  {
    if chunks == [] then g else FeedAll(json, max, Feed(json, max, g, chunks[0]), chunks[1..])
  }

  function Concat(chunks: seq<seq<byte>>): seq<byte> {
    if chunks == [] then [] else chunks[0] + Concat(chunks[1..])
  }

  /** Between calls: the buffer holds no complete event, fits, and is empty once disabled. */
  ghost predicate Consistent(max: nat, g: Progress)
    ensures Consistent(max, g) ==> |g.buffer| <= max && (g.verdict.disabled ==> g.buffer == [])
  {
    && |g.buffer| <= max && NoBoundary(g.buffer)
    && (g.verdict.disabled ==> g.buffer == [])
  }

  // ---------------------------------------------------------------- chunking does not matter

  /** A boundary found in a prefix is the leftmost one of any continuation, with the same
      end; a continuation can only complete a boundary beyond a prefix that has none. */
  lemma BoundaryStable(s: seq<byte>, t: seq<byte>)
    ensures var p := FirstBoundary(s, 0); var q := FirstBoundary(s + t, 0);
      && (p < |s| ==> q == p && Boundary(s + t, p) == Boundary(s, p))
      && (p == |s| && q < |s + t| ==> q + Boundary(s + t, q) > |s|)
  {
    var u := s + t;
    var p, q := FirstBoundary(s, 0), FirstBoundary(u, 0);
    if p < |s| {
      LineEndStable(s, t, p);
      LineEndStable(s, t, p + LineEnd(s, p));
      assert Boundary(u, p) == Boundary(s, p);
      NoneEarlier(s, t, p, q);
    } else if q < |u| && q + Boundary(u, q) <= |s| {
      BoundaryWithin(s, t, q);
    }
  }

  lemma NoneEarlier(s: seq<byte>, t: seq<byte>, p: nat, q: nat)
    requires p < |s| && Boundary(s, p) > 0
    ensures q < p && Boundary(s + t, q) > 0 ==> Boundary(s, q) > 0
  {
    LineEndStable(s, t, q);
    LineEndStable(s, t, q + LineEnd(s + t, q));
  }

  lemma BoundaryWithin(s: seq<byte>, t: seq<byte>, q: nat)
    requires q < |s| && Boundary(s + t, q) > 0 && q + Boundary(s + t, q) <= |s|
    ensures Boundary(s, q) > 0
  {
    LineEndStable(s, t, q);
    LineEndStable(s, t, q + LineEnd(s + t, q));
  }

  lemma LineEndStable(s: seq<byte>, t: seq<byte>, p: nat)
    ensures LineEnd(s, p) > 0 ==> LineEnd(s + t, p) == LineEnd(s, p)
    ensures LineEnd(s + t, p) > 0 && p + LineEnd(s + t, p) <= |s| ==> LineEnd(s, p) == LineEnd(s + t, p)
  {
  }

  /** Parsing a concatenation is parsing the first part and going on with what it left. */
  lemma {:induction false} ParseSplit(json: JsonParser, max: nat, s: seq<byte>, t: seq<byte>, v: Verdict)
    requires !v.disabled
    ensures Parse(json, max, s + t, v) == Feed(json, max, Parse(json, max, s, v), t)
    decreases |s|
  {
    hide Boundary, FirstBoundary, ObserveEvent;
    BoundaryStable(s, t);
    var p := FirstBoundary(s, 0);
    if p < |s| && p + Boundary(s, p) <= max {
      var e := p + Boundary(s, p);
      assert (s + t)[..p] == s[..p] && (s + t)[e..] == s[e..] + t;
      var w := ObserveEvent(json, v, s[..p]);
      if !w.disabled {
        ParseSplit(json, max, s[e..], t, w);
      }
    }
  }

  lemma {:induction false} ParseConsistent(json: JsonParser, max: nat, s: seq<byte>, v: Verdict)
    requires !v.disabled
    ensures Consistent(max, Parse(json, max, s, v))
    decreases |s|
  {
    hide ObserveEvent, LineEnd;
    var p := FirstBoundary(s, 0);
    if p < |s| && p + Boundary(s, p) <= max {
      var w := ObserveEvent(json, v, s[..p]);
      if !w.disabled {
        ParseConsistent(json, max, s[p + Boundary(s, p)..], w);
      }
    }
  }

  lemma FeedConsistent(json: JsonParser, max: nat, g: Progress, chunk: seq<byte>)
    requires Consistent(max, g)
    ensures Consistent(max, Feed(json, max, g, chunk))
  {
    if !g.verdict.disabled {
      ParseConsistent(json, max, g.buffer + chunk, g.verdict);
    }
  }

  /** A consistent state waits for more bytes: feeding nothing changes nothing. */
  lemma FeedNothing(json: JsonParser, max: nat, g: Progress)
    requires Consistent(max, g)
    ensures Feed(json, max, g, []) == g
  {
    assert g.buffer + [] == g.buffer;
  }

  lemma FeedTwice(json: JsonParser, max: nat, g: Progress, a: seq<byte>, b: seq<byte>)
    requires Consistent(max, g)
    ensures Feed(json, max, Feed(json, max, g, a), b) == Feed(json, max, g, a + b)
  {
    hide Parse, FirstBoundary;
    if !g.verdict.disabled {
      ParseSplit(json, max, g.buffer + a, b, g.verdict);
      assert g.buffer + a + b == g.buffer + (a + b);
    }
  }

  /** Chunking invariance. However a stream is cut, the observer ends in the state of the
      reference parse of the whole stream. */
  lemma {:induction false} ChunkingIsInvisible(json: JsonParser, max: nat, g: Progress, chunks: seq<seq<byte>>)
    requires Consistent(max, g)
    ensures FeedAll(json, max, g, chunks) == Feed(json, max, g, Concat(chunks))
    decreases |chunks|
  {
    hide Consistent, Feed;
    if chunks == [] {
      FeedNothing(json, max, g);
    } else {
      FeedConsistent(json, max, g, chunks[0]);
      ChunkingIsInvisible(json, max, Feed(json, max, g, chunks[0]), chunks[1..]);
      FeedTwice(json, max, g, chunks[0], Concat(chunks[1..]));
    }
  }

  /** Two cuts of one stream give the same events, verdict and buffer. */
  lemma SameStreamSameVerdict(json: JsonParser, max: nat, a: seq<seq<byte>>, b: seq<seq<byte>>)
    requires Concat(a) == Concat(b)
    ensures FeedAll(json, max, Progress([], START), a) == FeedAll(json, max, Progress([], START), b)
         == Parse(json, max, Concat(a), START)
  {
    ChunkingIsInvisible(json, max, Progress([], START), a);
    ChunkingIsInvisible(json, max, Progress([], START), b);
    assert [] + Concat(a) == Concat(a);
  }

  /** Nothing concluded is ever revised. */
  predicate Refines(v: Verdict, w: Verdict) {
    && (v.firstContent ==> w.firstContent) && (v.disabled ==> w.disabled)
    && (!v.usage.Unseen? ==> w.usage == v.usage) && v.events <= w.events
  }

  lemma {:induction false} ParseRefines(json: JsonParser, max: nat, s: seq<byte>, v: Verdict)
    ensures Refines(v, Parse(json, max, s, v).verdict)
    decreases |s|
  {
    hide Boundary, FirstBoundary, SplitLines, DataLines, JoinLines, StripLeft, StripRight, ShowsContent, UsageOf;
    var p := FirstBoundary(s, 0);
    if p < |s| && p + Boundary(s, p) <= max {
      var w := ObserveEvent(json, v, s[..p]);
      if !w.disabled {
        ParseRefines(json, max, s[p + Boundary(s, p)..], w);
      }
    }
  }
}
