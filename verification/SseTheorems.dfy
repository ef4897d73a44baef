/** What the observer concludes from a whole stream, told from the bytes alone: which events
    the stream consists of, what data they carry, and which payloads decide the verdict. */
module SseTheorems {
  import opened Json
  import opened SseModel
  import opened SseObserver

  // ---------------------------------------------------------------- separators

  /** `sep` ends an event: two line ends, each LF or CRLF. */
  predicate Separator(sep: seq<byte>) {
    sep == [LF, LF] || sep == [CR, LF, LF] || sep == [LF, CR, LF] || sep == [CR, LF, CR, LF]
  }

  predicate SeparatorAt(s: seq<byte>, p: nat) {
    p <= |s| && ([LF, LF] <= s[p..] || [CR, LF, LF] <= s[p..] || [LF, CR, LF] <= s[p..] || [CR, LF, CR, LF] <= s[p..])
  }

  lemma BoundaryExact(s: seq<byte>, p: nat)
    requires p <= |s|
    ensures Boundary(s, p) > 0 <==> SeparatorAt(s, p)
    ensures Boundary(s, p) > 0 ==> Separator(s[p..p + Boundary(s, p)])
  {
    var t := s[p..];
    assert forall i :: 0 <= i < |t| ==> t[i] == s[p + i];
    var n := Boundary(s, p);
    if n > 0 {
      var sep := s[p..p + n];
      assert sep <= t;
      if n == 2 { assert sep == [LF, LF]; }
      if n == 3 { assert sep == [CR, LF, LF] || sep == [LF, CR, LF]; }
      if n == 4 { assert sep == [CR, LF, CR, LF]; }
    }
  }

  // ---------------------------------------------------------------- the data of an event

  /** The line is a data field with this value. */
  predicate DataField(line: seq<byte>, value: seq<byte>) {
    || (line == [100, 97, 116, 97] && value == [])
    || (line == [100, 97, 116, 97, 58] + value && (value == [] || value[0] != SPACE))
    || line == [100, 97, 116, 97, 58, 32] + value
  }

  ghost predicate IsDataField(line: seq<byte>) {
    exists value :: DataField(line, value)
  }

  /** The values of the data fields among the lines, in order. */
  ghost predicate DataValues(lines: seq<seq<byte>>, values: seq<seq<byte>>) {
    if lines == [] then values == []
    else if IsDataField(lines[0]) then
      values != [] && DataField(lines[0], values[0]) && DataValues(lines[1..], values[1..])
    else DataValues(lines[1..], values)
  }

  function LineFeeds(n: nat): (s: seq<seq<byte>>)
    ensures |s| == n && forall i :: 0 <= i < n ==> s[i] == [LF]
  {
    seq(n, _ => [LF])
  }

  /** The event has data: cut into lines, its data fields have values, and `data` with a
      line feed behind it is every value with a line feed behind it. */
  ghost predicate HasData(event: seq<byte>, data: seq<byte>) {
    exists lines, ends, values :: CutsInto(event, lines, ends, values)
      && data + [LF] == Unsplit(values, LineFeeds(|values|))
  }

  ghost predicate CutsInto(event: seq<byte>, lines: seq<seq<byte>>, ends: seq<seq<byte>>, values: seq<seq<byte>>) {
    && |lines| == |ends| && ProperLines(lines, ends) && Unsplit(lines, ends) == event
    && DataValues(lines, values) && values != []
  }

  lemma DataLineExact(line: seq<byte>, value: seq<byte>)
    ensures DataLine(line) == [value] <==> DataField(line, value)
    ensures DataLine(line) == [] || |DataLine(line)| == 1
  {
    var v := line[if |line| < 5 then |line| else 5..];
    if DATA + [COLON] <= line {
      assert line == DATA + [COLON] + v;
      if v != [] && v[0] == SPACE {
        assert line == [100, 97, 116, 97, 58, 32] + v[1..];
      }
    }
    if DataField(line, value) && line != DATA {
      assert DATA + [COLON] <= line;
      if line == [100, 97, 116, 97, 58, 32] + value {
        assert v == [SPACE] + value;
      } else {
        assert v == value;
      }
    }
  }

  lemma OnlyDataFields(line: seq<byte>)
    ensures IsDataField(line) <==> DataLine(line) != []
    ensures line != [] && line[0] == COLON ==> DataLine(line) == []
  {
    if DataLine(line) != [] {
      DataLineExact(line, DataLine(line)[0]);
    } else {
      forall value ensures !DataField(line, value) {
        DataLineExact(line, value);
      }
    }
  }

  lemma {:induction false} DataLinesExact(lines: seq<seq<byte>>, values: seq<seq<byte>>)
    ensures DataLines(lines) == values <==> DataValues(lines, values)
    decreases |lines|
  {
    hide DataLine, DataField, IsDataField;
    if lines != [] {
      OnlyDataFields(lines[0]);
      if IsDataField(lines[0]) {
        if values != [] {
          DataLinesExact(lines[1..], values[1..]);
          DataLineExact(lines[0], values[0]);
          assert DataLines(lines) == DataLine(lines[0]) + DataLines(lines[1..]);
          assert values == [values[0]] + values[1..];
          var own := DataLine(lines[0]);
          DataLineExact(lines[0], own[0]);
          assert own == [own[0]];
          assert (own + DataLines(lines[1..]))[0] == own[0] && (own + DataLines(lines[1..]))[1..] == DataLines(lines[1..]);
        }
      } else {
        DataLinesExact(lines[1..], values);
        assert DataLines(lines) == DataLines(lines[1..]);
      }
    }
  }

  lemma {:induction false} JoinExact(values: seq<seq<byte>>)
    requires values != []
    ensures JoinLines(values) + [LF] == Unsplit(values, LineFeeds(|values|))
  {
    var ends := LineFeeds(|values|);
    assert ends[1..] == LineFeeds(|values| - 1);
    if |values| == 1 {
      assert values[1..] == [];
      assert Unsplit(values, ends) == values[0] + [LF] + [];
    } else {
      JoinExact(values[1..]);
    }
  }

  lemma {:induction false} LengthOfLine(line: seq<byte>, rest: seq<byte>)
    requires Unbroken(line) && (rest == [] || rest[0] == CR || rest[0] == LF)
    ensures LineLength(line + rest) == |line|
  {
    if line == [] {
      assert line + rest == rest;
    } else {
      assert (line + rest)[1..] == line[1..] + rest;
      LengthOfLine(line[1..], rest);
    }
  }

  /** A line with its end is the first line of what it begins. */
  lemma FirstLine(line: seq<byte>, end: seq<byte>, rest: seq<byte>)
    requires Unbroken(line)
    requires end == [LF] || end == [CR, LF] || (end == [CR] && !([LF] <= rest))
    ensures SplitLines(line + end + rest) == [line] + SplitLines(rest)
  {
    var s, n := line + end + rest, |line|;
    assert s == line + (end + rest) && (end + rest)[0] == end[0];
    LengthOfLine(line, end + rest);
    hide Unbroken, LineLength;
    assert s[..n] == line && s[n] == end[0] && s[n + |end|..] == rest;
    if end == [CR] {
      assert n + 1 < |s| ==> s[n + 1] == rest[0];
    } else if end == [CR, LF] {
      assert s[n + 1] == LF;
    }
  }

  lemma OnlyLine(line: seq<byte>)
    requires Unbroken(line) && line != []
    ensures SplitLines(line) == [line]
  {
    assert line + [] == line;
    LengthOfLine(line, []);
  }

  /** There is one way to cut an event into lines. */
  lemma {:induction false} LinesUnique(lines: seq<seq<byte>>, ends: seq<seq<byte>>)
    requires |lines| == |ends| && ProperLines(lines, ends)
    ensures SplitLines(Unsplit(lines, ends)) == lines
    decreases |lines|
  {
    hide Unbroken, SplitLines;
    if lines == [] {
      NoSplit();
    } else {
      var rest := Unsplit(lines[1..], ends[1..]);
      if ends[0] == [] {
        assert lines[1..] == [] && ends[1..] == [] && rest == [];
        assert Unsplit(lines, ends) == lines[0] + [] + [] == lines[0];
        OnlyLine(lines[0]);
        assert lines == [lines[0]];
      } else {
        LinesUnique(lines[1..], ends[1..]);
        FirstLine(lines[0], ends[0], rest);
        assert [lines[0]] + lines[1..] == lines;
      }
    }
  }

  lemma NoSplit()
    ensures SplitLines([]) == []
  {
  }

  /** The data of an event is what the observer computes of it. */
  lemma DataExact(event: seq<byte>, data: seq<byte>)
    ensures HasData(event, data) <==>
      DataLines(SplitLines(event)) != [] && data == JoinLines(DataLines(SplitLines(event)))
  {
    hide SplitLines, DataLines, JoinLines, ProperLines, Unsplit, DataValues, LineFeeds;
    var lines, values := SplitLines(event), DataLines(SplitLines(event));
    if HasData(event, data) {
      var l, e, v :| CutsInto(event, l, e, v) && data + [LF] == Unsplit(v, LineFeeds(|v|));
      LinesUnique(l, e);
      DataLinesExact(l, v);
      JoinExact(v);
      assert data == (data + [LF])[..|data|] == JoinLines(v);
    }
    if values != [] && data == JoinLines(values) {
      var ends := SplitLinesExact(event);
      DataLinesExact(lines, values);
      JoinExact(values);
      assert CutsInto(event, lines, ends, values);
    }
  }

  predicate AllBlank(s: seq<byte>) {
    forall i :: 0 <= i < |s| ==> s[i] == 32 || 9 <= s[i] <= 13
  }

  /** The data is the end marker `[DONE]`, blanks around it aside. */
  ghost predicate IsDone(data: seq<byte>) {
    exists l, r :: AllBlank(l) && AllBlank(r) && data == l + [91, 68, 79, 78, 69, 93] + r
  }

  lemma {:induction false} StripLeftIs(s: seq<byte>) returns (l: seq<byte>)
    ensures AllBlank(l) && s == l + StripLeft(s)
  {
    if s != [] && Blank(s[0]) {
      l := StripLeftIs(s[1..]);
      l := [s[0]] + l;
    } else {
      l := [];
    }
  }

  lemma {:induction false} StripRightIs(s: seq<byte>) returns (r: seq<byte>)
    ensures AllBlank(r) && s == StripRight(s) + r
  {
    if s != [] && Blank(s[|s| - 1]) {
      r := StripRightIs(s[..|s| - 1]);
      r := r + [s[|s| - 1]];
    } else {
      r := [];
    }
  }

  lemma {:induction false} StripLeftOf(l: seq<byte>, s: seq<byte>)
    requires AllBlank(l) && s != [] && !Blank(s[0])
    ensures StripLeft(l + s) == s
  {
    if l == [] {
      assert l + s == s;
    } else {
      assert (l + s)[1..] == l[1..] + s;
      StripLeftOf(l[1..], s);
    }
  }

  lemma {:induction false} StripRightOf(s: seq<byte>, r: seq<byte>)
    requires AllBlank(r) && s != [] && !Blank(s[|s| - 1])
    ensures StripRight(s + r) == s
  {
    if r == [] {
      assert s + r == s;
    } else {
      assert (s + r)[..|s + r| - 1] == s + r[..|r| - 1];
      StripRightOf(s, r[..|r| - 1]);
    }
  }

  lemma DoneExact(data: seq<byte>)
    ensures IsDone(data) <==> StripRight(StripLeft(data)) == DONE
  {
    hide StripLeft, StripRight;
    if IsDone(data) {
      var l, r :| AllBlank(l) && AllBlank(r) && data == l + [91, 68, 79, 78, 69, 93] + r;
      assert data == l + (DONE + r);
      StripLeftOf(l, DONE + r);
      StripRightOf(DONE, r);
    }
    if StripRight(StripLeft(data)) == DONE {
      var l := StripLeftIs(data);
      var r := StripRightIs(StripLeft(data));
      assert data == l + DONE + r;
    }
  }

  // ---------------------------------------------------------------- what an event says

  /** The event carries an object as its payload. */
  ghost predicate Carries(json: JsonParser, event: seq<byte>, payload: map<string, Data>) {
    exists data :: HasData(event, data) && !IsDone(data) && json(data) == Parsed(Dict(payload))
  }

  /** The event has data that is neither the end marker nor an object. */
  ghost predicate Broken(json: JsonParser, event: seq<byte>) {
    exists data :: HasData(event, data) && !IsDone(data) && forall p :: json(data) != Parsed(Dict(p))
  }

  /** One choice of the payload has a delta with a content of positive length. */
  ghost predicate Content(payload: map<string, Data>) {
    && "choices" in payload && payload["choices"].List?
    && exists i, delta, text ::
      && 0 <= i < |payload["choices"].items| && |text| > 0
      && ChoiceHas(payload["choices"].items[i], delta, text)
  }

  predicate ChoiceHas(choice: Data, delta: map<string, Data>, text: string) {
    && choice.Dict? && "delta" in choice.entries && choice.entries["delta"] == Dict(delta)
    && "content" in delta && delta["content"] == Str(text)
  }

  /** The usage field says that many tokens. */
  predicate Says(usage: Data, tokens: int) {
    usage.Dict? && "completion_tokens" in usage.entries && usage.entries["completion_tokens"] == Int(tokens) && tokens >= 0
  }

  lemma ContentExact(payload: map<string, Data>)
    ensures ShowsContent(payload) <==> Content(payload)
  {
    if ShowsContent(payload) {
      var items := payload["choices"].items;
      var i :| 0 <= i < |items| && HasContent(items[i]);
      var delta := items[i].entries["delta"].entries;
      assert ChoiceHas(items[i], delta, delta["content"].chars);
    }
    if Content(payload) {
      var items := payload["choices"].items;
      var i, delta, text :| 0 <= i < |items| && |text| > 0 && ChoiceHas(items[i], delta, text);
      assert HasContent(items[i]);
    }
  }

  lemma UsageExact(payload: map<string, Data>, tokens: int)
    ensures UsageOf(payload) == Unseen <==> "usage" !in payload
    ensures "usage" in payload ==> (UsageOf(payload) == Observed(tokens) <==> Says(payload["usage"], tokens))
  {
  }

  /** What one event does to a verdict. */
  lemma EventExact(json: JsonParser, v: Verdict, event: seq<byte>)
    requires !v.disabled
    ensures var w := ObserveEvent(json, v, event);
      && w.events == v.events + [event]
      && (w.disabled <==> Broken(json, event))
      && (w.firstContent <==> v.firstContent || exists p :: Carries(json, event, p) && Content(p))
      && ((forall p :: !Carries(json, event, p)) ==> w.usage == v.usage)
      && (forall p :: Carries(json, event, p) ==> w.usage == if v.usage == Unseen then UsageOf(p) else v.usage)
  {
    hide SplitLines, DataLines, JoinLines, StripLeft, StripRight, ShowsContent, UsageOf, HasData, IsDone, Content;
    var lines := DataLines(SplitLines(event));
    var data := JoinLines(lines);
    forall d ensures HasData(event, d) <==> lines != [] && d == data {
      DataExact(event, d);
    }
    DoneExact(data);
    if lines != [] && !IsDone(data) {
      if json(data).Parsed? && json(data).data.Dict? {
        var payload := json(data).data.entries;
        assert json(data) == Parsed(Dict(payload));
        assert Carries(json, event, payload);
        assert forall p :: Carries(json, event, p) ==> p == payload;
        ContentExact(payload);
      } else {
        assert Broken(json, event);
      }
    }
  }

  // ---------------------------------------------------------------- whole streams

  /** The events, each with its separator. */
  function Weave(events: seq<seq<byte>>, seps: seq<seq<byte>>): seq<byte>
    requires |events| == |seps|
  {
    if events == [] then [] else events[0] + seps[0] + Weave(events[1..], seps[1..])
  }

  /** The event ends with the first separator and fits with it. */
  ghost predicate Delimited(event: seq<byte>, sep: seq<byte>, max: nat) {
    && Separator(sep) && |event| + |sep| <= max
    && forall p :: 0 <= p < |event| ==> !SeparatorAt(event + sep, p)
  }

  /** The rest of a stream grew beyond `max` bytes before another event was complete. */
  ghost predicate Overflows(rest: seq<byte>, max: nat) {
    |rest| > max && forall p :: 0 <= p <= max ==> !SeparatorAt(rest[..max], p)
  }

  ghost predicate LastBroken(json: JsonParser, events: seq<seq<byte>>) {
    events != [] && Broken(json, events[|events| - 1])
  }

  ghost predicate SomeContent(json: JsonParser, events: seq<seq<byte>>) {
    exists k, payload :: 0 <= k < |events| && Carries(json, events[k], payload) && Content(payload)
  }

  ghost predicate NoUsage(json: JsonParser, events: seq<seq<byte>>) {
    forall k, payload :: 0 <= k < |events| && Carries(json, events[k], payload) ==> "usage" !in payload
  }

  /** The first payload with a usage field is that of the event `k`. */
  ghost predicate FirstUsage(json: JsonParser, events: seq<seq<byte>>, k: nat, payload: map<string, Data>) {
    k < |events| && Carries(json, events[k], payload) && "usage" in payload && NoUsage(json, events[..k])
  }

  /** The verdict on the events that were looked at, when it was `v` before. */
  ghost predicate Concludes(json: JsonParser, v: Verdict, events: seq<seq<byte>>, w: Verdict) {
    && w.events == v.events + events
    && (w.firstContent <==> v.firstContent || SomeContent(json, events))
    && (v.usage != Unseen ==> w.usage == v.usage)
    && (v.usage == Unseen ==>
          && (w.usage == Unseen <==> NoUsage(json, events))
          && forall k, payload :: FirstUsage(json, events, k, payload) ==>
            forall tokens :: w.usage == Observed(tokens) <==> Says(payload["usage"], tokens))
  }

  lemma PrefixBoundary(s: seq<byte>, t: seq<byte>, p: nat)
    ensures Boundary(s, p) > 0 ==> Boundary(s + t, p) == Boundary(s, p)
  {
    LineEndStable(s, t, p);
    LineEndStable(s, t, p + LineEnd(s, p));
  }

  /** Before the first boundary of `s` there is no separator, up to any end. */
  lemma NoneBefore(s: seq<byte>, p: nat, q: nat)
    requires p <= q <= |s| && forall i :: 0 <= i < p ==> Boundary(s, i) == 0
    ensures forall i :: 0 <= i < p ==> !SeparatorAt(s[..q], i)
  {
    hide Boundary, SeparatorAt;
    assert s[..q] + s[q..] == s;
    forall i | 0 <= i < p ensures !SeparatorAt(s[..q], i) {
      PrefixBoundary(s[..q], s[q..], i);
      BoundaryExact(s[..q], i);
    }
  }

  lemma Slices(s: seq<byte>, p: nat, q: nat)
    requires p <= q <= |s|
    ensures s[..p] + s[p..q] == s[..q] && s == s[..p] + s[p..q] + s[q..] && |s[..p]| == p && |s[p..q]| == q - p
  {
  }

  /** The first boundary ends an event, if it lies within the first `max` bytes. */
  lemma FirstEvent(s: seq<byte>, max: nat)
    ensures var p := FirstBoundary(s, 0); var q := p + Boundary(s, p);
      p < |s| && q <= max ==> Delimited(s[..p], s[p..q], max) && s == s[..p] + s[p..q] + s[q..]
  {
    hide Boundary, SeparatorAt, Separator;
    var p := FirstBoundary(s, 0);
    if p < |s| {
      var q := p + Boundary(s, p);
      BoundaryExact(s, p);
      Slices(s, p, q);
      NoneBefore(s, p, q);
    }
  }

  /** Where the parse stops there is no further event. */
  lemma NoFurtherEvent(s: seq<byte>, max: nat)
    requires var p := FirstBoundary(s, 0); p == |s| || p + Boundary(s, p) > max
    ensures |s| > max ==> Overflows(s, max)
    ensures |s| <= max ==> forall p :: 0 <= p <= |s| ==> !SeparatorAt(s, p)
  {
    hide Boundary, SeparatorAt;
    if |s| > max {
      var a := s[..max];
      assert a + s[max..] == s;
      BoundaryStable(a, s[max..]);
      NoSeparator(a);
    } else {
      NoSeparator(s);
    }
  }

  lemma NoSeparator(s: seq<byte>)
    requires FirstBoundary(s, 0) == |s|
    ensures forall p :: 0 <= p <= |s| ==> !SeparatorAt(s, p)
  {
    hide SeparatorAt;
    forall p | 0 <= p <= |s| ensures !SeparatorAt(s, p) {
      BoundaryExact(s, p);
    }
  }

  /** `s` consists of the events, each ended by the first separator that follows, and of a
      rest; and `g` is what is left of it. The observer is disabled exactly by an event with data
      that is neither `[DONE]` nor an object, which is then the last one looked at, or by a rest
      that grows too long. Otherwise it holds the rest, which is not an event yet. */
  ghost predicate Explains(json: JsonParser, max: nat, s: seq<byte>, g: Progress,
                           events: seq<seq<byte>>, seps: seq<seq<byte>>, rest: seq<byte>)
  {
    && |events| == |seps| && s == Weave(events, seps) + rest
    && (forall k :: 0 <= k < |events| ==> Delimited(events[k], seps[k], max))
    && (forall k :: 0 <= k < |events| - 1 ==> !Broken(json, events[k]))
    && (g.verdict.disabled <==> LastBroken(json, events) || Overflows(rest, max))
    && (g.verdict.disabled ==> g.buffer == [])
    && (!g.verdict.disabled ==>
          g.buffer == rest && |rest| <= max && forall p :: 0 <= p <= |rest| ==> !SeparatorAt(rest, p))
  }

  /** The whole stream, whatever the parser of payloads: first content was seen exactly if the
      payload of some event has a choice with a content of positive length, and the first
      payload with a usage field decides the usage. */
  lemma {:induction false} WholeStream(json: JsonParser, max: nat, s: seq<byte>, v: Verdict)
      returns (events: seq<seq<byte>>, seps: seq<seq<byte>>, rest: seq<byte>)
    requires !v.disabled
    ensures Explains(json, max, s, Parse(json, max, s, v), events, seps, rest)
    ensures Concludes(json, v, events, Parse(json, max, s, v).verdict)
    decreases |s|
  {
    hide ObserveEvent, Boundary, FirstBoundary, Delimited, Concludes, Broken, Explains;
    var p := FirstBoundary(s, 0);
    var q := p + Boundary(s, p);
    if p < |s| && q <= max {
      var w := ObserveEvent(json, v, s[..p]);
      FirstEvent(s, max);
      EventExact(json, v, s[..p]);
      OneEvent(json, v, s[..p]);
      if w.disabled {
        events, seps, rest := [s[..p]], [s[p..q]], s[q..];
        ExplainsBroken(json, max, s[..p], s[p..q], s[q..], Progress([], w));
      } else {
        var es, ss, r := WholeStream(json, max, s[q..], w);
        events, seps, rest := [s[..p]] + es, [s[p..q]] + ss, r;
        var g := Parse(json, max, s[q..], w);
        ExplainsLater(json, max, s[..p], s[p..q], s[q..], g, es, ss, r);
        MoreEvents(json, v, s[..p], w, es, g.verdict);
      }
    } else {
      NoFurtherEvent(s, max);
      events, seps, rest := [], [], s;
      NoEvents(json, v, Parse(json, max, s, v).verdict);
      ExplainsNothing(json, max, s, Parse(json, max, s, v));
    }
  }

  lemma ExplainsNothing(json: JsonParser, max: nat, s: seq<byte>, g: Progress)
    requires g.verdict.disabled <==> Overflows(s, max)
    requires g.buffer == if g.verdict.disabled then [] else s
    requires !g.verdict.disabled ==> |s| <= max && forall p :: 0 <= p <= |s| ==> !SeparatorAt(s, p)
    ensures Explains(json, max, s, g, [], [], s)
  {
    hide SeparatorAt;
    assert [] + s == s;
  }

  lemma ExplainsBroken(json: JsonParser, max: nat, event: seq<byte>, sep: seq<byte>, rest: seq<byte>, g: Progress)
    requires Delimited(event, sep, max) && Broken(json, event) && g.verdict.disabled && g.buffer == []
    ensures Explains(json, max, event + sep + rest, g, [event], [sep], rest)
  {
    hide Delimited, Broken, Overflows;
    assert [event][1..] == [] && [sep][1..] == [];
    assert Weave([event], [sep]) == event + sep + Weave([], []) == event + sep;
  }

  lemma ExplainsLater(json: JsonParser, max: nat, event: seq<byte>, sep: seq<byte>, s: seq<byte>, g: Progress,
                      es: seq<seq<byte>>, ss: seq<seq<byte>>, r: seq<byte>)
    requires Delimited(event, sep, max) && !Broken(json, event) && Explains(json, max, s, g, es, ss, r)
    ensures Explains(json, max, event + sep + s, g, [event] + es, [sep] + ss, r)
  {
    hide Delimited, Broken, Overflows, SeparatorAt;
    var events, seps := [event] + es, [sep] + ss;
    assert events[1..] == es && seps[1..] == ss;
    assert Weave(events, seps) == event + sep + Weave(es, ss);
    assert event + sep + s == Weave(events, seps) + r;
    assert events[0] == event && forall k :: 1 <= k < |events| ==> events[k] == es[k - 1] && seps[k] == ss[k - 1];
    assert es != [] ==> events[|events| - 1] == es[|es| - 1];
  }

  lemma NoEvents(json: JsonParser, v: Verdict, w: Verdict)
    requires w == v || w == v.(disabled := true)
    ensures Concludes(json, v, [], w)
  {
    hide Carries, Content;
    assert v.events + [] == v.events;
  }

  lemma CarriesOne(json: JsonParser, event: seq<byte>, p: map<string, Data>, q: map<string, Data>)
    requires Carries(json, event, p) && Carries(json, event, q)
    ensures p == q
  {
    hide HasData, IsDone, SplitLines, DataLines, JoinLines;
    var a :| HasData(event, a) && !IsDone(a) && json(a) == Parsed(Dict(p));
    var b :| HasData(event, b) && !IsDone(b) && json(b) == Parsed(Dict(q));
    DataExact(event, a);
    DataExact(event, b);
  }

  lemma OneEvent(json: JsonParser, v: Verdict, event: seq<byte>)
    requires !v.disabled
    ensures Concludes(json, v, [event], ObserveEvent(json, v, event))
  {
    hide ObserveEvent, Carries, Content, UsageOf, Says;
    var w := ObserveEvent(json, v, event);
    EventExact(json, v, event);
    forall p ensures UsageOf(p) == Unseen <==> "usage" !in p {
      UsageExact(p, 0);
    }
    if exists p :: Carries(json, event, p) {
      var p :| Carries(json, event, p);
      forall q | Carries(json, event, q) ensures q == p {
        CarriesOne(json, event, p, q);
      }
      forall tokens | "usage" in p ensures UsageOf(p) == Observed(tokens) <==> Says(p["usage"], tokens) {
        UsageExact(p, tokens);
      }
      assert Carries(json, [event][0], p);
    }
  }

  /** One event and then more. */
  lemma MoreEvents(json: JsonParser, v: Verdict, event: seq<byte>, w: Verdict, es: seq<seq<byte>>, x: Verdict)
    requires Concludes(json, v, [event], w) && Concludes(json, w, es, x)
    ensures Concludes(json, v, [event] + es, x)
  {
    hide Carries, Content, Says;
    var all := [event] + es;
    assert v.events + [event] + es == v.events + all;
    assert all[0] == event && forall k :: 1 <= k < |all| ==> all[k] == es[k - 1];
    if SomeContent(json, [event]) {
      var k, p :| 0 <= k < 1 && Carries(json, [event][k], p) && Content(p);
      assert Carries(json, all[0], p);
    }
    if SomeContent(json, es) {
      var k, p :| 0 <= k < |es| && Carries(json, es[k], p) && Content(p);
      assert Carries(json, all[k + 1], p);
    }
    if SomeContent(json, all) {
      var k, p :| 0 <= k < |all| && Carries(json, all[k], p) && Content(p);
      if k == 0 { assert Carries(json, [event][0], p); }
    }
    UsageOfMore(json, event, es);
    forall k: nat, p: map<string, Data> | FirstUsage(json, all, k, p) && v.usage == Unseen
      ensures forall tokens :: x.usage == Observed(tokens) <==> Says(p["usage"], tokens)
    {
      if k == 0 {
        assert [event][..0] == [];
        assert FirstUsage(json, [event], 0, p);
        assert w.usage != Unseen;
      } else {
        assert all[..k] == [event] + es[..k - 1];
        UsageOfMore(json, event, es[..k - 1]);
        assert FirstUsage(json, es, k - 1, p);
      }
    }
  }

  lemma UsageOfMore(json: JsonParser, event: seq<byte>, es: seq<seq<byte>>)
    ensures NoUsage(json, [event] + es) <==> NoUsage(json, [event]) && NoUsage(json, es)
  {
    hide Carries;
    var all := [event] + es;
    assert all[0] == event && forall k :: 1 <= k < |all| ==> all[k] == es[k - 1];
    if NoUsage(json, all) {
      forall k, p | 0 <= k < |es| && Carries(json, es[k], p) ensures "usage" !in p {
        assert Carries(json, all[k + 1], p);
      }
      forall k, p | 0 <= k < 1 && Carries(json, [event][k], p) ensures "usage" !in p {
        assert Carries(json, all[0], p);
      }
    }
    if NoUsage(json, [event]) && NoUsage(json, es) {
      forall k, p | 0 <= k < |all| && Carries(json, all[k], p) ensures "usage" !in p {
        if k == 0 { assert Carries(json, [event][0], p); }
      }
    }
  }

  /** However the stream is cut, the reports follow from its events: a missing first content
      exactly if no event shows content, the tokens of the first usage, an invalid usage also for
      a stream that disabled the observer before it, and a missing one otherwise. */
  lemma StreamReports(json: JsonParser, max: nat, chunks: seq<seq<byte>>)
      returns (events: seq<seq<byte>>, seps: seq<seq<byte>>, rest: seq<byte>)
    ensures var g := FeedAll(json, max, Progress([], START), chunks); var v := g.verdict;
      && Explains(json, max, Concat(chunks), g, events, seps, rest) && Concludes(json, START, events, v)
      && (MissingFirstContent in FinalMetrics(v) <==> !SomeContent(json, events))
      && (forall n :: TokensObserved(n) in FinalMetrics(v) <==> v.usage == Observed(n))
      && (TokensInvalid in FinalMetrics(v) <==> v.usage == Usage.Invalid || (v.usage == Unseen && v.disabled))
      && (TokensMissing in FinalMetrics(v) <==> v.usage == Unseen && !v.disabled)
  {
    hide Explains, Parse, FeedAll, SomeContent;
    SameStreamSameVerdict(json, max, chunks, chunks);
    events, seps, rest := WholeStream(json, max, Concat(chunks), START);
  }

  // ---------------------------------------------------------------- streams of one event

  lemma FirstOfUnbroken(event: seq<byte>)
    requires Unbroken(event)
    ensures FirstBoundary(event + [LF, LF], 0) == |event| && Boundary(event + [LF, LF], |event|) == 2
  {
    var s := event + [LF, LF];
    assert s[|event|] == LF && s[|event| + 1] == LF;
    assert Boundary(s, |event|) == 2;
    assert forall i :: 0 <= i < |event| ==> s[i] == event[i];
    assert forall i :: 0 <= i < |event| ==> LineEnd(s, i) == 0;
    assert forall i :: 0 <= i < |event| ==> Boundary(s, i) == 0;
  }

  lemma OneEventStream(json: JsonParser, max: nat, event: seq<byte>)
    requires Unbroken(event) && |event| + 2 <= max
    ensures Parse(json, max, event + [LF, LF], START) == Progress([], ObserveEvent(json, START, event))
  {
    hide ObserveEvent, Unbroken, Boundary;
    var s := event + [LF, LF];
    FirstOfUnbroken(event);
    assert s[..|event|] == event && s[|event| + 2..] == [];
  }

  lemma DataOfText(text: seq<byte>)
    requires Unbroken(text)
    ensures HasData([100, 97, 116, 97, 58, 32] + text, text)
  {
    var event := [100, 97, 116, 97, 58, 32] + text;
    var lines, ends, values := [event], [[]], [text];
    assert DataField(event, text);
    assert lines[1..] == [] && ends[1..] == [] && values[1..] == [] && LineFeeds(1)[1..] == [];
    assert Unsplit(lines, ends) == event + [] + Unsplit([], []);
    assert Unsplit(values, LineFeeds(1)) == text + [LF] + Unsplit([], []);
    assert IsDataField(lines[0]) && DataValues([], []);
    assert CutsInto(event, lines, ends, values);
  }

  /** A stream of one event with one line of data that is an object. */
  lemma OneObject(json: JsonParser, max: nat, text: seq<byte>, payload: map<string, Data>)
    requires Unbroken(text) && !IsDone(text) && json(text) == Parsed(Dict(payload)) && |text| + 8 <= max
    ensures var g := Parse(json, max, [100, 97, 116, 97, 58, 32] + text + [LF, LF], START);
      && !g.verdict.disabled && g.buffer == []
      && (g.verdict.firstContent <==> Content(payload)) && g.verdict.usage == UsageOf(payload)
  {
    hide ObserveEvent, Content, UsageOf, IsDone, HasData, Parse;
    var event := [100, 97, 116, 97, 58, 32] + text;
    OneEventStream(json, max, event);
    DataOfText(text);
    EventExact(json, START, event);
    OneData(json, event, text, payload);
  }

  lemma OneData(json: JsonParser, event: seq<byte>, text: seq<byte>, payload: map<string, Data>)
    requires HasData(event, text) && !IsDone(text) && json(text) == Parsed(Dict(payload))
    ensures !Broken(json, event) && forall p :: Carries(json, event, p) <==> p == payload
  {
    hide HasData, IsDone, SplitLines, DataLines, JoinLines;
    forall d ensures HasData(event, d) <==> d == text {
      DataExact(event, text);
      DataExact(event, d);
    }
  }

  /** The payload of one choice with this content delta. */
  function Delta(content: string): map<string, Data> {
    map["choices" := List([Dict(map["delta" := Dict(map["content" := Str(content)])])])]
  }

  /** The bytes `{"choices":[{"delta":{"content":"Hi"}}]}`. */
  const HELLO: seq<byte> := [
    123, 34, 99, 104, 111, 105, 99, 101, 115, 34, 58, 91, 123, 34, 100, 101, 108, 116, 97, 34,
    58, 123, 34, 99, 111, 110, 116, 101, 110, 116, 34, 58, 34, 72, 105, 34, 125, 125, 93, 125]

  /** The bytes `{"choices":[{"delta":{"content":""}}]}`. */
  const OPENING: seq<byte> := [
    123, 34, 99, 104, 111, 105, 99, 101, 115, 34, 58, 91, 123, 34, 100, 101, 108, 116, 97, 34,
    58, 123, 34, 99, 111, 110, 116, 101, 110, 116, 34, 58, 34, 34, 125, 125, 93, 125]

  lemma DeltaContent(content: string)
    ensures Content(Delta(content)) <==> content != ""
  {
    var items := Delta(content)["choices"].items;
    if content != "" {
      assert ChoiceHas(items[0], map["content" := Str(content)], content);
    }
  }

  lemma NotDone(text: seq<byte>)
    requires text != [] && text[0] == 123
    ensures !IsDone(text)
  {
  }

  /** The event with the content "Hi" is first content. */
  lemma ContentIsReported(json: JsonParser, max: nat)
    requires json(HELLO) == Parsed(Dict(Delta("Hi"))) && max >= 64
    ensures Parse(json, max, [100, 97, 116, 97, 58, 32] + HELLO + [LF, LF], START).verdict.firstContent
  {
    NotDone(HELLO);
    DeltaContent("Hi");
    OneObject(json, max, HELLO, Delta("Hi"));
  }

  /** The opening event with an empty content is not, and a stream of it alone ends without. */
  lemma EmptyContentIsMissing(json: JsonParser, max: nat)
    requires json(OPENING) == Parsed(Dict(Delta(""))) && max >= 64
    ensures var v := Parse(json, max, [100, 97, 116, 97, 58, 32] + OPENING + [LF, LF], START).verdict;
      !v.firstContent && MissingFirstContent in FinalMetrics(v)
  {
    NotDone(OPENING);
    DeltaContent("");
    OneObject(json, max, OPENING, Delta(""));
  }

  /** The end marker is no payload, whatever the parser makes of it: a stream of it alone ends
      without first content and without usage, but does not disable the observer. */
  lemma DoneIsNoPayload(json: JsonParser, max: nat)
    requires max >= 14
    ensures var v := Parse(json, max, [100, 97, 116, 97, 58, 32, 91, 68, 79, 78, 69, 93, 10, 10], START).verdict;
      !v.disabled && FinalMetrics(v) == [MissingFirstContent, TokensMissing]
  {
    hide ObserveEvent, IsDone, HasData, Parse;
    var text := [91, 68, 79, 78, 69, 93];
    var event := [100, 97, 116, 97, 58, 32] + text;
    assert event + [LF, LF] == [100, 97, 116, 97, 58, 32, 91, 68, 79, 78, 69, 93, 10, 10];
    OneEventStream(json, max, event);
    DataOfText(text);
    OnlyDone(json, event, text);
    EventExact(json, START, event);
  }

  lemma OnlyDone(json: JsonParser, event: seq<byte>, text: seq<byte>)
    requires HasData(event, text) && text == [91, 68, 79, 78, 69, 93]
    ensures !Broken(json, event) && forall p :: !Carries(json, event, p)
  {
    hide HasData, SplitLines, DataLines, JoinLines;
    assert IsDone(text) by {
      assert AllBlank([]) && text == [] + [91, 68, 79, 78, 69, 93] + [];
    }
    forall d ensures HasData(event, d) <==> d == text {
      DataExact(event, text);
      DataExact(event, d);
    }
  }
}
