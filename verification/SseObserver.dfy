/** The observer itself: `SSEMetricsObserver` of `gateway/observability/sse.py`, working
    on a bounded buffer that it extends and consumes in place. */
module SseObserver {
  import opened Json
  import opened SseModel

  /** What the observer reports to the metrics. */
  datatype Metric =
    | FirstContent
    | MissingFirstContent
    | TokensObserved(tokens: int)
    | TokensInvalid
    | TokensMissing

  /** The reports at the end of a stream, by verdict alone. */
  function FinalMetrics(v: Verdict): seq<Metric> {
    (if v.firstContent then [] else [MissingFirstContent]) +
    [if v.usage.Observed? then TokensObserved(v.usage.tokens)
     else if v.usage.Invalid? || v.disabled then TokensInvalid
     else TokensMissing]
  }

  class SSEMetricsObserver {
    const json: JsonParser
    const maxEventBytes: nat
    var buffer: seq<byte>
    var firstContentSeen: bool
    var usage: Usage
    var disabled: bool
    var finalized: bool
    var metrics: seq<Metric>
    ghost var events: seq<seq<byte>>

    ghost function Conclusion(): Verdict
      reads this
    {
      Verdict(firstContentSeen, usage, disabled, events)
    }

    ghost function Value(): Progress
      reads this
    {
      Progress(buffer, Conclusion())
    }

    ghost predicate Valid()
      reads this
    {
      && maxEventBytes > 0
      && Consistent(maxEventBytes, Value())
      && (finalized ==> buffer == [])
      && metrics == (if firstContentSeen then [FirstContent] else [])
                    + (if finalized then FinalMetrics(Conclusion()) else [])
    }

    constructor (json: JsonParser, maxEventBytes: nat)
      requires maxEventBytes > 0
      ensures Valid() && this.json == json && this.maxEventBytes == maxEventBytes
      ensures Value() == Progress([], START) && !finalized
    {
      this.json, this.maxEventBytes := json, maxEventBytes;
      buffer, firstContentSeen, usage, disabled, finalized, metrics := [], false, Unseen, false, false, [];
      events := [];
    }

    method Disable()
      modifies this`disabled, this`buffer
      ensures disabled && buffer == (if old(disabled) then old(buffer) else [])
    {
      if !disabled {
        disabled := true;
        buffer := [];
      }
    }

    /** `_observe_first_content`: report the first content once. */
    method ObserveFirstContent(payload: map<string, Data>)
      requires !finalized && metrics == (if firstContentSeen then [FirstContent] else [])
      modifies this`firstContentSeen, this`metrics
      ensures firstContentSeen == (old(firstContentSeen) || ShowsContent(payload))
      ensures metrics == (if firstContentSeen then [FirstContent] else [])
    {
      if firstContentSeen || "choices" !in payload || !payload["choices"].List? {
        return;
      }
      var choices := payload["choices"].items;
      for i := 0 to |choices|
        invariant !firstContentSeen && metrics == []
        invariant forall k :: 0 <= k < i ==> !HasContent(choices[k])
      {
        if HasContent(choices[i]) {
          metrics := metrics + [FirstContent];
          firstContentSeen := true;
          return;
        }
      }
    }

    /** `_observe_usage`: the first payload with a usage field decides. */
    method ObserveUsage(payload: map<string, Data>)
      modifies this`usage
      ensures usage == if old(usage).Unseen? then UsageOf(payload) else old(usage)
    {
      if !usage.Unseen? || "usage" !in payload {
        return;
      }
      var field := payload["usage"];
      if !field.Dict? || "completion_tokens" !in field.entries {
        usage := Invalid;
        return;
      }
      var tokens := field.entries["completion_tokens"];
      if !tokens.Int? || tokens.value < 0 {
        usage := Invalid;
        return;
      }
      usage := Observed(tokens.value);
    }

    method CollectData(lines: seq<seq<byte>>) returns (dataLines: seq<seq<byte>>)
      ensures dataLines == DataLines(lines)
    {
      hide DataLine;
      dataLines := [];
      for i := 0 to |lines|
        invariant dataLines + DataLines(lines[i..]) == DataLines(lines)
      {
        assert lines[i..][1..] == lines[i + 1..];
        if lines[i] != [] && lines[i][0] == COLON {
          continue;
        }
        dataLines := dataLines + DataLine(lines[i]);
      }
    }

    method ObserveOne(event: seq<byte>)
      requires !finalized && !disabled && metrics == (if firstContentSeen then [FirstContent] else [])
      modifies this
      ensures Conclusion() == ObserveEvent(json, old(Conclusion()), event)
      ensures buffer == (if disabled then [] else old(buffer))
      ensures finalized == old(finalized) && metrics == (if firstContentSeen then [FirstContent] else [])
    {
      hide SplitLines, DataLines, JoinLines, StripLeft, StripRight, ShowsContent, UsageOf;
      events := events + [event];
      var dataLines := CollectData(SplitLines(event));
      if dataLines == [] {
        return;
      }
      var data := JoinLines(dataLines);
      if StripRight(StripLeft(data)) == DONE {
        return;
      }
      match json(data)
      case Malformed => Disable();
      case Parsed(d) =>
        if !d.Dict? {
          Disable();
          return;
        }
        ObserveFirstContent(d.entries);
        ObserveUsage(d.entries);
    }

    /** `_drain_events`: take every complete event out of the buffer. */
    method DrainEvents()
      requires !finalized && !disabled && |buffer| <= maxEventBytes
      requires metrics == (if firstContentSeen then [FirstContent] else [])
      modifies this
      ensures Value() == Parse(json, maxEventBytes, old(buffer), old(Conclusion()))
      ensures finalized == old(finalized) && metrics == (if firstContentSeen then [FirstContent] else [])
    {
      hide ObserveEvent, Boundary, LineEnd;
      while FirstBoundary(buffer, 0) < |buffer|
        invariant !finalized && !disabled && |buffer| <= maxEventBytes
        invariant metrics == (if firstContentSeen then [FirstContent] else [])
        invariant Parse(json, maxEventBytes, buffer, Conclusion())
               == Parse(json, maxEventBytes, old(buffer), old(Conclusion()))
        decreases |buffer|
      {
        var start := FirstBoundary(buffer, 0);
        var event := buffer[..start];
        buffer := buffer[start + Boundary(buffer, start)..];
        if |event| > maxEventBytes {
          assert false;  // an event taken from the bounded buffer is never oversized
        }
        ObserveOne(event);
        if disabled {
          return;
        }
      }
    }

    /** `observe_bytes`: pass the chunk through the bounded buffer, piece by piece. */
    method ObserveBytes(chunk: seq<byte>)
      requires Valid()
      modifies this
      ensures Valid() && finalized == old(finalized)
      ensures Value() == if old(finalized) then old(Value()) else Feed(json, maxEventBytes, old(Value()), chunk)
    {
      hide Parse, FirstBoundary, Consistent, FinalMetrics;
      FeedNothing(json, maxEventBytes, Value());
      if disabled || finalized || chunk == [] {
        return;
      }
      ghost var g := Value();
      FeedConsistent(json, maxEventBytes, g, chunk);
      var offset := 0;
      while offset < |chunk|
        invariant offset <= |chunk| && !finalized && !disabled
        invariant Consistent(maxEventBytes, Value())
        invariant metrics == (if firstContentSeen then [FirstContent] else [])
        invariant Feed(json, maxEventBytes, Value(), chunk[offset..]) == Feed(json, maxEventBytes, g, chunk)
        decreases |chunk| - offset
      {
        var available := maxEventBytes - |buffer|;
        if available <= 0 {
          FullBuffer(json, maxEventBytes, Value(), chunk[offset..]);
          Disable();
          return;
        }
        var end := if |chunk| < offset + available then |chunk| else offset + available;
        ghost var before := Value();
        FeedTwice(json, maxEventBytes, before, chunk[offset..end], chunk[end..]);
        FeedConsistent(json, maxEventBytes, before, chunk[offset..end]);
        assert chunk[offset..end] + chunk[end..] == chunk[offset..];
        buffer := buffer + chunk[offset..end];
        offset := end;
        DrainEvents();
        if disabled {
          return;
        }
      }
      FeedNothing(json, maxEventBytes, Value());
      assert chunk[|chunk|..] == [];
    }

    /** `finalize`: the closing reports, exactly once. */
    method Finalize()
      requires Valid()
      modifies this
      ensures Valid() && finalized && Conclusion() == old(Conclusion()) && buffer == []
      ensures metrics == old(metrics) + if old(finalized) then [] else FinalMetrics(Conclusion())
    {
      if finalized {
        return;
      }
      finalized := true;
      if !firstContentSeen {
        metrics := metrics + [MissingFirstContent];
      }
      if usage.Observed? {
        metrics := metrics + [TokensObserved(usage.tokens)];
      } else if usage.Invalid? || disabled {
        metrics := metrics + [TokensInvalid];
      } else {
        metrics := metrics + [TokensMissing];
      }
      buffer := [];
    }
  }

  /** A full buffer without a complete event cannot take another byte. */
  lemma FullBuffer(json: JsonParser, max: nat, g: Progress, more: seq<byte>)
    requires Consistent(max, g) && !g.verdict.disabled && |g.buffer| == max && more != []
    ensures Feed(json, max, g, more) == Progress([], g.verdict.(disabled := true))
  {
    hide ObserveEvent, Boundary;
    BoundaryStable(g.buffer, more);
  }
}
