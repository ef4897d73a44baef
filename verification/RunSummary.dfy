/** The summary of a measured run: `summarize` of `benchmark/internal/runner/runner.go`. */
module RunSummary {
  import opened Collections
  import opened Prometheus

  /** The parts of a client result that the summary reads. */
  datatype Result = Result(success: bool, category: string, endToEnd: real, ttft: Option<real>, tokens: Option<int>)

  datatype Summary = Summary(
    attempted: nat,
    successful: int,
    failed: int,
    errorRate: real,
    errorsByCategory: map<string, int>,
    endToEnd: seq<real>,
    ttft: seq<real>,
    requestThroughput: real,
    outputThroughput: Option<real>,
    tokenCoverage: int)

  function Succeeded(): Result -> int {
    (r: Result) => if r.success then 1 else 0
  }

  function FailedIn(category: string): Result -> int {
    (r: Result) => if !r.success && r.category == category then 1 else 0
  }

  function Covered(): Result -> int {
    (r: Result) => if r.success && r.tokens.Some? then 1 else 0
  }

  function Tokens(): Result -> int {
    (r: Result) => if r.success && r.tokens.Some? then r.tokens.value else 0
  }

  /** What every successful result contributes, in order. */
  function Latencies(results: seq<Result>): seq<real> {
    if results == [] then []
    else var last := results[|results| - 1];
      Latencies(results[..|results| - 1]) + if last.success then [last.endToEnd] else []
  }

  function FirstTokens(results: seq<Result>): seq<real> {
    if results == [] then []
    else var last := results[|results| - 1];
      FirstTokens(results[..|results| - 1]) + if last.success && last.ttft.Some? then [last.ttft.value] else []
  }

  /** The failures by category: exactly the categories that occur, each with its count. */
  ghost predicate Categorized(results: seq<Result>, errors: map<string, int>) {
    forall c: string :: (c in errors <==> Total(results, FailedIn(c)) > 0)
                        && (c in errors ==> errors[c] == Total(results, FailedIn(c)))
  }

  ghost predicate AllCovered(results: seq<Result>) {
    forall i :: 0 <= i < |results| && results[i].success ==> results[i].tokens.Some?
  }

  function Successes(results: seq<Result>): set<int> {
    set i | 0 <= i < |results| && results[i].success
  }

  function Failures(results: seq<Result>, category: string): set<int> {
    set i | 0 <= i < |results| && !results[i].success && results[i].category == category
  }

  function WithTokens(results: seq<Result>): set<int> {
    set i | 0 <= i < |results| && results[i].success && results[i].tokens.Some?
  }

  /** The successes of a summary are the results that succeeded. */
  lemma {:induction false} SuccessesCounted(results: seq<Result>)
    ensures Total(results, Succeeded()) == |Successes(results)|
  {
    if results != [] {
      var n := |results| - 1;
      var front, r := results[..n], results[n];
      SuccessesCounted(front);
      assert Successes(results) == Successes(front) + if r.success then {n} else {};
    }
  }

  /** The failures in a category are the results that failed in it. */
  lemma {:induction false} FailuresCounted(results: seq<Result>, category: string)
    ensures Total(results, FailedIn(category)) == |Failures(results, category)|
  {
    if results != [] {
      var n := |results| - 1;
      var front, r := results[..n], results[n];
      FailuresCounted(front, category);
      var failed := !r.success && r.category == category;
      assert Failures(results, category) == Failures(front, category) + if failed then {n} else {};
    }
  }

  /** The coverage is the results that succeeded with their tokens reported. */
  lemma {:induction false} CoverageCounted(results: seq<Result>)
    ensures Total(results, Covered()) == |WithTokens(results)|
  {
    if results != [] {
      var n := |results| - 1;
      var front, r := results[..n], results[n];
      CoverageCounted(front);
      assert WithTokens(results) == WithTokens(front) + if r.success && r.tokens.Some? then {n} else {};
    }
  }

  /** The sum of tokens is over those results. */
  lemma TokensAddUp(results: seq<Result>, last: Result)
    ensures Total(results + [last], Tokens()) == Total(results, Tokens()) +
      match last { case Result(true, _, _, _, Some(n)) => n case _ => 0 }
  {
    TotalAppend(results, last, Tokens());
  }

  lemma OneMorePosition(at: seq<nat>, n: nat)
    requires Increasing(at) && forall j :: 0 <= j < |at| ==> at[j] < n
    ensures Increasing(at + [n]) && forall i: nat :: i in at + [n] <==> i in at || i == n
  {
  }

  function EndToEndOf(): Result -> Option<real> {
    (r: Result) => if r.success then Some(r.endToEnd) else None
  }

  function FirstTokenOf(): Result -> Option<real> {
    (r: Result) => if r.success then r.ttft else None
  }

  /** `times` are the values of the results that have one, at the positions `at`, in order. */
  ghost predicate TimesAt(results: seq<Result>, f: Result -> Option<real>, at: seq<nat>, times: seq<real>) {
    && |at| == |times| && Increasing(at)
    && (forall i: nat :: i in at <==> i < |results| && f(results[i]).Some?)
    && (forall j :: 0 <= j < |at| ==> at[j] < |results| && f(results[at[j]]) == Some(times[j]))
  }

  lemma TimesStep(front: seq<Result>, r: Result, f: Result -> Option<real>, at: seq<nat>, times: seq<real>)
    requires TimesAt(front, f, at, times)
    ensures if f(r).Some? then TimesAt(front + [r], f, at + [|front|], times + [f(r).value])
            else TimesAt(front + [r], f, at, times)
  {
    OneMorePosition(at, |front|);
    hide Increasing;
    var results := front + [r];
    assert results[|front|] == r && forall i :: 0 <= i < |front| ==> results[i] == front[i];
  }

  /** The latencies are those of the successful results, in their order. */
  lemma {:induction false} LatenciesAre(results: seq<Result>) returns (at: seq<nat>)
    ensures TimesAt(results, EndToEndOf(), at, Latencies(results))
  {
    hide TimesAt;
    if results == [] {
      at := [];
      NoTimes(EndToEndOf());
    } else {
      var n := |results| - 1;
      at := LatenciesAre(results[..n]);
      assert results[..n] + [results[n]] == results;
      TimesStep(results[..n], results[n], EndToEndOf(), at, Latencies(results[..n]));
      if results[n].success {
        at := at + [n];
      } else {
        assert Latencies(results) == Latencies(results[..n]);
      }
    }
  }

  /** And the first-token times those of the successful results that have one. */
  lemma {:induction false} FirstTokensAre(results: seq<Result>) returns (at: seq<nat>)
    ensures TimesAt(results, FirstTokenOf(), at, FirstTokens(results))
  {
    hide TimesAt;
    if results == [] {
      at := [];
      NoTimes(FirstTokenOf());
    } else {
      var n := |results| - 1;
      at := FirstTokensAre(results[..n]);
      assert results[..n] + [results[n]] == results;
      TimesStep(results[..n], results[n], FirstTokenOf(), at, FirstTokens(results[..n]));
      if results[n].success && results[n].ttft.Some? {
        at := at + [n];
      } else {
        assert FirstTokens(results) == FirstTokens(results[..n]);
      }
    }
  }

  lemma NoTimes(f: Result -> Option<real>)
    ensures TimesAt([], f, [], [])
  {
  }

  method Summarize(results: seq<Result>, seconds: real) returns (s: Summary)
    ensures s.attempted == |results| && s.successful == Total(results, Succeeded())
    ensures s.failed == |results| - s.successful
    ensures if results == [] then s.errorRate == 0.0 else s.errorRate * |results| as real == s.failed as real
    ensures Categorized(results, s.errorsByCategory)
    ensures s.endToEnd == Latencies(results) && s.ttft == FirstTokens(results)
    ensures if seconds > 0.0 then s.requestThroughput * seconds == s.successful as real else s.requestThroughput == 0.0
    ensures s.tokenCoverage == Total(results, Covered())
    ensures s.outputThroughput.Some? <==> seconds > 0.0 && s.successful > 0 && AllCovered(results)
    ensures s.outputThroughput.Some? ==> s.outputThroughput.value * seconds == Total(results, Tokens()) as real
  {
    hide Categorized, AllCovered, Total;
    var errors: map<string, int> := map[];
    var successful, failed, coverage, tokens := 0, 0, 0, 0;
    var endToEnd: seq<real>, ttft: seq<real> := [], [];
    Beginning();
    for i := 0 to |results|
      invariant failed == i - successful && successful == Total(results[..i], Succeeded())
      invariant Categorized(results[..i], errors)
      invariant endToEnd == Latencies(results[..i]) && ttft == FirstTokens(results[..i])
      invariant coverage == Total(results[..i], Covered()) && tokens == Total(results[..i], Tokens())
    {
      var r := results[i];
      OneMoreResult(results, i, errors);
      if !r.success {
        failed := failed + 1;
        errors := errors[r.category := 1 + if r.category in errors then errors[r.category] else 0];
        continue;
      }
      successful := successful + 1;
      endToEnd := endToEnd + [r.endToEnd];
      if r.ttft.Some? {
        ttft := ttft + [r.ttft.value];
      }
      if r.tokens.Some? {
        coverage := coverage + 1;
        tokens := tokens + r.tokens.value;
      }
    }
    assert results[..|results|] == results;
    CoverageIsComplete(results);
    s := Summary(|results|, successful, failed, 0.0, errors, endToEnd, ttft, 0.0, None, coverage);
    if s.attempted > 0 {
      s := s.(errorRate := s.failed as real / s.attempted as real);
    }
    if seconds > 0.0 {
      s := s.(requestThroughput := s.successful as real / seconds);
      if s.successful > 0 && s.tokenCoverage == s.successful {
        s := s.(outputThroughput := Some(tokens as real / seconds));
      }
    }
  }

  lemma Beginning()
    ensures Categorized([], map[])
    ensures Total<Result>([], Succeeded()) == Total<Result>([], Covered()) == Total<Result>([], Tokens()) == 0
  {
  }

  lemma OneMoreFailure(front: seq<Result>, r: Result)
    ensures forall c: string ::
      && Total(front + [r], FailedIn(c)) == Total(front, FailedIn(c)) + FailedIn(c)(r)
      && Total(front, FailedIn(c)) >= 0
  {
    forall c: string ensures
      && Total(front + [r], FailedIn(c)) == Total(front, FailedIn(c)) + FailedIn(c)(r)
      && Total(front, FailedIn(c)) >= 0
    {
      TotalAppend(front, r, FailedIn(c));
      TotalNonNegative(front, FailedIn(c));
    }
  }

  /** What the next result adds to every part of the summary. */
  lemma OneMoreResult(results: seq<Result>, i: nat, errors: map<string, int>)
    requires i < |results| && Categorized(results[..i], errors)
    ensures results[..i + 1][..i] == results[..i] && results[..i + 1][i] == results[i]
    ensures Total(results[..i + 1], Succeeded()) == Total(results[..i], Succeeded()) + Succeeded()(results[i])
    ensures Total(results[..i + 1], Covered()) == Total(results[..i], Covered()) + Covered()(results[i])
    ensures Total(results[..i + 1], Tokens()) == Total(results[..i], Tokens()) + Tokens()(results[i])
    ensures var r := results[i];
      Categorized(results[..i + 1], if r.success then errors
                                    else errors[r.category := 1 + if r.category in errors then errors[r.category] else 0])
  {
    var front, r := results[..i], results[i];
    assert results[..i + 1] == front + [r];
    TotalAppend(front, r, Succeeded());
    TotalAppend(front, r, Covered());
    TotalAppend(front, r, Tokens());
    OneMoreFailure(front, r);
  }

  /** As many covered results as successful ones means that every successful one is covered. */
  lemma {:induction false} CoverageIsComplete(results: seq<Result>)
    ensures Total(results, Covered()) <= Total(results, Succeeded())
    ensures Total(results, Covered()) == Total(results, Succeeded()) <==> AllCovered(results)
  {
    if results != [] {
      var n := |results| - 1;
      CoverageIsComplete(results[..n]);
      if AllCovered(results[..n]) && (results[n].success ==> results[n].tokens.Some?) {
        assert forall i :: 0 <= i < n ==> results[i] == results[..n][i];
      }
      if AllCovered(results) {
        assert forall i :: 0 <= i < n ==> results[..n][i] == results[i];
      }
    }
  }

  function Count(errors: map<string, int>): string -> real {
    (c: string) => if c in errors then errors[c] as real else 0.0
  }

  /** Without its last failure, a summary by category has one failure less. */
  lemma WithoutLast(front: seq<Result>, last: Result, errors: map<string, int>) returns (before: map<string, int>)
    requires Categorized(front + [last], errors)
    ensures Categorized(front, before)
    ensures if last.success then before == errors
            else last.category in errors && before == if errors[last.category] == 1 then errors - {last.category}
                                                      else errors[last.category := errors[last.category] - 1]
  {
    hide Total;
    OneMoreFailure(front, last);
    before := errors;
    if !last.success {
      var c := last.category;
      before := if errors[c] == 1 then errors - {c} else errors[c := errors[c] - 1];
    }
  }

  lemma NoCategories(errors: map<string, int>)
    requires Categorized([], errors)
    ensures errors.Keys == {}
  {
    forall c ensures c !in errors {
      assert Total<Result>([], FailedIn(c)) == 0;
    }
  }

  /** The categories account for every failure. */
  lemma {:induction false} CategoriesAddUp(results: seq<Result>, errors: map<string, int>)
    requires Categorized(results, errors)
    ensures SumOver(errors.Keys, Count(errors)) == (|results| - Total(results, Succeeded())) as real
  {
    hide Categorized;
    if results == [] {
      NoCategories(errors);
    } else {
      var n := |results| - 1;
      var front, last := results[..n], results[n];
      assert results == front + [last];
      var before := WithoutLast(front, last, errors);
      CategoriesAddUp(front, before);
      TotalAppend(front, last, Succeeded());
      if !last.success {
        OneLess(errors, before, last.category);
      }
    }
  }

  lemma OneLess(errors: map<string, int>, before: map<string, int>, c: string)
    requires c in errors && before == if errors[c] == 1 then errors - {c} else errors[c := errors[c] - 1]
    ensures SumOver(errors.Keys, Count(errors)) == SumOver(before.Keys, Count(before)) + 1.0
  {
    SumPick(errors.Keys, Count(errors), c);
    SumSame(errors.Keys - {c}, Count(errors), Count(before));
    if errors[c] == 1 {
      assert before.Keys == errors.Keys - {c};
    } else {
      assert before.Keys == errors.Keys;
      SumPick(before.Keys, Count(before), c);
    }
  }

  lemma {:induction false} SumSame(ids: set<string>, f: string -> real, g: string -> real)
    requires forall id :: id in ids ==> f(id) == g(id)
    ensures SumOver(ids, f) == SumOver(ids, g)
    decreases |ids|
  {
    if ids != {} {
      var id :| id in ids;
      SumPick(ids, f, id);
      SumPick(ids, g, id);
      SumSame(ids - {id}, f, g);
    }
  }
}
