/** The strict index demultiplexer of `gateway/backends/vllm.py`: one upstream batch
    response becomes one ordinary response per member. */
module Demux {
  import opened Collections
  import opened Json

  datatype Usage = Observed(tokens: int) | Missing | Invalid
  datatype BatchResult = BatchResult(responses: seq<Data>, usage: Usage)
  datatype Result<T> = Ok(value: T) | ProtocolError

  /** The choice is an object that carries the index `k`. */
  predicate HasIndex(choice: Data, k: int) {
    choice.Dict? && "index" in choice.entries && choice.entries["index"] == Int(k)
  }

  /** The index of a choice, if it is an object with an integer index. */
  function ChoiceIndex(choice: Data): (r: Result<int>)
    ensures r.Ok? ==> HasIndex(choice, r.value)
    ensures r.ProtocolError? ==> forall k :: !HasIndex(choice, k)
  {
    if !choice.Dict? || "index" !in choice.entries || !choice.entries["index"].Int? then ProtocolError
    else Ok(choice.entries["index"].value)
  }

  /** One round of the index loop; a choice that does not fit ends it. */
  function AddChoice(byIndex: map<int, Data>, choice: Data, n: nat): Result<map<int, Data>> {
    var index := ChoiceIndex(choice);
    if index.ProtocolError? || index.value < 0 || index.value >= n || index.value in byIndex then ProtocolError
    else Ok(byIndex[index.value := choice])
  }

  function Collect(choices: seq<Data>, n: nat): Result<map<int, Data>> {
    if choices == [] then Ok(map[]) else
      var rest := Collect(choices[..|choices| - 1], n);
      if rest.ProtocolError? then ProtocolError else AddChoice(rest.value, choices[|choices| - 1], n)
  }

  const SAFE_FIELDS := ["id", "object", "created", "model", "system_fingerprint"]

  function SafeFields(payload: map<string, Data>): map<string, Data> {
    map k | k in payload && k in SAFE_FIELDS :: payload[k]
  }

  /** A member's response: the safe batch fields and its own choice, renumbered to 0. */
  function MemberResponse(payload: map<string, Data>, choice: Data): Data
    requires choice.Dict?
  {
    Dict(SafeFields(payload)["choices" := List([Dict(choice.entries["index" := Int(0)])])])
  }

  /** A response shows its own choice, renumbered, and of the batch the safe fields only:
      nothing of the other choices and no usage of the whole batch. */
  lemma MemberResponseShows(payload: map<string, Data>, choice: Data)
    requires choice.Dict?
    ensures var r := MemberResponse(payload, choice);
      && r.Dict?
      && (forall f :: f in r.entries <==>
            || f == "choices"
            || (f in payload && f in {"id", "object", "created", "model", "system_fingerprint"}))
      && (forall f :: f in r.entries && f != "choices" ==> r.entries[f] == payload[f])
      && r.entries["choices"].List? && |r.entries["choices"].items| == 1
      && r.entries["choices"].items[0].Dict?
      && r.entries["choices"].items[0].entries - {"index"} == choice.entries - {"index"}
      && "index" in r.entries["choices"].items[0].entries
      && r.entries["choices"].items[0].entries["index"] == Int(0)
    ensures "usage" !in MemberResponse(payload, choice).entries
  {
    var own := MemberResponse(payload, choice).entries["choices"].items[0].entries;
    assert own == choice.entries["index" := Int(0)];
  }

  function BatchUsage(payload: map<string, Data>): Usage {
    if "usage" !in payload then Missing else
      var usage := payload["usage"];
      if !usage.Dict? || "completion_tokens" !in usage.entries then Invalid else
        var tokens := usage.entries["completion_tokens"];
        if !tokens.Int? || tokens.value < 0 then Invalid else Observed(tokens.value)
  }

  /** The usage of a batch is what its `completion_tokens` says, if that is a number of tokens. */
  lemma BatchUsageReads(payload: map<string, Data>, tokens: int)
    ensures BatchUsage(payload) == Missing <==> "usage" !in payload
    ensures BatchUsage(payload) == Observed(tokens) <==>
      && tokens >= 0 && "usage" in payload && payload["usage"].Dict?
      && "completion_tokens" in payload["usage"].entries
      && payload["usage"].entries["completion_tokens"] == Int(tokens)
  {
    if BatchUsage(payload) == Observed(tokens) {
      assert payload["usage"].entries["completion_tokens"].Int?;
    }
  }

  /** Exactly one well-formed choice for each member: the indices are a permutation of `0..n-1`. */
  ghost predicate PermutedChoices(choices: seq<Data>, n: nat) {
    |choices| == n && WellIndexed(choices, n)
  }

  /** Of all choices exactly the one at `i` carries the index `k`. */
  predicate Only(choices: seq<Data>, k: int, i: nat) {
    i < |choices| && forall j :: 0 <= j < |choices| ==> (HasIndex(choices[j], k) <==> j == i)
  }

  /** Exactly one choice carries the index `k`. */
  ghost predicate CarriedOnce(choices: seq<Data>, k: int) {
    exists i :: Only(choices, k, i)
  }

  /** A payload that can be demultiplexed into `n` responses: as many choices, and for every
      member exactly one that carries its index. */
  ghost predicate Demultiplexable(payload: map<string, Data>, n: nat) {
    && "choices" in payload && payload["choices"].List? && |payload["choices"].items| == n
    && forall k :: 0 <= k < n ==> CarriedOnce(payload["choices"].items, k)
  }

  /** Every choice is well-formed and no index repeats. */
  ghost predicate WellIndexed(choices: seq<Data>, n: nat) {
    && (forall i :: 0 <= i < |choices| ==>
          ChoiceIndex(choices[i]).Ok? && 0 <= ChoiceIndex(choices[i]).value < n)
    && (forall i, j :: 0 <= i < j < |choices| ==>
          ChoiceIndex(choices[i]).value != ChoiceIndex(choices[j]).value)
  }

  /** `byIndex` holds exactly the choices, each under its index. */
  ghost predicate Indexes(choices: seq<Data>, n: nat, byIndex: map<int, Data>)
    requires WellIndexed(choices, n)
  {
    && (forall i :: 0 <= i < |choices| ==>
          ChoiceIndex(choices[i]).value in byIndex && byIndex[ChoiceIndex(choices[i]).value] == choices[i])
    && (forall k :: k in byIndex ==> 0 <= k < n && exists i :: 0 <= i < |choices| && ChoiceIndex(choices[i]) == Ok(k))
  }

  lemma AddChoiceExact(s: seq<Data>, choice: Data, n: nat, byIndex: map<int, Data>)
    requires WellIndexed(s, n) && Indexes(s, n, byIndex)
    ensures AddChoice(byIndex, choice, n).Ok? <==> WellIndexed(s + [choice], n)
    ensures AddChoice(byIndex, choice, n).Ok? ==> Indexes(s + [choice], n, AddChoice(byIndex, choice, n).value)
  {
    hide ChoiceIndex;
    var t, r := s + [choice], AddChoice(byIndex, choice, n);
    if r.Ok? {
      forall k | k in r.value ensures exists i :: 0 <= i < |t| && ChoiceIndex(t[i]) == Ok(k) {
        if k in byIndex {
          var i :| 0 <= i < |s| && ChoiceIndex(s[i]) == Ok(k);
          assert ChoiceIndex(t[i]) == Ok(k);
        } else {
          assert ChoiceIndex(t[|s|]) == Ok(k);
        }
      }
    }
    LastIsFresh(s, choice, n);
  }

  lemma LastIsFresh(s: seq<Data>, choice: Data, n: nat)
    ensures WellIndexed(s + [choice], n) ==>
      ChoiceIndex(choice).Ok? && 0 <= ChoiceIndex(choice).value < n
      && forall i :: 0 <= i < |s| ==> ChoiceIndex(s[i]) != ChoiceIndex(choice)
  {
    hide ChoiceIndex;
    var t := s + [choice];
    assert t[|s|] == choice && forall i :: 0 <= i < |s| ==> t[i] == s[i];
  }

  /** The loop accepts exactly the fitting choices and indexes all of them. */
  lemma {:induction false} CollectExact(choices: seq<Data>, n: nat)
    ensures Collect(choices, n).Ok? <==> WellIndexed(choices, n)
    ensures Collect(choices, n).Ok? ==> Indexes(choices, n, Collect(choices, n).value)
  {
    hide ChoiceIndex, AddChoice;
    if choices != [] {
      var m := |choices| - 1;
      var s := choices[..m];
      assert s + [choices[m]] == choices;
      CollectExact(s, n);
      if Collect(s, n).Ok? {
        AddChoiceExact(s, choices[m], n, Collect(s, n).value);
      } else {
        assert forall i :: 0 <= i < m ==> s[i] == choices[i];
      }
    }
  }

  function Range(n: nat): (s: set<int>)
    ensures forall k :: k in s <==> 0 <= k < n
  {
    if n == 0 then {} else Range(n - 1) + {n - 1}
  }

  /** Pigeonhole: when the loop accepts `n` choices, every member has one. */
  lemma AcceptedIsComplete(choices: seq<Data>, n: nat)
    requires PermutedChoices(choices, n)
    ensures Collect(choices, n).Ok? && Collect(choices, n).value.Keys == Range(n)
  {
    CollectExact(choices, n);
    hide Collect, ChoiceIndex;
    var indices: seq<nat> := seq(n, (i: nat) requires i < n => ChoiceIndex(choices[i]).value);
    NoDupFull(indices, n) by {
      assert forall x :: x in indices ==> x < n;
    }
    forall k: int | 0 <= k < n ensures k in Collect(choices, n).value {
      assert k as nat in indices;
      var i :| 0 <= i < n && indices[i] == k;
      assert ChoiceIndex(choices[i]).value == k;
    }
  }

  lemma IndexOwner(choices: seq<Data>, n: nat, byIndex: map<int, Data>, k: nat) returns (i: nat)
    requires Collect(choices, n) == Ok(byIndex) && k in byIndex
    ensures i < |choices| && ChoiceIndex(choices[i]) == Ok(k) && byIndex[k] == choices[i] && byIndex[k].Dict?
  {
    CollectExact(choices, n);
    i :| 0 <= i < |choices| && ChoiceIndex(choices[i]) == Ok(k);
  }

  lemma IndexIs(choice: Data, k: int)
    ensures HasIndex(choice, k) <==> ChoiceIndex(choice) == Ok(k)
  {
  }

  /** What the loop checks choice by choice is that every index has exactly one choice. */
  lemma PermutedExactly(choices: seq<Data>, n: nat)
    requires |choices| == n
    ensures PermutedChoices(choices, n) <==> forall k :: 0 <= k < n ==> CarriedOnce(choices, k)
  {
    hide ChoiceIndex, HasIndex;
    if PermutedChoices(choices, n) {
      forall k | 0 <= k < n ensures CarriedOnce(choices, k) {
        OwnerIsOnly(choices, n, k);
      }
    } else if forall k :: 0 <= k < n ==> CarriedOnce(choices, k) {
      OnlyIsPermuted(choices, n);
    }
  }

  lemma OwnerIsOnly(choices: seq<Data>, n: nat, k: nat)
    requires PermutedChoices(choices, n) && k < n
    ensures CarriedOnce(choices, k)
  {
    AcceptedIsComplete(choices, n);
    var i := IndexOwner(choices, n, Collect(choices, n).value, k);
    hide ChoiceIndex, HasIndex, Collect;
    forall j | 0 <= j < n ensures HasIndex(choices[j], k) <==> j == i {
      IndexIs(choices[j], k);
      if j < i { assert ChoiceIndex(choices[j]).value != ChoiceIndex(choices[i]).value; }
      if i < j { assert ChoiceIndex(choices[i]).value != ChoiceIndex(choices[j]).value; }
    }
    assert Only(choices, k, i);
  }

  ghost function OnlyOwner(choices: seq<Data>, k: int): (i: nat)
    requires CarriedOnce(choices, k)
    ensures Only(choices, k, i)
  {
    var i :| Only(choices, k, i);
    i
  }

  lemma OnlyIsPermuted(choices: seq<Data>, n: nat)
    requires |choices| == n && forall k :: 0 <= k < n ==> CarriedOnce(choices, k)
    ensures PermutedChoices(choices, n)
  {
    hide ChoiceIndex;
    var owners: seq<nat> := seq(n, (k: nat) requires k < n => OnlyOwner(choices, k));
    forall k, l | 0 <= k < l < n ensures owners[k] != owners[l] {
      assert HasIndex(choices[owners[k]], k) && HasIndex(choices[owners[l]], l);
    }
    NoDupFull(owners, n);
    forall j | 0 <= j < n ensures Owned(choices, owners, j) && ChoiceIndex(choices[j]).Ok? {
      assert j as nat in owners;
      var k :| 0 <= k < n && owners[k] == j;
      IndexIs(choices[j], k);
    }
    forall i, j | 0 <= i < j < n ensures ChoiceIndex(choices[i]).value != ChoiceIndex(choices[j]).value {
      assert Owned(choices, owners, i) && Owned(choices, owners, j);
    }
  }

  ghost predicate Owned(choices: seq<Data>, owners: seq<nat>, j: nat)
    requires j < |choices|
  {
    exists k :: 0 <= k < |owners| && owners[k] == j && ChoiceIndex(choices[j]) == Ok(k)
  }

  /** The responses in terms of the choices alone: response `k` is made of the choice that carries `k`. */
  ghost predicate Answers(payload: map<string, Data>, n: nat, responses: seq<Data>)
    requires Demultiplexable(payload, n)
  {
    && |responses| == n
    && forall i, k :: 0 <= i < n && 0 <= k < n && HasIndex(payload["choices"].items[i], k) ==>
      responses[k] == MemberResponse(payload, payload["choices"].items[i])
  }

  method DemultiplexBatchResponse(payload: map<string, Data>, batchSize: nat)
    returns (result: Result<BatchResult>)
    ensures result.Ok? <==> Demultiplexable(payload, batchSize)
    ensures result.Ok? ==>
      Answers(payload, batchSize, result.value.responses) && result.value.usage == BatchUsage(payload)
  {
    hide WellIndexed, Indexes, AddChoice, ChoiceIndex, HasIndex, Only, MemberResponse, BatchUsage, Answers;
    if "choices" !in payload || !payload["choices"].List? || |payload["choices"].items| != batchSize {
      return ProtocolError;
    }
    var choices := payload["choices"].items;
    var byIndex: map<int, Data> := map[];
    PermutedExactly(choices, batchSize);
    CollectExact(choices, batchSize);
    for i := 0 to |choices|
      invariant Collect(choices[..i], batchSize) == Ok(byIndex)
    {
      assert choices[..i + 1][..i] == choices[..i];
      var added := AddChoice(byIndex, choices[i], batchSize);
      if added.ProtocolError? {
        CollectFails(choices, i + 1, batchSize);
        return ProtocolError;
      }
      byIndex := added.value;
    }
    assert choices[..|choices|] == choices;
    AcceptedIsComplete(choices, batchSize);
    if byIndex.Keys != Range(batchSize) {
      assert false;  // the final set test of the source is redundant
    }
    AllObjects(choices, batchSize, byIndex);
    var responses: seq<Data> := [];
    for index := 0 to batchSize
      invariant |responses| == index
      invariant forall k :: 0 <= k < index ==> responses[k] == MemberResponse(payload, byIndex[k])
    {
      responses := responses + [MemberResponse(payload, byIndex[index])];
    }
    ResponsesAnswer(payload, batchSize, byIndex, responses);
    return Ok(BatchResult(responses, BatchUsage(payload)));
  }

  lemma AllObjects(choices: seq<Data>, n: nat, byIndex: map<int, Data>)
    requires Collect(choices, n) == Ok(byIndex)
    ensures forall k :: k in byIndex ==> byIndex[k].Dict?
  {
    CollectExact(choices, n);
    forall k | k in byIndex ensures byIndex[k].Dict? {
      var i :| 0 <= i < |choices| && ChoiceIndex(choices[i]) == Ok(k);
      assert byIndex[k] == choices[i];
    }
  }

  lemma ResponsesAnswer(payload: map<string, Data>, n: nat, byIndex: map<int, Data>, responses: seq<Data>)
    requires Demultiplexable(payload, n) && Collect(payload["choices"].items, n) == Ok(byIndex)
    requires forall k :: k in byIndex ==> byIndex[k].Dict?
    requires byIndex.Keys == Range(n) && |responses| == n
    requires forall k :: 0 <= k < n ==> responses[k] == MemberResponse(payload, byIndex[k])
    ensures Answers(payload, n, responses)
  {
    var choices := payload["choices"].items;
    PermutedExactly(choices, n);
    CollectExact(choices, n);
    hide MemberResponse, Only, ChoiceIndex, HasIndex, Collect;
    forall i, k | 0 <= i < n && 0 <= k < n && HasIndex(choices[i], k)
      ensures responses[k] == MemberResponse(payload, choices[i])
    {
      IndexIs(choices[i], k);
      assert byIndex[k] == choices[i];
    }
  }

  lemma {:induction false} CollectFails(choices: seq<Data>, i: nat, n: nat)
    requires i <= |choices| && Collect(choices[..i], n).ProtocolError?
    ensures Collect(choices, n).ProtocolError?
    decreases |choices|
  {
    if i < |choices| {
      var s := choices[..|choices| - 1];
      assert s[..i] == choices[..i];
      CollectFails(s, i, n);
    } else {
      assert choices[..i] == choices;
    }
  }

  /** The payload alone decides the responses: two demultiplexings agree. */
  lemma AnswersUnique(payload: map<string, Data>, n: nat, r: seq<Data>, q: seq<Data>)
    requires Demultiplexable(payload, n) && Answers(payload, n, r) && Answers(payload, n, q)
    ensures r == q
  {
    hide MemberResponse, HasIndex;
    var choices := payload["choices"].items;
    forall k | 0 <= k < n ensures r[k] == q[k] {
      assert CarriedOnce(choices, k);
      var i := OnlyOwner(choices, k);
      assert HasIndex(choices[i], k);
    }
  }

  /** `t` lists the choices of `s` in the order `p`. */
  ghost predicate Reordered(s: seq<Data>, t: seq<Data>, p: seq<nat>) {
    && |s| == |t| == |p| && NoDup(p)
    && (forall i :: 0 <= i < |p| ==> p[i] < |s|)
    && (forall i :: 0 <= i < |p| ==> t[i] == s[p[i]])
  }

  lemma ReorderedChoices(s: seq<Data>, t: seq<Data>, p: seq<nat>, n: nat)
    requires Reordered(s, t, p)
    ensures PermutedChoices(s, n) <==> PermutedChoices(t, n)
  {
    hide ChoiceIndex;
    assert forall x :: x in p ==> x < |s|;
    NoDupFull(p, |s|);
    if PermutedChoices(t, n) {
      forall i | 0 <= i < n ensures ChoiceIndex(s[i]).Ok? && 0 <= ChoiceIndex(s[i]).value < n {
        assert i as nat in p;
        var j :| 0 <= j < |p| && p[j] == i;
        assert t[j] == s[i];
      }
      forall i, j | 0 <= i < j < n ensures ChoiceIndex(s[i]).value != ChoiceIndex(s[j]).value {
        assert i as nat in p && j as nat in p;
        var k :| 0 <= k < |p| && p[k] == i;
        var l :| 0 <= l < |p| && p[l] == j;
        assert t[k] == s[i] && t[l] == s[j] && k != l;
        if l < k { assert ChoiceIndex(t[l]).value != ChoiceIndex(t[k]).value; }
      }
    }
    if PermutedChoices(s, n) {
      forall i, j | 0 <= i < j < n ensures ChoiceIndex(t[i]).value != ChoiceIndex(t[j]).value {
        assert p[i] != p[j];
        if p[j] < p[i] { assert ChoiceIndex(s[p[j]]).value != ChoiceIndex(s[p[i]]).value; }
      }
    }
  }

  /** The order of the choices list does not matter: neither to acceptance nor to any response. */
  lemma OrderIrrelevant(payload: map<string, Data>, t: seq<Data>, p: seq<nat>, n: nat, r: seq<Data>)
    requires "choices" in payload && payload["choices"].List? && Reordered(payload["choices"].items, t, p)
    ensures Demultiplexable(payload, n) <==> Demultiplexable(payload["choices" := List(t)], n)
    ensures Demultiplexable(payload, n) ==>
      (Answers(payload, n, r) <==> Answers(payload["choices" := List(t)], n, r))
  {
    var s := payload["choices"].items;
    var q := payload["choices" := List(t)];
    assert SafeFields(q) == SafeFields(payload);
    if |s| == n {
      ReorderedChoices(s, t, p, n);
      PermutedExactly(s, n);
      PermutedExactly(t, n);
      assert forall x :: x in p ==> x < n;
      NoDupFull(p, n);
    }
    if Demultiplexable(payload, n) && Answers(q, n, r) {
      forall i, k | 0 <= i < n && 0 <= k < n && HasIndex(s[i], k) ensures r[k] == MemberResponse(payload, s[i]) {
        assert i as nat in p;
        var j :| 0 <= j < |p| && p[j] == i;
        assert t[j] == s[i];
      }
    }
  }
}
