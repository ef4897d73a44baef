/** Chat requests, the key that groups them, and the backend's own compatibility check:
    `gateway/schemas/chat.py`, `gateway/batching/eligibility.py`, `compatibility_key` of
    `gateway/batching/dynamic.py` and the checks of `gateway/backends/vllm.py`. */
module Compatibility {
  import opened Collections
  import opened Json

  /** A request field: not sent, sent as null, or sent with a value. */
  datatype Field<T> = Unset | ExplicitNull | Given(value: T)

  datatype Message = Message(role: string, content: string)
  datatype Stop = OneStop(text: string) | ManyStops(texts: seq<string>)

  /** A validated request. */
  datatype Request = Request(
    model: string,
    messages: seq<Message>,
    temperature: Field<FloatText>,
    topP: Field<FloatText>,
    maxTokens: Field<int>,
    stop: Field<Stop>,
    seed: Field<int>,
    n: Field<int>,
    stream: Field<bool>,
    streamOptions: Field<bool>)
  {
    /** `n` must be positive when it is sent; it and `stream` have defaults and no null. */
    predicate Validated() {
      (n.Given? ==> n.value > 0) && !n.ExplicitNull? && !stream.ExplicitNull?
    }

    function N(): int { if n.Given? then n.value else 1 }
    function Streams(): bool { stream.Given? && stream.value }
  }

  function StopData(s: Stop): Data {
    match s
    case OneStop(t) => Str(t)
    case ManyStops(ts) => List(seq(|ts|, (i: nat) requires i < |ts| => Str(ts[i])))
  }

  function MessageData(m: Message): Data {
    Dict(map["role" := Str(m.role), "content" := Str(m.content)])
  }

  function MessagesData(ms: seq<Message>): Data {
    List(seq(|ms|, (i: nat) requires i < |ms| => MessageData(ms[i])))
  }

  datatype FieldName =
    Model | Messages | Temperature | TopP | MaxTokens | StopTexts | Seed | Count | Stream | StreamOptions

  function Name(f: FieldName): string {
    match f
    case Model => "model"
    case Messages => "messages"
    case Temperature => "temperature"
    case TopP => "top_p"
    case MaxTokens => "max_tokens"
    case StopTexts => "stop"
    case Seed => "seed"
    case Count => "n"
    case Stream => "stream"
    case StreamOptions => "stream_options"
  }

  lemma NamesDiffer(f: FieldName, g: FieldName)
    requires Name(f) == Name(g)
    ensures f == g
  {
    assert |Name(f)| == |Name(g)| && (|Name(f)| > 1 ==> Name(f)[1] == Name(g)[1]);
  }

  type Payload = map<FieldName, Data>

  /** The payload as the dictionary that is sent and printed. */
  function Named(p: Payload): (d: map<string, Data>)
    ensures forall f :: f in p ==> Name(f) in d && d[Name(f)] == p[f]
    ensures forall k :: k in d ==> exists f :: f in p && Name(f) == k
  {
    NamesDifferAll();
    map f | f in p :: Name(f) := p[f]
  }

  lemma NamesDifferAll()
    ensures forall f, g :: Name(f) == Name(g) ==> f == g
  {
    forall f, g | Name(f) == Name(g) ensures f == g {
      NamesDiffer(f, g);
    }
  }

  lemma NamedInjective(p: Payload, q: Payload)
    requires Named(p) == Named(q)
    ensures p == q
  {
    NamesDifferAll();
    hide Name;
    forall f ensures f in p <==> f in q {
      assert f in p ==> Name(f) in Named(q);
      assert f in q ==> Name(f) in Named(p);
    }
    forall f | f in p ensures p[f] == q[f] {
      assert Named(p)[Name(f)] == p[f];
    }
  }

  function Sent<T>(f: Field<T>, data: T -> Data): Option<Data> {
    if f.Given? then Some(data(f.value)) else None
  }

  /** What a field contributes upstream: nothing when it was not sent or sent as null. */
  function FieldData(r: Request, f: FieldName): Option<Data> {
    match f
    case Model => Some(Str(r.model))
    case Messages => Some(MessagesData(r.messages))
    case Temperature => Sent(r.temperature, (t: FloatText) => Float(t))
    case TopP => Sent(r.topP, (t: FloatText) => Float(t))
    case MaxTokens => Sent(r.maxTokens, (i: int) => Int(i))
    case StopTexts => Sent(r.stop, (s: Stop) => StopData(s))
    case Seed => Sent(r.seed, (i: int) => Int(i))
    case Count => Sent(r.n, (i: int) => Int(i))
    case Stream => Sent(r.stream, (b: bool) => Bool(b))
    case StreamOptions => Sent(r.streamOptions, (b: bool) => Dict(map["include_usage" := Bool(b)]))
  }

  /** `model_dump(mode="json", exclude_none=True, exclude_unset=True)`. */
  function UpstreamPayload(r: Request): Payload {
    map f: FieldName | FieldData(r, f).Some? :: FieldData(r, f).value
  }

  function SharedPayload(r: Request): Payload {
    UpstreamPayload(r) - {Messages, Stream, StreamOptions, Count}
  }

  function CompatibilityKey(tenant: string, r: Request): string {
    Print(List([Str(tenant), Str(Print(Dict(Named(SharedPayload(r)))))]))
  }

  /** Equal keys mean the same tenant and the same shared payload, and nothing less. */
  lemma KeyExact(t: string, r: Request, u: string, q: Request)
    ensures CompatibilityKey(t, r) == CompatibilityKey(u, q) <==> t == u && SharedPayload(r) == SharedPayload(q)
  {
    hide Print, SharedPayload, Named;
    if CompatibilityKey(t, r) == CompatibilityKey(u, q) {
      var a, b := Print(Dict(Named(SharedPayload(r)))), Print(Dict(Named(SharedPayload(q))));
      PrintInjective(List([Str(t), Str(a)]), List([Str(u), Str(b)]));
      assert [Str(t), Str(a)][0] == [Str(u), Str(b)][0] && [Str(t), Str(a)][1] == [Str(u), Str(b)][1];
      PrintInjective(Dict(Named(SharedPayload(r))), Dict(Named(SharedPayload(q))));
      NamedInjective(SharedPayload(r), SharedPayload(q));
    }
  }

  /** Sending null is the same as not sending. */
  predicate SameField<T(==)>(f: Field<T>, g: Field<T>) {
    if f.Given? then f == g else !g.Given?
  }

  lemma StopDataInjective(s: Stop, t: Stop)
    ensures StopData(s) == StopData(t) <==> s == t
  {
    if StopData(s) == StopData(t) && s.ManyStops? && t.ManyStops? {
      var a, b := StopData(s).items, StopData(t).items;
      assert a == b && |a| == |s.texts| && |b| == |t.texts|;
      forall i | 0 <= i < |s.texts| ensures s.texts[i] == t.texts[i] {
        assert a[i] == Str(s.texts[i]) && b[i] == Str(t.texts[i]);
      }
    }
  }

  /** The shared payload forgets the messages, `n` and the streaming fields, and nothing else. */
  lemma SharedPayloadExact(r: Request, q: Request)
    ensures SharedPayload(r) == SharedPayload(q) <==>
      && r.model == q.model
      && SameField(r.temperature, q.temperature) && SameField(r.topP, q.topP)
      && SameField(r.maxTokens, q.maxTokens) && SameField(r.seed, q.seed) && SameField(r.stop, q.stop)
  {
    SharedPointwise(r, q);
    hide SharedPayload, UpstreamPayload;
    if r.stop.Given? && q.stop.Given? {
      StopDataInjective(r.stop.value, q.stop.value);
    }
    assert FieldData(r, Model) == FieldData(q, Model) <==> r.model == q.model;
    assert FieldData(r, Temperature) == FieldData(q, Temperature) <==> SameField(r.temperature, q.temperature);
    assert FieldData(r, TopP) == FieldData(q, TopP) <==> SameField(r.topP, q.topP);
    assert FieldData(r, MaxTokens) == FieldData(q, MaxTokens) <==> SameField(r.maxTokens, q.maxTokens);
    assert FieldData(r, Seed) == FieldData(q, Seed) <==> SameField(r.seed, q.seed);
    assert FieldData(r, StopTexts) == FieldData(q, StopTexts) <==> SameField(r.stop, q.stop);
  }

  predicate Popped(f: FieldName) {
    f in {Messages, Stream, StreamOptions, Count}
  }

  lemma SharedPointwise(r: Request, q: Request)
    ensures SharedPayload(r) == SharedPayload(q) <==>
      forall f :: !Popped(f) ==> FieldData(r, f) == FieldData(q, f)
  {
    hide FieldData;
    var a, b := SharedPayload(r), SharedPayload(q);
    assert forall f :: f in a <==> !Popped(f) && FieldData(r, f).Some?;
    assert forall f :: f in b <==> !Popped(f) && FieldData(q, f).Some?;
    if a == b {
      forall f | !Popped(f) ensures FieldData(r, f) == FieldData(q, f) {
        assert f in a <==> f in b;
      }
    }
  }

  // ---------------------------------------------------------------- the wire form

  /** The payload has the field `name` exactly if the client gave it a value. */
  predicate OnWire(d: map<string, Data>, name: string, given: bool) {
    name in d <==> given
  }

  lemma NamedHas(p: Payload, f: FieldName)
    ensures Name(f) in Named(p) <==> f in p
    ensures f in p ==> Named(p)[Name(f)] == p[f]
  {
    NamesDifferAll();
    hide Name;
  }

  lemma WireField(r: Request, f: FieldName)
    ensures var d := Named(UpstreamPayload(r));
      && (Name(f) in d <==> FieldData(r, f).Some?)
      && (Name(f) in d ==> d[Name(f)] == FieldData(r, f).value)
  {
    hide FieldData, Name, Named;
    NamedHas(UpstreamPayload(r), f);
  }

  function FieldNames(): set<string> {
    {"model", "messages", "temperature", "top_p", "max_tokens", "stop", "seed", "n", "stream", "stream_options"}
  }

  lemma WireNames(r: Request)
    ensures Named(UpstreamPayload(r)).Keys <= FieldNames()
  {
    hide FieldData;
    forall k | k in Named(UpstreamPayload(r))
      ensures k in FieldNames()
    {
      var f :| f in UpstreamPayload(r) && Name(f) == k;
    }
  }

  /** What is sent upstream: the fields that were given a value, under their names, and no others. */
  lemma WireForm(r: Request)
    ensures var d := Named(UpstreamPayload(r));
      && d.Keys <= FieldNames()
      && "model" in d && d["model"] == Str(r.model)
      && "messages" in d && d["messages"] == MessagesData(r.messages)
      && d["messages"].List? && |d["messages"].items| == |r.messages|
      && (forall i :: 0 <= i < |r.messages| ==>
            d["messages"].items[i] == Dict(map["role" := Str(r.messages[i].role), "content" := Str(r.messages[i].content)]))
      && OnWire(d, "temperature", r.temperature.Given?) && OnWire(d, "top_p", r.topP.Given?)
      && OnWire(d, "max_tokens", r.maxTokens.Given?) && OnWire(d, "seed", r.seed.Given?) && OnWire(d, "n", r.n.Given?)
      && OnWire(d, "stop", r.stop.Given?) && OnWire(d, "stream", r.stream.Given?)
      && OnWire(d, "stream_options", r.streamOptions.Given?)
      && (r.temperature.Given? ==> d["temperature"] == Float(r.temperature.value))
      && (r.topP.Given? ==> d["top_p"] == Float(r.topP.value))
      && (r.maxTokens.Given? ==> d["max_tokens"] == Int(r.maxTokens.value))
      && (r.seed.Given? ==> d["seed"] == Int(r.seed.value)) && (r.n.Given? ==> d["n"] == Int(r.n.value))
      && (r.stream.Given? ==> d["stream"] == Bool(r.stream.value))
      && (r.streamOptions.Given? ==> d["stream_options"] == Dict(map["include_usage" := Bool(r.streamOptions.value)]))
      && (r.stop.Given? && r.stop.value.OneStop? ==> d["stop"] == Str(r.stop.value.text))
      && (r.stop.Given? && r.stop.value.ManyStops? ==>
            && d["stop"].List? && |d["stop"].items| == |r.stop.value.texts|
            && forall i :: 0 <= i < |r.stop.value.texts| ==> d["stop"].items[i] == Str(r.stop.value.texts[i]))
  {
    hide Named, UpstreamPayload;
    WireNames(r);
    WireField(r, Model);
    WireField(r, Messages);
    WireField(r, Temperature);
    WireField(r, TopP);
    WireField(r, MaxTokens);
    WireField(r, StopTexts);
    WireField(r, Seed);
    WireField(r, Count);
    WireField(r, Stream);
    WireField(r, StreamOptions);
  }

  // ---------------------------------------------------------------- eligibility and the backend's check

  datatype Reason = Eligible | Disabled | Streaming | NGreaterThanOne

  function BatchingEligibility(r: Request, enabled: bool): Reason {
    if !enabled then Disabled
    else if r.Streams() then Streaming
    else if r.N() > 1 then NGreaterThanOne
    else Eligible
  }

  /** A request may be batched exactly if batching is on, it does not ask for a stream, and it asks
      for one choice; the reason named is the first of these that fails. */
  lemma EligibilityExact(r: Request, enabled: bool)
    ensures BatchingEligibility(r, enabled) == Eligible <==>
      enabled && r.stream != Given(true) && !(r.n.Given? && r.n.value > 1)
    ensures BatchingEligibility(r, enabled) == Disabled <==> !enabled
    ensures BatchingEligibility(r, enabled) == Streaming <==> enabled && r.stream == Given(true)
  {
  }

  /** What `generate_batch` accepts before it sends anything. */
  predicate BackendAccepts(rs: seq<Request>) {
    && rs != []
    && (forall i :: 0 <= i < |rs| ==> !rs[i].Streams() && rs[i].N() == 1)
    && (forall i :: 1 <= i < |rs| ==> SharedPayload(rs[i]) == SharedPayload(rs[0]))
  }

  /** The backend accepts a batch exactly if it is not empty, no member asks for a stream, each
      asks for one choice, and all agree on every field that is shared. */
  lemma BackendAcceptsExactly(rs: seq<Request>)
    ensures BackendAccepts(rs) <==>
      && rs != []
      && forall i :: 0 <= i < |rs| ==>
        && rs[i].stream != Given(true) && (rs[i].n.Given? ==> rs[i].n.value == 1)
        && rs[i].model == rs[0].model
        && SameField(rs[i].temperature, rs[0].temperature) && SameField(rs[i].topP, rs[0].topP)
        && SameField(rs[i].maxTokens, rs[0].maxTokens) && SameField(rs[i].seed, rs[0].seed)
        && SameField(rs[i].stop, rs[0].stop)
  {
    hide SharedPayload, SameField;
    forall i | 0 <= i < |rs| ensures SharedPayload(rs[i]) == SharedPayload(rs[0]) <==>
      && rs[i].model == rs[0].model
      && SameField(rs[i].temperature, rs[0].temperature) && SameField(rs[i].topP, rs[0].topP)
      && SameField(rs[i].maxTokens, rs[0].maxTokens) && SameField(rs[i].seed, rs[0].seed)
      && SameField(rs[i].stop, rs[0].stop)
    {
      SharedPayloadExact(rs[i], rs[0]);
    }
  }

  /** Requests of one key, each judged eligible, are one tenant's and pass the backend's check. */
  lemma EligibleGroupIsAccepted(tenants: seq<string>, rs: seq<Request>)
    requires |tenants| == |rs| && rs != []
    requires forall i :: 0 <= i < |rs| ==> rs[i].Validated() && BatchingEligibility(rs[i], true).Eligible?
    requires forall i :: 0 <= i < |rs| ==>
      CompatibilityKey(tenants[i], rs[i]) == CompatibilityKey(tenants[0], rs[0])
    ensures BackendAccepts(rs) && forall i :: 0 <= i < |rs| ==> tenants[i] == tenants[0]
  {
    hide SharedPayload, CompatibilityKey;
    forall i | 0 <= i < |rs| ensures SharedPayload(rs[i]) == SharedPayload(rs[0]) && tenants[i] == tenants[0] {
      KeyExact(tenants[i], rs[i], tenants[0], rs[0]);
    }
  }

  /** The one upstream request: the shared fields and, in member order, the members' messages. */
  function BatchPayload(rs: seq<Request>): Payload
    requires rs != []
  {
    SharedPayload(rs[0])[Messages := List(seq(|rs|, (i: nat) requires i < |rs| => MessagesData(rs[i].messages)))]
  }

  lemma BatchFields(rs: seq<Request>, i: nat)
    requires i < |rs|
    ensures var p := BatchPayload(rs);
      && Count !in p && Stream !in p && StreamOptions !in p
      && Messages in p && p[Messages].List? && |p[Messages].items| == |rs|
      && p[Messages].items[i] == MessagesData(rs[i].messages)
  {
    hide UpstreamPayload, MessagesData;
  }

  /** The messages of a batch are the lists of messages of its members, in their order; the fields
      that may differ between the requests of one group are not sent. */
  lemma BatchWireForm(rs: seq<Request>, i: nat)
    requires i < |rs|
    ensures var d := Named(BatchPayload(rs));
      && "n" !in d && "stream" !in d && "stream_options" !in d
      && "messages" in d && d["messages"].List? && |d["messages"].items| == |rs|
      && d["messages"].items[i] == MessagesData(rs[i].messages)
  {
    hide UpstreamPayload, Named, MessagesData, FieldData, BatchPayload;
    var p := BatchPayload(rs);
    BatchFields(rs, i);
    NamedHas(p, Messages);
    NamedHas(p, Count);
    NamedHas(p, Stream);
    NamedHas(p, StreamOptions);
  }

  /** An accepted batch loses nothing: each member's own upstream payload can be read back
      from the batch payload and the member's position, up to the fields that are constant. */
  lemma BatchPayloadKeepsMembers(rs: seq<Request>, i: nat)
    requires BackendAccepts(rs) && i < |rs|
    ensures UpstreamPayload(rs[i]) - {Stream, StreamOptions, Count}
         == BatchPayload(rs)[Messages := BatchPayload(rs)[Messages].items[i]]
  {
    assert SharedPayload(rs[i]) == SharedPayload(rs[0]);
    UpstreamMessages(rs[i]);
    hide UpstreamPayload;
    var l, s := UpstreamPayload(rs[i]) - {Stream, StreamOptions, Count}, SharedPayload(rs[i]);
    assert forall k :: k != Messages ==> (k in l <==> k in s) && (k in l ==> l[k] == s[k]);
  }

  lemma UpstreamMessages(r: Request)
    ensures Messages in UpstreamPayload(r) && UpstreamPayload(r)[Messages] == MessagesData(r.messages)
  {
  }
}
