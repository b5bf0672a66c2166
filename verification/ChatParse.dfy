/** Reading a chat request: a loop over a JSON object's keys, in the order the
    map happens to yield them (pkg/api/inference_handlers.go). */
module ChatParse {
  import opened Text

  /** Int: a number without fraction or exponent. Object: any JSON object. */
  datatype Json = Null | Bool(b: bool) | Int(n: int) | OtherNumber | Str(s: string) | Array(items: seq<Json>) | Object

  /** A body is an object (nil if it is null) or it is refused. */
  type Raw = map<string, Json>

  datatype ChatRequest = ChatRequest(model: string, messages: seq<Json>, maxTokens: nat, stream: bool, extra: Raw)

  datatype Error = WrongType(key: string) | NoModel | NoMessages

  datatype Result<T> = Ok(value: T) | Err(error: Error)

  const ALLOWED_REQUEST_FIELDS := {
    "temperature", "top_p", "top_k", "min_p", "stop", "seed", "n",
    "frequency_penalty", "presence_penalty", "repetition_penalty",
    "logit_bias", "logprobs", "top_logprobs",
    "tools", "tool_choice", "response_format",
    "stream_options", "user", "chat_template_kwargs"
  }

  const MODEL := "model"
  const MESSAGES := "messages"
  const STREAM := "stream"
  const MAX_TOKENS := "max_tokens"
  const MAX_COMPLETION := "max_completion_tokens"

  const MAX_INT: int := 0x7FFF_FFFF_FFFF_FFFF

  // ---------------------------------------------------------------------
  // One key
  // ---------------------------------------------------------------------

  /** JSON null decodes into anything, and leaves it at its zero value. */
  predicate WellTyped(k: string, v: Json) {
    if k == MODEL then v.Null? || v.Str?
    else if k == MESSAGES then v.Null? || v.Array?
    else if k == MAX_TOKENS || k == MAX_COMPLETION then v.Null? || (v.Int? && 0 <= v.n <= MAX_INT)
    else if k == STREAM then v.Null? || v.Bool?
    else true
  }

  function Tokens(v: Json): nat {
    if v.Int? && v.n >= 0 then v.n else 0
  }

  function Take(req: ChatRequest, k: string, v: Json): ChatRequest {
    if k == MODEL then (if v.Str? then req.(model := v.s) else req)
    else if k == MESSAGES then req.(messages := if v.Array? then v.items else [])
    else if k == MAX_COMPLETION then req.(maxTokens := Tokens(v))
    else if k == MAX_TOKENS then (if req.maxTokens == 0 then req.(maxTokens := Tokens(v)) else req)
    else if k == STREAM then (if v.Bool? then req.(stream := v.b) else req)
    else if k in ALLOWED_REQUEST_FIELDS then req.(extra := req.extra[k := v])
    else req
  }

  const EMPTY := ChatRequest("", [], 0, false, map[])

  /** All the keys of order, in that order. */
  function Taken(raw: Raw, order: seq<string>): ChatRequest
    requires forall k | k in order :: k in raw
  {
    if order == [] then EMPTY
    else
      var k := order[|order| - 1];
      assert k in order;
      Take(Taken(raw, order[..|order| - 1]), k, raw[k])
  }

  predicate Complete(req: ChatRequest) {
    TrimSpace(req.model) != "" && req.messages != []
  }

  predicate AllTyped(raw: Raw, order: seq<string>)
    requires forall k | k in order :: k in raw
  {
    forall k | k in order :: WellTyped(k, raw[k])
  }

  /** An order in which the map may yield its keys: each once. */
  ghost predicate OrderOf(order: seq<string>, raw: Raw) {
    && (forall k :: k in order <==> k in raw)
    && Distinct(order)
  }

  /** Why a request is refused: a field of the wrong type, or, all being well
      typed, no model, or no messages for it. */
  ghost predicate Explains(e: Error, raw: Raw, order: seq<string>)
    requires forall k | k in order :: k in raw
  {
    match e
    case WrongType(k) => k in raw && !WellTyped(k, raw[k])
    case NoModel => AllTyped(raw, order) && TrimSpace(Taken(raw, order).model) == ""
    case NoMessages => AllTyped(raw, order) && TrimSpace(Taken(raw, order).model) != "" && Taken(raw, order).messages == []
  }

  method ParseChatRequest(raw: Raw, order: seq<string>) returns (r: Result<ChatRequest>)
    requires OrderOf(order, raw)
    ensures r.Ok? <==> AllTyped(raw, order) && Complete(Taken(raw, order))
    ensures r.Ok? ==> r.value == Taken(raw, order)
    ensures r.Err? ==> Explains(r.error, raw, order)
  {
    var req := EMPTY;
    for i := 0 to |order|
      invariant forall k | k in order[..i] :: WellTyped(k, raw[k])
      invariant req == Taken(raw, order[..i])
    {
      var k, v := order[i], raw[order[i]];
      assert order[..i + 1][..i] == order[..i];
      if !WellTyped(k, v) {
        return Err(WrongType(k));
      }
      req := Take(req, k, v);
    }
    assert order[..|order|] == order;
    if TrimSpace(req.model) == "" {
      return Err(NoModel);
    }
    if |req.messages| == 0 {
      return Err(NoMessages);
    }
    return Ok(req);
  }

  // ---------------------------------------------------------------------
  // What the order can and cannot change
  // ---------------------------------------------------------------------

  function Get(raw: Raw, order: seq<string>, k: string): Json
    requires forall k | k in order :: k in raw
  {
    if k in order then raw[k] else Null
  }

  ghost predicate Distinct(order: seq<string>) {
    forall i, j | 0 <= i < j < |order| :: order[i] != order[j]
  }

  lemma LastKey(order: seq<string>)
    requires order != [] && Distinct(order)
    ensures var last, rest := order[|order| - 1], order[..|order| - 1];
            Distinct(rest) && last !in rest && forall k :: k in order <==> k in rest || k == last
  {
    assert order == order[..|order| - 1] + [order[|order| - 1]];
  }

  lemma {:induction false} ModelField(raw: Raw, order: seq<string>)
    requires forall k | k in order :: k in raw
    requires Distinct(order)
    ensures Taken(raw, order).model == if Get(raw, order, MODEL).Str? then raw[MODEL].s else ""
  {
    if order != [] {
      ModelField(raw, order[..|order| - 1]);
      LastKey(order);
    }
  }

  lemma {:induction false} MessagesField(raw: Raw, order: seq<string>)
    requires forall k | k in order :: k in raw
    requires Distinct(order)
    ensures Taken(raw, order).messages == if Get(raw, order, MESSAGES).Array? then raw[MESSAGES].items else []
  {
    if order != [] {
      MessagesField(raw, order[..|order| - 1]);
      LastKey(order);
    }
  }

  lemma {:induction false} StreamField(raw: Raw, order: seq<string>)
    requires forall k | k in order :: k in raw
    requires Distinct(order)
    ensures Taken(raw, order).stream == (Get(raw, order, STREAM).Bool? && raw[STREAM].b)
  {
    if order != [] {
      StreamField(raw, order[..|order| - 1]);
      LastKey(order);
    }
  }

  /** What is passed on is the allowed fields, as they came. */
  lemma {:induction false} ExtraField(raw: Raw, order: seq<string>, k: string)
    requires forall k | k in order :: k in raw
    requires Distinct(order)
    ensures k in Taken(raw, order).extra <==> k in order && k in ALLOWED_REQUEST_FIELDS
    ensures k in Taken(raw, order).extra ==> Taken(raw, order).extra[k] == raw[k]
  {
    if order != [] {
      ExtraField(raw, order[..|order| - 1], k);
      LastKey(order);
    }
  }

  /** The token limit: max_completion_tokens wins, unless it is zero and
      max_tokens comes after it. */
  lemma {:induction false} TokenLimit(raw: Raw, order: seq<string>)
    requires forall k | k in order :: k in raw
    requires Distinct(order)
    ensures var older, newer := Tokens(Get(raw, order, MAX_TOKENS)), Tokens(Get(raw, order, MAX_COMPLETION));
            var limit := Taken(raw, order).maxTokens;
            && (MAX_COMPLETION !in order ==> limit == older)
            && (MAX_COMPLETION in order && (newer != 0 || older == 0) ==> limit == newer)
            && (limit == newer || limit == older)
  {
    if order != [] {
      TokenLimit(raw, order[..|order| - 1]);
      LastKey(order);
    }
  }

  /** Given as null, or not at all. */
  predicate Missing(raw: Raw, k: string) {
    k !in raw || raw[k].Null?
  }

  /** Given as a count that fits. */
  predicate Count(raw: Raw, k: string) {
    k in raw && raw[k].Int? && 0 <= raw[k].n < 0x8000_0000_0000_0000
  }

  predicate Typed(raw: Raw) {
    && (Missing(raw, "model") || raw["model"].Str?)
    && (Missing(raw, "messages") || raw["messages"].Array?)
    && (Missing(raw, "max_tokens") || Count(raw, "max_tokens"))
    && (Missing(raw, "max_completion_tokens") || Count(raw, "max_completion_tokens"))
    && (Missing(raw, "stream") || raw["stream"].Bool?)
  }

  predicate Named(raw: Raw) {
    !Missing(raw, "model") && raw["model"].Str? && TrimSpace(raw["model"].s) != ""
  }

  predicate Asked(raw: Raw) {
    !Missing(raw, "messages") && raw["messages"].Array? && raw["messages"].items != []
  }

  lemma TypedIff(raw: Raw, order: seq<string>)
    requires OrderOf(order, raw)
    ensures AllTyped(raw, order) <==> Typed(raw)
  {
    forall k | k in raw && Typed(raw) ensures WellTyped(k, raw[k]) {
    }
    if AllTyped(raw, order) {
      assert forall k | k in raw :: WellTyped(k, raw[k]);
    }
  }

  /** A request is accepted exactly if it names a model, has messages, and its
      limits are counts and its stream flag a boolean where they are given; and
      a refusal gives a reason that is there. */
  lemma AcceptedIff(raw: Raw, order: seq<string>)
    requires OrderOf(order, raw)
    ensures AllTyped(raw, order) && Complete(Taken(raw, order)) <==> Typed(raw) && Named(raw) && Asked(raw)
    ensures Explains(NoModel, raw, order) <==> Typed(raw) && !Named(raw)
    ensures Explains(NoMessages, raw, order) <==> Typed(raw) && Named(raw) && !Asked(raw)
    ensures forall k :: Explains(WrongType(k), raw, order) ==> !Typed(raw) && !Missing(raw, k)
  {
    TypedIff(raw, order);
    ModelField(raw, order);
    MessagesField(raw, order);
    assert TrimSpace("") == "";
  }

  /** An accepted request holds what was sent. */
  lemma AcceptedIs(raw: Raw, order: seq<string>)
    requires OrderOf(order, raw) && Typed(raw) && Named(raw) && Asked(raw)
    ensures var req := Taken(raw, order);
            && req.model == raw["model"].s && req.messages == raw["messages"].items
            && req.stream == ("stream" in raw && raw["stream"] == Bool(true))
            && ("max_completion_tokens" !in raw && Count(raw, "max_tokens") ==>
                req.maxTokens == raw["max_tokens"].n)
            && (Count(raw, "max_completion_tokens") && raw["max_completion_tokens"].n > 0 ==>
                req.maxTokens == raw["max_completion_tokens"].n)
            && (Missing(raw, "max_completion_tokens") && Missing(raw, "max_tokens") ==> req.maxTokens == 0)
  {
    ModelField(raw, order);
    MessagesField(raw, order);
    StreamField(raw, order);
    TokenLimit(raw, order);
  }

  /** Acceptance does not depend on the order; nor does the request, unless the
      two token limits are both there, the newer zero and the older not. */
  lemma OrderDoesNotMatter(raw: Raw, a: seq<string>, b: seq<string>)
    requires OrderOf(a, raw) && OrderOf(b, raw)
    ensures AllTyped(raw, a) && Complete(Taken(raw, a)) <==> AllTyped(raw, b) && Complete(Taken(raw, b))
    ensures !Ambiguous(raw) ==> Taken(raw, a) == Taken(raw, b)
  {
    ModelField(raw, a);
    ModelField(raw, b);
    MessagesField(raw, a);
    MessagesField(raw, b);
    StreamField(raw, a);
    StreamField(raw, b);
    assert Taken(raw, a).extra == Taken(raw, b).extra by {
      forall k ensures k in Taken(raw, a).extra <==> k in Taken(raw, b).extra {
        ExtraField(raw, a, k);
        ExtraField(raw, b, k);
      }
      forall k | k in Taken(raw, a).extra ensures Taken(raw, a).extra[k] == Taken(raw, b).extra[k] {
        ExtraField(raw, a, k);
        ExtraField(raw, b, k);
      }
    }
    TokenLimit(raw, a);
    TokenLimit(raw, b);
  }

  predicate Ambiguous(raw: Raw) {
    MAX_TOKENS in raw && MAX_COMPLETION in raw && Tokens(raw[MAX_COMPLETION]) == 0 && Tokens(raw[MAX_TOKENS]) != 0
  }

  ghost predicate Deterministic(raw: Raw) {
    forall a, b | OrderOf(a, raw) && OrderOf(b, raw) :: Taken(raw, a) == Taken(raw, b)
  }

  lemma LastTwo(raw: Raw, rest: seq<string>, x: string, y: string)
    requires (forall k | k in rest :: k in raw) && x in raw && y in raw
    ensures forall k | k in rest + [x, y] :: k in raw
    ensures Taken(raw, rest + [x, y]) == Take(Take(Taken(raw, rest), x, raw[x]), y, raw[y])
  {
    assert (rest + [x, y])[..|rest| + 1] == rest + [x] && (rest + [x])[..|rest|] == rest;
  }

  lemma LastTwoOrder(raw: Raw, rest: seq<string>, x: string, y: string)
    requires x in raw && y in raw && x != y
    requires Distinct(rest) && forall k :: k in rest <==> k in raw.Keys - {x, y}
    ensures OrderOf(rest + [x, y], raw)
  {
    var order := rest + [x, y];
    assert forall i | 0 <= i < |rest| :: order[i] == rest[i] && rest[i] in rest;
    forall k | k in raw ensures k in order {
      assert k in rest || k == x || k == y;
    }
  }

  lemma LimitsTaken(req: ChatRequest, older: Json, newer: Json)
    requires req.maxTokens == 0 && Tokens(newer) == 0
    ensures Take(Take(req, MAX_TOKENS, older), MAX_COMPLETION, newer).maxTokens == 0
    ensures Take(Take(req, MAX_COMPLETION, newer), MAX_TOKENS, older).maxTokens == Tokens(older)
  {
  }

  /** Zero for the newer limit: read last it stands, read first it is replaced. */
  lemma TwoReadings(raw: Raw) returns (a: seq<string>, b: seq<string>)
    requires Ambiguous(raw)
    ensures OrderOf(a, raw) && Taken(raw, a).maxTokens == 0
    ensures OrderOf(b, raw) && Taken(raw, b).maxTokens == Tokens(raw[MAX_TOKENS])
  {
    var rest := Enumerate(raw.Keys - {MAX_TOKENS, MAX_COMPLETION});
    TokenLimit(raw, rest);
    LastTwo(raw, rest, MAX_TOKENS, MAX_COMPLETION);
    LastTwo(raw, rest, MAX_COMPLETION, MAX_TOKENS);
    LastTwoOrder(raw, rest, MAX_TOKENS, MAX_COMPLETION);
    LastTwoOrder(raw, rest, MAX_COMPLETION, MAX_TOKENS);
    LimitsTaken(Taken(raw, rest), raw[MAX_TOKENS], raw[MAX_COMPLETION]);
    a, b := rest + [MAX_TOKENS, MAX_COMPLETION], rest + [MAX_COMPLETION, MAX_TOKENS];
  }

  /** Exactly then is the parsed request the same whatever order the map yields. */
  lemma DeterministicIff(raw: Raw)
    ensures Deterministic(raw) <==> !Ambiguous(raw)
  {
    if Ambiguous(raw) {
      var _, _ := TwoReadings(raw);
    } else {
      forall a, b | OrderOf(a, raw) && OrderOf(b, raw) ensures Taken(raw, a) == Taken(raw, b) {
        OrderDoesNotMatter(raw, a, b);
      }
    }
  }

  ghost function Enumerate(keys: set<string>): (order: seq<string>)
    ensures Distinct(order) && forall k :: k in order <==> k in keys
  {
    if keys == {} then []
    else
      var k :| k in keys;
      [k] + Enumerate(keys - {k})
  }
}
