/** What a chat request is priced at before it is served, and what is charged
    for it afterwards (pkg/api/inference_handlers.go,
    pkg/inference/inference.go). Prices are reals, per million tokens. */
module Preflight {
  import opened Sums

  const OUTPUT_RESERVE := 2048

  datatype Model = Model(maxOutputTokens: int, inputPrice: real, outputPrice: real)

  /** The sizes in bytes of a request's messages and tool definitions. */
  datatype Request = Request(messages: seq<nat>, tools: nat, maxTokens: int)

  function Total(sizes: seq<nat>): nat {
    TotalIsNat(sizes);
    SumBy(sizes, (n: nat) => n)
  }

  lemma {:induction false} TotalIsNat(sizes: seq<nat>)
    ensures SumBy(sizes, (n: nat) => n) >= 0
  {
    if sizes != [] {
      TotalIsNat(sizes[..|sizes| - 1]);
    }
  }

  method EstimateTokens(req: Request) returns (tokens: nat)
    ensures tokens == Estimate(req)
  {
    var bytes: nat := 0;
    for i := 0 to |req.messages|
      invariant bytes == Total(req.messages[..i])
    {
      assert req.messages[..i + 1][..i] == req.messages[..i];
      bytes := bytes + req.messages[i];
    }
    assert req.messages[..|req.messages|] == req.messages;
    bytes := bytes + req.tools;
    tokens := bytes / 4 + |req.messages| * 4;
  }

  function Estimate(req: Request): nat {
    (Total(req.messages) + req.tools) / 4 + |req.messages| * 4
  }

  /** The estimate is a quarter of the bytes, rounded down, and four for each
      message. */
  lemma EstimateIs(req: Request)
    ensures var bytes := SumBy(req.messages, (n: nat) => n) + req.tools;
            4 * (Estimate(req) - 4 * |req.messages|) <= bytes < 4 * (Estimate(req) - 4 * |req.messages|) + 4
  {
  }

  /** The output that is priced: the request's limit or the model's, whichever
      is tighter, but no more than the reserve. */
  function PricedOutput(model: Model, maxTokens: int): (out: nat)
    ensures 0 < out <= OUTPUT_RESERVE
    ensures maxTokens > 0 ==> out <= maxTokens
    ensures model.maxOutputTokens > 0 ==> out <= model.maxOutputTokens
    ensures out == OUTPUT_RESERVE || out == maxTokens || out == model.maxOutputTokens
  {
    var out := if maxTokens <= 0 || (model.maxOutputTokens > 0 && maxTokens > model.maxOutputTokens)
               then model.maxOutputTokens else maxTokens;
    if out <= 0 || out > OUTPUT_RESERVE then OUTPUT_RESERVE else out
  }

  function Cost(tokens: int, perMillion: real): real {
    tokens as real / 1000000.0 * perMillion
  }

  function PreflightCost(model: Model, req: Request): real {
    Cost(Estimate(req), model.inputPrice) + Cost(PricedOutput(model, req.maxTokens), model.outputPrice)
  }

  // ---------------------------------------------------------------------
  // Settling
  // ---------------------------------------------------------------------

  datatype Usage = Usage(input: int, output: int)

  /** Whether the writes for a line work. */
  datatype Writes = Writes(record: bool, consume: bool)

  datatype Line = Line(tokens: int, perMillion: real, writes: Writes)

  function Lines(model: Model, usage: Usage, input: Writes, output: Writes): seq<Line> {
    [Line(usage.input, model.inputPrice, input), Line(usage.output, model.outputPrice, output)]
  }

  /** What is drawn from the account's credit for one line. */
  function Drawn(l: Line): real {
    if l.tokens > 0 && l.writes.record && Cost(l.tokens, l.perMillion) > 0.0 && l.writes.consume
    then Cost(l.tokens, l.perMillion) else 0.0
  }

  function AllDrawn(ls: seq<Line>): real {
    if ls == [] then 0.0 else AllDrawn(ls[..|ls| - 1]) + Drawn(ls[|ls| - 1])
  }

  /** What is recorded for one line. */
  function Recorded(l: Line): seq<real> {
    if l.tokens > 0 && l.writes.record then [Cost(l.tokens, l.perMillion)] else []
  }

  function AllRecorded(ls: seq<Line>): seq<real> {
    if ls == [] then [] else AllRecorded(ls[..|ls| - 1]) + Recorded(ls[|ls| - 1])
  }

  class Account {
    var recorded: seq<real>
    var drawn: real

    method Settle(model: Model, usage: Usage, input: Writes, output: Writes)
      modifies this
      ensures drawn == old(drawn) + AllDrawn(Lines(model, usage, input, output))
      ensures recorded == old(recorded) + AllRecorded(Lines(model, usage, input, output))
    {
      var lines := Lines(model, usage, input, output);
      for i := 0 to |lines|
        invariant drawn == old(drawn) + AllDrawn(lines[..i])
        invariant recorded == old(recorded) + AllRecorded(lines[..i])
      {
        var l := lines[i];
        assert lines[..i + 1][..i] == lines[..i];
        if l.tokens <= 0 {
          continue;
        }
        var cost := Cost(l.tokens, l.perMillion);
        if !l.writes.record {
          continue;
        }
        recorded := recorded + [cost];
        if cost > 0.0 {
          if l.writes.consume {
            drawn := drawn + cost;
          }
        }
      }
      assert lines[..|lines|] == lines;
    }
  }

  /** Settling records and draws, for input and output by themselves, their
      tokens at their price per million: recorded if there are any and the
      record can be written, drawn if it has also been recorded, costs
      something, and can be drawn. */
  lemma SettlementIs(model: Model, usage: Usage, input: Writes, output: Writes)
    ensures var (i, o) := (usage.input as real / 1000000.0 * model.inputPrice,
                           usage.output as real / 1000000.0 * model.outputPrice);
            && AllRecorded(Lines(model, usage, input, output)) ==
               (if usage.input > 0 && input.record then [i] else []) + (if usage.output > 0 && output.record then [o] else [])
            && AllDrawn(Lines(model, usage, input, output)) ==
               (if usage.input > 0 && input.record && input.consume && i > 0.0 then i else 0.0)
               + (if usage.output > 0 && output.record && output.consume && o > 0.0 then o else 0.0)
  {
    var a, b := Line(usage.input, model.inputPrice, input), Line(usage.output, model.outputPrice, output);
    TwoLines(a, b);
    TwoRecords(a, b);
    assert Lines(model, usage, input, output) == [a, b];
    var i, o := usage.input as real / 1000000.0 * model.inputPrice, usage.output as real / 1000000.0 * model.outputPrice;
    assert Cost(a.tokens, a.perMillion) == i && Cost(b.tokens, b.perMillion) == o;
    assert Recorded(a) == if usage.input > 0 && input.record then [i] else [];
    assert Recorded(b) == if usage.output > 0 && output.record then [o] else [];
  }

  lemma TwoRecords(a: Line, b: Line)
    ensures AllRecorded([a, b]) == Recorded(a) + Recorded(b)
  {
    assert [a, b][..1] == [a] && [a][..0] == [];
    assert AllRecorded([a]) == Recorded(a);
  }

  /** The price asked for before serving. */
  lemma PreflightIs(model: Model, req: Request)
    ensures PreflightCost(model, req) ==
            Estimate(req) as real / 1000000.0 * model.inputPrice
            + PricedOutput(model, req.maxTokens) as real / 1000000.0 * model.outputPrice
  {
  }

  lemma CostIsMonotone(a: int, b: int, price: real)
    requires a <= b && price >= 0.0
    ensures Cost(a, price) <= Cost(b, price)
  {
    var x, y := a as real / 1000000.0, b as real / 1000000.0;
    assert y - x >= 0.0;
    assert (y - x) * price >= 0.0;
  }

  /** Within its bound, a line draws no more than the bound was priced at. */
  lemma DrawnWithin(l: Line, bound: nat)
    requires l.tokens <= bound && l.perMillion >= 0.0
    ensures Drawn(l) <= Cost(bound, l.perMillion)
  {
    CostIsMonotone(l.tokens, bound, l.perMillion);
    CostIsMonotone(0, bound, l.perMillion);
    assert Cost(0, l.perMillion) == 0.0;
  }

  /** Whatever writes fail, the credit drawn never exceeds the pre-flight price,
      if the input was not under-estimated and the output stayed within what
      was priced. */
  lemma SettledWithinPreflight(model: Model, req: Request, usage: Usage, input: Writes, output: Writes)
    requires model.inputPrice >= 0.0 && model.outputPrice >= 0.0
    requires usage.input <= Estimate(req) && usage.output <= PricedOutput(model, req.maxTokens)
    ensures AllDrawn(Lines(model, usage, input, output)) <= PreflightCost(model, req)
  {
    var ls := Lines(model, usage, input, output);
    TwoLines(ls[0], ls[1]);
    DrawnWithin(ls[0], Estimate(req));
    DrawnWithin(ls[1], PricedOutput(model, req.maxTokens));
  }

  lemma TwoLines(a: Line, b: Line)
    ensures AllDrawn([a, b]) == Drawn(a) + Drawn(b)
  {
    assert [a, b][..1] == [a] && [a][..0] == [];
    assert AllDrawn([a]) == Drawn(a);
  }

  /** The model at other prices. */
  function Priced(model: Model, inputPrice: real, outputPrice: real): Model {
    model.(inputPrice := inputPrice, outputPrice := outputPrice)
  }

  ghost predicate NeverOverdrawn(model: Model, req: Request, usage: Usage, w: Writes) {
    forall i: real, o: real | i >= 0.0 && o >= 0.0 ::
      AllDrawn(Lines(Priced(model, i, o), usage, w, w)) <= PreflightCost(Priced(model, i, o), req)
  }

  /** And that is exactly when the check made before serving holds good at any
      price. */
  lemma PreflightBoundsIff(model: Model, req: Request, usage: Usage)
    ensures NeverOverdrawn(model, req, usage, Writes(true, true)) <==>
            usage.input <= Estimate(req) && usage.output <= PricedOutput(model, req.maxTokens)
  {
    var w := Writes(true, true);
    if usage.input <= Estimate(req) && usage.output <= PricedOutput(model, req.maxTokens) {
      forall i: real, o: real | i >= 0.0 && o >= 0.0
        ensures AllDrawn(Lines(Priced(model, i, o), usage, w, w)) <= PreflightCost(Priced(model, i, o), req)
      {
        SettledWithinPreflight(Priced(model, i, o), req, usage, w, w);
      }
    } else {
      var i, o := if usage.input > Estimate(req) then 1000000.0 else 0.0,
                  if usage.input > Estimate(req) then 0.0 else 1000000.0;
      var ls := Lines(Priced(model, i, o), usage, w, w);
      TwoLines(ls[0], ls[1]);
      assert AllDrawn(ls) > PreflightCost(Priced(model, i, o), req);
    }
  }
}
