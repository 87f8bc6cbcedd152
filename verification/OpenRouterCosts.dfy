/** Costs of imported OpenRouter usage: list prices reconciled with the total that was reported. */
module OpenRouterCosts {
  import opened Catalog
  import opened Domain
  import Text

  const EPSILON: real := 0.000000001
  const MILLION: real := 1_000_000.0

  datatype Import = Import(model: string, permaslug: string, invocations: int, price: Price, usage: real, byok: real)
  {
    function Reported(): real {
      usage + byok
    }
  }

  function PerMillion(tokens: int, price: real): real {
    tokens as real / MILLION * price
  }

  function Calculate(p: Price, tokens: Tokens, invocations: int): Result<Costs> {
    if Text.Trim(p.modelId) == "" then Err(Required("model_id"))
    else if !p.NonNegative() then Err(NegativeCost("price"))
    else if invocations < 0 then Err(NegativeCost("tool_invocations"))
    else NewCosts(PerMillion(tokens.input, p.input), PerMillion(tokens.output, p.output),
                  PerMillion(tokens.cacheRead, p.cacheRead), PerMillion(tokens.cacheWrite, p.cacheWrite),
                  invocations as real * p.tool, 0.0)
  }

  function NewTotalCosts(total: real): Result<Costs> {
    NewCosts(0.0, 0.0, 0.0, 0.0, 0.0, total)
  }

  predicate HasExplicitPricing(p: Price) {
    p.input > 0.0 || p.output > 0.0 || p.cacheRead > 0.0 || p.cacheWrite > 0.0 || p.tool > 0.0
  }

  function FirstNonEmpty(values: seq<string>): string {
    if values == [] then ""
    else if Text.Trim(values[0]) != "" then Text.Trim(values[0])
    else FirstNonEmpty(values[1..])
  }

  function Named(i: Import): Price {
    if Text.Trim(i.price.modelId) == "" then i.price.(modelId := FirstNonEmpty([i.permaslug, i.model])) else i.price
  }

  function Absolute(x: real): real {
    if x < 0.0 then -x else x
  }

  function BreakdownFromImport(i: Import, tokens: Tokens): Result<Costs> {
    var total := i.Reported();
    if total < 0.0 then Err(NegativeCost("total"))
    else if !HasExplicitPricing(i.price) then NewTotalCosts(total)
    else
      match Calculate(Named(i), tokens, i.invocations)
      case Err(x) => Err(x)
      case Ok(c) =>
        if total <= 0.0 then Ok(c)
        else if total + EPSILON < c.total then NewTotalCosts(total)
        else
          var adjustment := total - c.total;
          NewCosts(c.input, c.output, c.cacheRead, c.cacheWrite, c.tool,
                   if Absolute(adjustment) <= EPSILON then 0.0 else adjustment)
  }

  /** Every component is its own tokens at its own price for a million; tools are charged by invocation. */
  lemma CalculatedIs(p: Price, tokens: Tokens, invocations: int)
    requires Calculate(p, tokens, invocations).Ok?
    ensures var c := Calculate(p, tokens, invocations).value;
      && c.input * 1_000_000.0 == tokens.input as real * p.input
      && c.output * 1_000_000.0 == tokens.output as real * p.output
      && c.cacheRead * 1_000_000.0 == tokens.cacheRead as real * p.cacheRead
      && c.cacheWrite * 1_000_000.0 == tokens.cacheWrite as real * p.cacheWrite
      && c.tool == invocations as real * p.tool && c.flat == 0.0
      && c.total == c.input + c.output + c.cacheRead + c.cacheWrite + c.tool
  {
    hide Text.Trim;
    PerMillionIs(tokens.input, p.input);
    PerMillionIs(tokens.output, p.output);
    PerMillionIs(tokens.cacheRead, p.cacheRead);
    PerMillionIs(tokens.cacheWrite, p.cacheWrite);
    hide PerMillion;
  }

  lemma PerMillionIs(tokens: int, price: real)
    ensures PerMillion(tokens, price) * 1_000_000.0 == tokens as real * price
  {
  }

  /** A price is given when any of its five parts is positive. */
  lemma PricedIff(p: Price)
    ensures var parts := [p.input, p.output, p.cacheRead, p.cacheWrite, p.tool];
      HasExplicitPricing(p) <==> exists i :: 0 <= i < |parts| && parts[i] > 0.0
  {
    var parts := [p.input, p.output, p.cacheRead, p.cacheWrite, p.tool];
    assert parts[0] == p.input && parts[1] == p.output && parts[2] == p.cacheRead && parts[3] == p.cacheWrite
        && parts[4] == p.tool;
  }

  lemma ListPriceIsValid(p: Price, tokens: Tokens, invocations: int)
    requires p.NonNegative() && tokens.NonNegative() && invocations >= 0 && Text.Trim(p.modelId) != ""
    ensures Calculate(p, tokens, invocations).Ok? && Calculate(p, tokens, invocations).value.Valid()
  {
    hide Text.Trim;
    NonNegativePrice(tokens.input, p.input);
    NonNegativePrice(tokens.output, p.output);
    NonNegativePrice(tokens.cacheRead, p.cacheRead);
    NonNegativePrice(tokens.cacheWrite, p.cacheWrite);
    assert invocations as real * p.tool >= 0.0;
    hide PerMillion;
  }

  lemma NonNegativePrice(tokens: int, price: real)
    requires tokens >= 0 && price >= 0.0
    ensures PerMillion(tokens, price) >= 0.0
  {
  }

  /** What normalizeUsageImport has checked before: some model name, and token counts that are not negative. */
  predicate Checked(i: Import, tokens: Tokens) {
    FirstNonEmpty([i.permaslug, i.model]) != "" && tokens.Valid()
  }

  /** Exactly these imports are accepted; a price counts only when some component is positive. */
  lemma AcceptedIff(i: Import, tokens: Tokens)
    requires Checked(i, tokens)
    ensures BreakdownFromImport(i, tokens).Ok? <==>
      i.usage + i.byok >= 0.0 && (HasExplicitPricing(i.price) ==> i.price.NonNegative() && i.invocations >= 0)
  {
    NamedIsNamed(i);
    hide Text.Trim, FirstNonEmpty, PerMillion, Calculate, Price.NonNegative, HasExplicitPricing;
    if i.price.NonNegative() && i.invocations >= 0 {
      ListPriceIsValid(Named(i), tokens, i.invocations);
    } else {
      NoListPrice(Named(i), tokens, i.invocations);
    }
  }

  lemma NoListPrice(p: Price, tokens: Tokens, invocations: int)
    requires !p.NonNegative() || invocations < 0
    ensures Calculate(p, tokens, invocations).Err?
  {
  }

  lemma {:induction false} FirstIsTrimmed(values: seq<string>)
    ensures Text.Trim(FirstNonEmpty(values)) == FirstNonEmpty(values)
  {
    hide Text.Trim;
    if values == [] {
      assert Text.Trim("") == "" by { NothingToTrim(); }
    } else {
      Text.TrimIdempotent(values[0]);
      FirstIsTrimmed(values[1..]);
    }
  }

  lemma NothingToTrim()
    ensures Text.Trim("") == ""
  {
  }

  lemma NamedIsNamed(i: Import)
    requires FirstNonEmpty([i.permaslug, i.model]) != ""
    ensures Text.Trim(Named(i).modelId) != "" && (Named(i).NonNegative() <==> i.price.NonNegative())
  {
    hide Text.Trim, FirstNonEmpty;
    FirstIsTrimmed([i.permaslug, i.model]);
  }

  /** The costs at list price, where a price is given. */
  function ListTotal(i: Import, tokens: Tokens): real {
    match Calculate(Named(i), tokens, i.invocations)
    case Ok(c) => c.total
    case Err(_) => 0.0
  }

  /**
    * An accepted breakdown has no negative part and adds up. It comes to what was reported, within the tolerance,
    * exactly when something was reported, or no price is given, or the list prices come to nothing: with nothing
    * reported it is the list prices. It keeps the list prices unless they exceed what was reported; then all of it is
    * one flat amount.
    */
  lemma CostsReconciled(i: Import, tokens: Tokens)
    requires Checked(i, tokens) && BreakdownFromImport(i, tokens).Ok?
    ensures var c, total := BreakdownFromImport(i, tokens).value, i.usage + i.byok;
      && c.Valid()
      && (Absolute(c.total - total) <= 0.000000001 <==>
            total > 0.0 || !HasExplicitPricing(i.price) || ListTotal(i, tokens) <= 0.000000001)
      && (HasExplicitPricing(i.price) ==>
            var list := Calculate(Named(i), tokens, i.invocations).value;
            if total > 0.0 && total + 0.000000001 < list.total then c == NO_COSTS.(flat := total, total := total)
            else c.(flat := 0.0, total := 0.0) == list.(flat := 0.0, total := 0.0) && (total == 0.0 ==> c == list))
  {
    AcceptedIff(i, tokens);
    NamedIsNamed(i);
    if HasExplicitPricing(i.price) {
      ListPriceIsValid(Named(i), tokens, i.invocations);
      assert Calculate(Named(i), tokens, i.invocations).value.flat == 0.0;
    }
    hide Text.Trim, FirstNonEmpty, PerMillion, Calculate, Price.NonNegative, HasExplicitPricing, Named;
  }
}
