/** The dashboard's coin and model catalogue: coins by case-insensitive
    symbol, models by the first catalogue entry having an identifier that
    occurs in the lower-cased model name, and the icon, name and colour
    getters with their fallbacks. Icons are the asset paths the bundler
    resolves. */
module Assets {
  import opened Wrappers
  import opened Text

  datatype CoinConfig = CoinConfig(symbol: string, fullName: string, icon: string)

  datatype ModelConfig = ModelConfig(identifiers: seq<string>, fullName: string, icon: string, color: string)

  const GPT_ICON: string := "~/assets/icons/model/gpt.png"

  const COINS: map<string, CoinConfig> := map[
    "BTC" := CoinConfig("BTC", "Bitcoin", "~/assets/icons/coin/btc.svg"),
    "ETH" := CoinConfig("ETH", "Ethereum", "~/assets/icons/coin/eth.svg"),
    "SOL" := CoinConfig("SOL", "Solana", "~/assets/icons/coin/sol.svg"),
    "BNB" := CoinConfig("BNB", "Binance Coin", "~/assets/icons/coin/bnb.svg"),
    "XRP" := CoinConfig("XRP", "XRP", "~/assets/icons/coin/xrp.svg"),
    "DOGE" := CoinConfig("DOGE", "Dogecoin", "~/assets/icons/coin/doge.svg")
  ]

  const GROQ: ModelConfig := ModelConfig(["groq", "grok"], "Groq", "~/assets/icons/model/groq.webp", "gray")
  const GPT: ModelConfig := ModelConfig(["gpt", "openai"], "GPT", GPT_ICON, "green")
  const CLAUDE: ModelConfig := ModelConfig(["claude", "anthropic"], "Claude", "~/assets/icons/model/claude.png", "orange")
  const GEMINI: ModelConfig := ModelConfig(["gemini", "google"], "Gemini", "~/assets/icons/model/gemini.webp", "sky")
  const DEEPSEEK: ModelConfig := ModelConfig(["deepseek"], "DeepSeek", "~/assets/icons/model/deepseek.png", "blue")
  const QWEN: ModelConfig := ModelConfig(["qwen"], "Qwen", "~/assets/icons/coin/qwen.png", "purple")

  /** The catalogue, in matching order. */
  const MODELS: seq<ModelConfig> := [GROQ, GPT, CLAUDE, GEMINI, DEEPSEEK, QWEN]

  /** `getCoinConfig`: the entry under the upper-cased symbol. */
  function GetCoinConfig(symbol: string): (r: Option<CoinConfig>)
    ensures r.Some? <==> Upper(symbol) in ["BTC", "ETH", "SOL", "BNB", "XRP", "DOGE"]
    ensures r.Some? ==> r.value.symbol == Upper(symbol)
  {
    var upperSymbol := Upper(symbol);
    if upperSymbol in COINS then Some(COINS[upperSymbol]) else None
  }

  lemma {:induction false} UpperIdempotent(s: string)
    ensures Upper(Upper(s)) == Upper(s)
  {
    var u := Upper(s);
    assert forall i :: 0 <= i < |u| ==> UpperChar(u[i]) == u[i];
  }

  /** The lookup ignores case: a symbol and its upper-cased form find the same
      entry. */
  lemma CoinLookupIgnoresCase(symbol: string)
    ensures GetCoinConfig(symbol) == GetCoinConfig(Upper(symbol))
  {
    UpperIdempotent(symbol);
  }

  /** `identifiers.some(id => nameLower.includes(id.toLowerCase()))`. */
  predicate Matches(m: ModelConfig, nameLower: string)
  {
    exists i :: 0 <= i < |m.identifiers| && Contains(nameLower, Lower(m.identifiers[i]))
  }

  /** The first entry from `models` that matches. */
  function FirstMatch(models: seq<ModelConfig>, nameLower: string): (r: Option<ModelConfig>)
    ensures r.None? <==> forall i :: 0 <= i < |models| ==> !Matches(models[i], nameLower)
    ensures r.Some? ==>
      (exists i :: 0 <= i < |models| && models[i] == r.value && Matches(r.value, nameLower) &&
        (forall j :: 0 <= j < i ==> !Matches(models[j], nameLower)))
  {
    if |models| == 0 then None
    else if Matches(models[0], nameLower) then Some(models[0])
    else
      var r := FirstMatch(models[1..], nameLower);
      assert forall i :: 1 <= i < |models| ==> models[i] == models[1..][i - 1];
      r
  }

  /** `identifiers.some(...)`, as the loop the source runs. */
  method AnyIdentifierMatches(m: ModelConfig, nameLower: string) returns (found: bool)
    ensures found <==> Matches(m, nameLower)
  {
    for i := 0 to |m.identifiers|
      invariant forall k :: 0 <= k < i ==> !Contains(nameLower, Lower(m.identifiers[k]))
    {
      if Contains(nameLower, Lower(m.identifiers[i])) {
        return true;
      }
    }
    return false;
  }

  /** The loop over a catalogue with an early return. */
  method FindModel(models: seq<ModelConfig>, nameLower: string) returns (r: Option<ModelConfig>)
    ensures r == FirstMatch(models, nameLower)
  {
    for i := 0 to |models|
      invariant FirstMatch(models, nameLower) == FirstMatch(models[i..], nameLower)
    {
      var model := models[i];
      var found := AnyIdentifierMatches(model, nameLower);
      assert models[i..][1..] == models[i + 1..];
      if found {
        return Some(model);
      }
    }
    return None;
  }

  /** `getModelConfig`: the catalogue searched with the lower-cased name. */
  method GetModelConfig(modelName: string) returns (r: Option<ModelConfig>)
    ensures r == FirstMatch(MODELS, Lower(modelName))
  {
    r := FindModel(MODELS, Lower(modelName));
  }

  function ModelConfigOf(modelName: string): Option<ModelConfig>
  {
    FirstMatch(MODELS, Lower(modelName))
  }

  /** An identifier with no upper-case letter is its own lower-cased form. */
  lemma LowerFixed(s: string)
    requires forall i :: 0 <= i < |s| ==> !('A' <= s[i] <= 'Z')
    ensures Lower(s) == s
  {
  }

  /** A name that mentions both GPT and Claude, and no Groq, resolves to
      GPT, the earlier entry. */
  lemma GptBeforeClaude(modelName: string)
    requires var n := Lower(modelName); Contains(n, "gpt") && Contains(n, "claude")
    requires var n := Lower(modelName); !Contains(n, "groq") && !Contains(n, "grok")
    ensures ModelConfigOf(modelName) == Some(GPT)
  {
    var n := Lower(modelName);
    GroqAbsent(n);
    GptPresent(n);
    SecondMatch(MODELS, n);
  }

  lemma GroqAbsent(n: string)
    requires !Contains(n, "groq") && !Contains(n, "grok")
    ensures !Matches(GROQ, n)
  {
    LowerFixed("groq");
    LowerFixed("grok");
  }

  lemma GptPresent(n: string)
    requires Contains(n, "gpt")
    ensures Matches(GPT, n)
  {
    LowerFixed("gpt");
    assert Contains(n, Lower(GPT.identifiers[0]));
  }

  lemma SecondMatch(models: seq<ModelConfig>, n: string)
    requires |models| >= 2 && !Matches(models[0], n) && Matches(models[1], n)
    ensures FirstMatch(models, n) == Some(models[1])
  {
    assert models[1..][0] == models[1];
  }

  function GetCoinIcon(symbol: string): (r: string)
    ensures GetCoinConfig(symbol).None? ==> r == ""
    ensures GetCoinConfig(symbol).Some? ==> r == GetCoinConfig(symbol).value.icon
  {
    match GetCoinConfig(symbol)
    case Some(c) => if c.icon != "" then c.icon else ""
    case None => ""
  }

  function GetCoinFullName(symbol: string): (r: string)
    ensures GetCoinConfig(symbol).None? ==> r == symbol
    ensures GetCoinConfig(symbol).Some? ==> r == GetCoinConfig(symbol).value.fullName
  {
    match GetCoinConfig(symbol)
    case Some(c) => if c.fullName != "" then c.fullName else symbol
    case None => symbol
  }

  /** No catalogue entry has an empty icon, name or colour, so the `||`
      fallbacks apply exactly when nothing matches. */
  lemma ModelEntriesNonEmpty()
    ensures forall i :: 0 <= i < |MODELS| ==>
      MODELS[i].icon != "" && MODELS[i].fullName != "" && MODELS[i].color != ""
  {
  }

  /** Whatever entry a name resolves to has a non-empty icon, name and
      colour. */
  lemma ResolvedEntryNonEmpty(modelName: string)
    ensures var c := ModelConfigOf(modelName);
      c.Some? ==> c.value.icon != "" && c.value.fullName != "" && c.value.color != ""
  {
    var c := ModelConfigOf(modelName);
    if c.Some? {
      var i :| 0 <= i < |MODELS| && MODELS[i] == c.value;
      ModelEntriesNonEmpty();
    }
  }

  function GetModelIcon(modelName: string): (r: string)
    ensures ModelConfigOf(modelName).None? ==> r == GPT_ICON
    ensures ModelConfigOf(modelName).Some? ==> r == ModelConfigOf(modelName).value.icon
  {
    ResolvedEntryNonEmpty(modelName);
    match ModelConfigOf(modelName)
    case Some(m) => if m.icon != "" then m.icon else GPT_ICON
    case None => GPT_ICON
  }

  function GetModelFullName(modelName: string): (r: string)
    ensures ModelConfigOf(modelName).None? ==> r == modelName
    ensures ModelConfigOf(modelName).Some? ==> r == ModelConfigOf(modelName).value.fullName
  {
    ResolvedEntryNonEmpty(modelName);
    match ModelConfigOf(modelName)
    case Some(m) => if m.fullName != "" then m.fullName else modelName
    case None => modelName
  }

  function GetModelColor(modelName: string): (r: string)
    ensures ModelConfigOf(modelName).None? ==> r == "blue"
    ensures ModelConfigOf(modelName).Some? ==> r == ModelConfigOf(modelName).value.color
  {
    ResolvedEntryNonEmpty(modelName);
    match ModelConfigOf(modelName)
    case Some(m) => if m.color != "" then m.color else "blue"
    case None => "blue"
  }
}
