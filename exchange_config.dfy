/** The trading universe: which perpetual futures symbols exist, which of them
    the ledger accepts, and the per-symbol trading parameters. */
module ExchangeConfig {

  /** The six symbols of the `PerpetualFuturesSymbol` union type. */
  const ALL_SYMBOLS: seq<string> := ["BTCUSDT", "ETHUSDT", "SOLUSDT", "BNBUSDT", "XRPUSDT", "DOGEUSDT"]

  type PerpetualFuturesSymbol = s: string | s in ALL_SYMBOLS witness "BTCUSDT"

  /** The symbols currently traded (the full list is commented out in the
      configuration). */
  const TRADING_SYMBOLS: seq<PerpetualFuturesSymbol> := ["ETHUSDT"]

  datatype SymbolConfig = SymbolConfig(
    symbol: string,
    displayName: string,
    defaultLeverage: int,
    minOrderSize: real,
    pricePrecision: int,
    quantityPrecision: int)

  const SYMBOL_CONFIGS: map<string, SymbolConfig> := map[
    "BTCUSDT" := SymbolConfig("BTCUSDT", "Bitcoin Perpetual", 10, 0.001, 2, 3),
    "ETHUSDT" := SymbolConfig("ETHUSDT", "Ethereum Perpetual", 10, 0.01, 2, 2),
    "SOLUSDT" := SymbolConfig("SOLUSDT", "Solana Perpetual", 10, 0.1, 3, 1),
    "BNBUSDT" := SymbolConfig("BNBUSDT", "BNB Perpetual", 10, 0.01, 2, 2),
    "XRPUSDT" := SymbolConfig("XRPUSDT", "XRP Perpetual", 10, 1.0, 5, 1),
    "DOGEUSDT" := SymbolConfig("DOGEUSDT", "DOGE Perpetual", 10, 1.0, 6, 0)
  ]

  /** The configuration record of a symbol: it names that symbol, uses the
      default leverage 10, non-negative precisions and a positive minimum
      order size. */
  function GetSymbolConfig(symbol: PerpetualFuturesSymbol): (c: SymbolConfig)
    ensures c.symbol == symbol
    ensures c.defaultLeverage == 10
    ensures c.pricePrecision >= 0 && c.quantityPrecision >= 0
    ensures c.minOrderSize > 0.0
  {
    SYMBOL_CONFIGS[symbol]
  }

  /** `TRADING_SYMBOLS.includes(symbol)`; with the current configuration only
      ETHUSDT passes. */
  function IsSupportedSymbol(symbol: string): (r: bool)
    ensures r <==> symbol in TRADING_SYMBOLS
    ensures r <==> symbol == "ETHUSDT"
    ensures r ==> symbol in ALL_SYMBOLS
  {
    symbol in TRADING_SYMBOLS
  }

  /** The configuration table has exactly one entry per known symbol. */
  lemma SymbolConfigsCoverAllSymbols()
    ensures SYMBOL_CONFIGS.Keys == set s | s in ALL_SYMBOLS
    ensures forall s :: s in SYMBOL_CONFIGS ==> SYMBOL_CONFIGS[s].symbol == s
  {
  }
}
