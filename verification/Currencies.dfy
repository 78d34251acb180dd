/** The currencies of the bridge and the Stellar assets behind some of them. */
module Currencies {
  import opened Wrappers

  type Key(==, !new)
  type Code4(==, !new)
  type Code12(==, !new)

  datatype Asset = NativeAsset | AlphaNum4(code4: Code4, issuer4: Key) | AlphaNum12(code12: Code12, issuer12: Key)

  datatype CurrencyId =
    | XCM(index: nat)
    | NativeToken
    | Stellar(asset: Asset)
    | LiquidityToken(pair: nat)
    | Token(id: nat)

  /** `AssetConversion::lookup`: only Stellar currencies have a Stellar asset. */
  function LookupAsset(currency: CurrencyId): Option<Asset> {
    if currency.Stellar? then Some(currency.asset) else None
  }
}
