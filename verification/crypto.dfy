/** The market entry record (`CryptoData` in src/types/crypto.ts), restricted to the
    fields that the modelled logic reads, and the optional-value wrapper used for
    nullable fields. Prices and percentages are `real`: IEEE doubles, NaN and the
    infinities are not modelled. */
module Crypto {

  datatype Option<T> = None | Some(value: T)

  datatype Entry = Entry(
    id: string,              // `id`: the key the converter looks prices up by
    name: string,            // `name`
    symbol: string,          // `symbol`
    currentPrice: real,      // `current_price`
    priceChange24h: real     // `price_change_percentage_24h`
  )
}
