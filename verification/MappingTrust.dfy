/** Which mapping sources a query expands with (expand_registry.go, expand.go). */
module MappingTrust {
  import opened Text
  import opened Nostr
  import opened VocabParse

  /** Concordance addresses, and authors whose every mapping is trusted. */
  datatype Trust = Trust(concordances: seq<string>, authors: seq<string>)

  /** What nip19.Decode makes of an `expand:` value. */
  datatype Decoded = Naddr(kind: Kind, pubkey: Hex32, d: string) | Npub(pubkey: Hex32) | OtherEntity | NotBech32

  datatype Options = Options(off: bool, related: bool, concordances: seq<string>, authors: seq<string>) {
    /** One `expand:` token; what cannot be read is ignored. */
    function Parse(decode: string -> Decoded, value: string): Options {
      if value == "off" then this.(off := true)
      else if value == "related" then this.(related := true)
      else
        match decode(value)
        case Naddr(kind, pubkey, d) =>
          if kind == KIND_CONCORDANCE then this.(concordances := concordances + [CoordString(Coord(kind, pubkey,
                d))]) else this
        case Npub(pubkey) => this.(authors := authors + [pubkey])
        case _ => this
    }

    /** Named concordances replace the default ones; authors are always the named ones. */
    function Trusted(defaults: Trust): Trust {
      Trust(if concordances != [] then concordances else defaults.concordances, authors)
    }
  }

  const NO_OPTIONS := Options(false, false, [], [])

  function ParseAll(decode: string -> Decoded, values: seq<string>): Options {
    if values == [] then NO_OPTIONS
    else ParseAll(decode, values[..|values| - 1]).Parse(decode, values[|values| - 1])
  }
}
