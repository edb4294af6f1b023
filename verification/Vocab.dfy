/** The NIP-VOCAB entities of vocabmap/parse.go: concepts (39738), mappings (39740) and concordances (39741). */
module Vocab {
  datatype Concept = Concept(id: string, address: string, schemes: seq<string>, broader: seq<string>,
                             narrower: seq<string>)

  datatype Mapping = Mapping(d: string, relation: string, from: string, to: seq<string>, fromScheme: string,
                             toScheme: string, partOf: string, author: string, schemes: seq<string>)

  datatype Concordance = Concordance(address: string, author: string, fromScheme: string, toScheme: string,
                                     maintainers: seq<string>, schemes: seq<string>)
}
