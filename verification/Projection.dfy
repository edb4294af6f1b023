/** Which search document an event becomes (content_ts.go, reindex.go, structured.go). */
module Projection {
  import opened Wrappers
  import opened Text
  import opened Nostr

  /** GenerateDocumentID. */
  function DocumentId(pubkey: Hex32, d: string): string {
    pubkey + ":" + d
  }

  /** tsDocIDFromEvent: an empty d value counts as no d tag. */
  function TsDocId(ev: Event): Option<string> {
    match First(ev.tags, "d")
    case Some(d) => if d == "" then None else Some(DocumentId(ev.pubkey, d))
    case None => None
  }

  /** ambDedupKey: the document id the projection itself assigns. It takes an empty d value as it is. */
  function AmbDedupKey(ev: Event): Option<string> {
    match First(ev.tags, "d")
    case Some(d) => Some(DocumentId(ev.pubkey, d))
    case None => None
  }

  const SHARED_COLLECTION_KINDS: set<Kind> := {30040, 30041, 30143, 30144, 30145, 31922, 31923, 31924, 31925}

  /** docIDFor: collections shared by several kinds fold the kind into the id. */
  function DocIdFor(kind: Kind, pubkey: Hex32, d: string): string {
    if kind in SHARED_COLLECTION_KINDS then Decimal(kind) + ":" + DocumentId(pubkey, d) else DocumentId(pubkey, d)
  }

  /** structuredDedupKey. */
  function StructuredDedupKey(ev: Event): Option<string> {
    if IsAddressable(ev.kind) then Some(DocIdFor(ev.kind, ev.pubkey, GetD(ev))) else None
  }

  lemma DocumentIdInjective(p: Hex32, d: string, q: Hex32, e: string)
    requires DocumentId(p, d) == DocumentId(q, e)
    ensures p == q && d == e
  {
    assert p == DocumentId(p, d)[..64] && q == DocumentId(q, e)[..64];
    assert d == DocumentId(p, d)[65..] && e == DocumentId(q, e)[65..];
  }

  /**
   Two addresses share a document id only if they are one address, or differ in kind alone and neither kind is
   in a shared collection: such kinds have a collection each.
   */
  lemma DocIdsDiffer(k: Kind, p: Hex32, d: string, l: Kind, q: Hex32, e: string)
    ensures DocIdFor(k, p, d) == DocIdFor(l, q, e) <==>
            p == q && d == e && (k == l || (k !in SHARED_COLLECTION_KINDS && l !in SHARED_COLLECTION_KINDS))
  {
    var a, b := DocumentId(p, d), DocumentId(q, e);
    if k in SHARED_COLLECTION_KINDS && l in SHARED_COLLECTION_KINDS {
      if DocIdFor(k, p, d) == DocIdFor(l, q, e) {
        CutAt(Decimal(k), ':', a);
        CutAt(Decimal(l), ':', b);
        assert Decimal(k) + [':'] + a == Decimal(l) + [':'] + b;
        DecimalRoundTrip(k);
        DecimalRoundTrip(l);
      }
    } else if k in SHARED_COLLECTION_KINDS {
      SharedIdDiffers(k, a, b, q);
    } else if l in SHARED_COLLECTION_KINDS {
      SharedIdDiffers(l, b, a, p);
    }
    if DocumentId(p, d) == DocumentId(q, e) {
      DocumentIdInjective(p, d, q, e);
    }
  }

  /** A document id has its first colon after 64 digits, one with a kind before it after at most five. */
  lemma SharedIdDiffers(k: Kind, a: string, b: string, q: Hex32)
    requires k in SHARED_COLLECTION_KINDS && q + ":" <= b
    ensures Decimal(k) + ":" + a != b
  {
    DecimalLength(k);
    var s := Decimal(k) + ":" + a;
    assert s[|Decimal(k)|] == ':';
    assert b[|Decimal(k)|] == (q + ":")[|Decimal(k)|] == q[|Decimal(k)|];
  }

  lemma DecimalLength(k: Kind)
    ensures |Decimal(k)| <= 5
  {
    assert |Decimal(k / 10000)| == 1;
    assert |Decimal(k / 1000)| <= 2;
    assert |Decimal(k / 100)| <= 3;
    assert |Decimal(k / 10)| <= 4;
  }

  /** The content key and the projection key of an event differ only on an empty d value. */
  lemma KeysDiffer(ev: Event)
    ensures TsDocId(ev) != AmbDedupKey(ev) <==> First(ev.tags, "d") == Some("")
    ensures TsDocId(ev).Some? ==> AmbDedupKey(ev) == TsDocId(ev)
  {
  }
}
