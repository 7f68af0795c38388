/**
 The content-addressed point store and the index-or-reuse step in front of every search
 (src/embeddings/store.rs). The hash of a point's key is taken to be the key itself.
 */
module EmbeddingStores {
  import opened Common
  import opened ModelCalls

  const EMBED_BATCH_CHUNK_SIZE: nat := 16

  datatype Kind = DomainKind | EntityKind | PropertyKind

  datatype Payload = Payload(kind: Kind, domain: string, entity: Option<string>, property: Option<string>)

  datatype Passage = Passage(payload: Payload, text: string)

  datatype Point = Point(vector: Vector, payload: Payload)

  type Id = string

  type Points = map<Id, Point>

  datatype EmbedError = CallFailed | WrongCount(got: nat, asked: nat)

  // ---- point ids ----

  function KindName(k: Kind): string {
    match k
    case DomainKind => "domain"
    case EntityKind => "entity"
    case PropertyKind => "property"
  }

  function TextOr(o: Option<string>): string {
    match o case Some(s) => s case None => ""
  }

  /** The parts of a point's key, joined by `|`. */
  function Parts(model: string, dim: nat, p: Passage): seq<string> {
    [model, Decimal(dim), KindName(p.payload.kind), p.payload.domain, TextOr(p.payload.entity),
     TextOr(p.payload.property)]
  }

  function Joined(parts: seq<string>, text: string): string {
    if parts == [] then text else parts[0] + "|" + Joined(parts[1..], text)
  }

  function PointId(model: string, dim: nat, p: Passage): Id {
    Joined(Parts(model, dim, p), p.text)
  }
}
