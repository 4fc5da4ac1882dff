/** Optional values and success-or-error results. */
module Wrappers {
  datatype Option<+T> = None | Some(value: T)

  datatype Result<+T, +E> = Ok(value: T) | Err(error: E)
}

/** The values that flow through the pipeline (src/alvis/core). */
module Models {
  type Uri = string
  type Vector = seq<real>

  // A metadata value: a plain value with its text form, or a list of principals.
  datatype Value = Scalar(text: string) | List(items: seq<string>, text: string)
  type Metadata = map<string, Value>

  // The content hash, idealised as injective by keeping its preimage.
  datatype Digest = Sha256(preimage: string)

  // One document of a source at one moment: its URI, its listing fingerprint, its body.
  datatype Doc = Doc(uri: Uri, fingerprint: string, content: string)

  // A piece of text produced by the chunker, before the artifact's metadata is merged in.
  datatype Piece = Piece(text: string, metadata: Metadata)

  datatype Chunk = Chunk(text: string, uri: Uri, metadata: Metadata)

  datatype SearchHit = SearchHit(text: string, uri: Uri, metadata: Metadata, score: real)

  // A configured pipeline: where its documents come from and how one is transformed.
  datatype Pipeline = Pipeline(
    sourceId: string,
    signature: string,
    metadata: (Uri, string) -> Metadata,
    pieces: (Uri, string) -> seq<Piece>,
    embed: string -> Vector)

  function ContentHash(d: Doc): Digest {
    Sha256(d.content)
  }

  // The preimage of the uuid5 point id; uuid5 itself is idealised as injective.
  function PointId(uri: Uri, text: string): string {
    uri + "\n" + text
  }

  predicate OneLine(uri: Uri) {
    '\n' !in uri
  }

  // Two URIs can share a point id exactly when one is the other, or extends it past a newline.
  predicate Collide(u: Uri, v: Uri) {
    u == v || u + "\n" <= v || v + "\n" <= u
  }

  lemma {:induction false} OneLineUrisNeverShareIds(u: Uri, v: Uri, s: string, t: string)
    requires OneLine(u) && OneLine(v)
    requires PointId(u, s) == PointId(v, t)
    ensures u == v && s == t
  {
    var id := PointId(u, s);
    assert id == v + "\n" + t;
    assert id[|u|] == '\n' && id[|v|] == '\n';
    assert |u| == |v|;
    assert u == id[..|u|] && v == id[..|v|];
    assert s == id[|u| + 1..] && t == id[|v| + 1..];
  }

  lemma {:induction false} SharedIdCollides(u: Uri, s: string, v: Uri, t: string)
    requires PointId(u, s) == PointId(v, t)
    ensures Collide(u, v)
  {
    var id := PointId(u, s);
    assert id == v + "\n" + t;
    if |u| == |v| {
      assert u == id[..|u|] == v;
    } else if |u| < |v| {
      assert u + "\n" == id[..|u| + 1] == v[..|u| + 1];
    } else {
      assert v + "\n" == id[..|v| + 1] == u[..|v| + 1];
    }
  }

  // Exactly which pairs of URIs can produce the same point id for some pair of texts.
  lemma {:induction false} SharedIdIffCollide(u: Uri, v: Uri)
    ensures (exists s: string, t: string :: PointId(u, s) == PointId(v, t)) <==> Collide(u, v)
  {
    if u == v {
      assert PointId(u, "") == PointId(v, "");
    } else if u + "\n" <= v {
      assert PointId(u, v[|u| + 1..] + "\n") == PointId(v, "");
    } else if v + "\n" <= u {
      assert PointId(u, "") == PointId(v, u[|v| + 1..] + "\n");
    }
    forall s: string, t: string | PointId(u, s) == PointId(v, t)
      ensures Collide(u, v)
    {
      SharedIdCollides(u, s, v, t);
    }
  }
}
