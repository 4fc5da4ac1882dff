/** What the index holds, in terms of the chunker's pieces and the embedder alone: the from-scratch build spelled out,
    and which documents an incremental run embeds again. */
module Contents {
  import opened Wrappers
  import opened Models
  import opened MemoryIndexes
  import opened DocStores
  import opened RunPlans
  import opened PlanFacts
  import opened Ingestion
  import opened Histories
  import opened Recovery

  // Among pieces of one document with the same text the last one stays.
  predicate IsLast(pieces: seq<Piece>, i: nat)
    requires i < |pieces|
  {
    forall j :: i < j < |pieces| ==> pieces[j].text != pieces[i].text
  }

  // The point of a piece: its own text, its document's URI, both metadata, its text's vector and its content's hash.
  function PieceOf(p: Pipeline, d: Doc, piece: Piece): Point {
    Point(p.sourceId, Sha256(d.content), Chunk(piece.text, d.uri, p.metadata(d.uri, d.content) + piece.metadata),
          p.embed(piece.text))
  }

  // Every listed document has a point for each of its texts, made from the last piece with it.
  predicate HoldsPieces(p: Pipeline, points: Points, docs: seq<Doc>) {
    forall d, i :: d in docs && 0 <= i < |p.pieces(d.uri, d.content)| && IsLast(p.pieces(d.uri, d.content), i) ==>
      var piece := p.pieces(d.uri, d.content)[i];
      PointId(d.uri, piece.text) in points && points[PointId(d.uri, piece.text)] == PieceOf(p, d, piece)
  }

  // A text of the document is indexed, under its own id and with its own vector.
  predicate Stands(p: Pipeline, points: Points, d: Doc, text: string) {
    var id := PointId(d.uri, text);
    && id in points && points[id].source == p.sourceId && points[id].hash == Sha256(d.content)
    && points[id].chunk.text == text && points[id].chunk.uri == d.uri && points[id].vector == p.embed(text)
  }

  // Every point of the source is such a point.
  predicate HoldsOnlyPieces(p: Pipeline, points: Points, docs: seq<Doc>) {
    forall id :: id in points && points[id].source == p.sourceId ==>
      exists d, i :: d in docs && 0 <= i < |p.pieces(d.uri, d.content)|
                     && id == PointId(d.uri, p.pieces(d.uri, d.content)[i].text)
  }

  lemma SameIdSameText(uri: Uri, s: string, t: string)
    requires PointId(uri, s) == PointId(uri, t)
    ensures s == t
  {
    assert PointId(uri, s)[|uri| + 1..] == s;
    assert PointId(uri, t)[|uri| + 1..] == t;
  }

  lemma {:induction false} LastUpsertStays(p: Pipeline, items: seq<Item>, i: nat)
    requires i < |items| && forall j :: i < j < |items| ==> IdOf(items[j].chunk) != IdOf(items[i].chunk)
    ensures IdOf(items[i].chunk) in UpsertAll(p, map[], items)
    ensures UpsertAll(p, map[], items)[IdOf(items[i].chunk)] == PointOf(p, items[i])
  {
    if i == |items| - 1 {
    } else {
      LastUpsertStays(p, items[..|items| - 1], i);
    }
  }

  lemma PieceIsStored(p: Pipeline, d: Doc, i: nat)
    requires i < |p.pieces(d.uri, d.content)| && IsLast(p.pieces(d.uri, d.content), i)
    ensures var id, points := PointId(d.uri, p.pieces(d.uri, d.content)[i].text), PointsOf(p, d.uri, d.content);
            id in points && points[id] == PieceOf(p, d, p.pieces(d.uri, d.content)[i])
  {
    var items := ItemsOf(p, d.uri, d.content);
    forall j | i < j < |items| ensures IdOf(items[j].chunk) != IdOf(items[i].chunk) {
      if IdOf(items[j].chunk) == IdOf(items[i].chunk) {
        SameIdSameText(d.uri, items[j].chunk.text, items[i].chunk.text);
        assert false;
      }
    }
    LastUpsertStays(p, items, i);
  }

  // The last piece with the text of a given one.
  lemma {:induction false} LastWithText(pieces: seq<Piece>, i: nat) returns (last: nat)
    requires i < |pieces|
    ensures i <= last < |pieces| && pieces[last].text == pieces[i].text && IsLast(pieces, last)
    decreases |pieces| - i
  {
    if j :| i < j < |pieces| && pieces[j].text == pieces[i].text {
      last := LastWithText(pieces, j);
    } else {
      last := i;
    }
  }

  lemma StoredIsPiece(p: Pipeline, d: Doc, id: string) returns (i: nat)
    requires id in PointsOf(p, d.uri, d.content)
    ensures i < |p.pieces(d.uri, d.content)| && IsLast(p.pieces(d.uri, d.content), i)
    ensures id == PointId(d.uri, p.pieces(d.uri, d.content)[i].text)
    ensures PointsOf(p, d.uri, d.content)[id] == PieceOf(p, d, p.pieces(d.uri, d.content)[i])
  {
    var j := UpsertedFrom(p, ItemsOf(p, d.uri, d.content), id);
    i := LastWithText(p.pieces(d.uri, d.content), j);
    PieceIsStored(p, d, i);
  }

  // The source's points are the from-scratch build exactly when they are the points of the listed documents' pieces.
  lemma RebuiltIffHoldsPieces(p: Pipeline, points: Points, docs: seq<Doc>)
    requires ValidSnapshot(docs)
    ensures SourcePoints(points, p.sourceId) == Scratch(p, docs)
            <==> HoldsPieces(p, points, docs) && HoldsOnlyPieces(p, points, docs)
  {
    if SourcePoints(points, p.sourceId) == Scratch(p, docs) {
      RebuiltHoldsPieces(p, points, docs);
      RebuiltHoldsOnlyPieces(p, points, docs);
    }
    if HoldsPieces(p, points, docs) && HoldsOnlyPieces(p, points, docs) {
      forall id { SamePoint(p, points, docs, id); }
    }
  }

  lemma RebuiltHoldsPieces(p: Pipeline, points: Points, docs: seq<Doc>)
    requires ValidSnapshot(docs) && SourcePoints(points, p.sourceId) == Scratch(p, docs)
    ensures HoldsPieces(p, points, docs)
  {
    forall d, i | d in docs && 0 <= i < |p.pieces(d.uri, d.content)| && IsLast(p.pieces(d.uri, d.content), i)
      ensures var piece := p.pieces(d.uri, d.content)[i];
              PointId(d.uri, piece.text) in points && points[PointId(d.uri, piece.text)] == PieceOf(p, d, piece)
    {
      var id := PointId(d.uri, p.pieces(d.uri, d.content)[i].text);
      PieceIsStored(p, d, i);
      ScratchPoint(p, docs, id);
      assert id in SourcePoints(points, p.sourceId);
    }
  }

  lemma RebuiltHoldsOnlyPieces(p: Pipeline, points: Points, docs: seq<Doc>)
    requires ValidSnapshot(docs) && SourcePoints(points, p.sourceId) == Scratch(p, docs)
    ensures HoldsOnlyPieces(p, points, docs)
  {
    forall id | id in points && points[id].source == p.sourceId
      ensures exists d, i :: d in docs && 0 <= i < |p.pieces(d.uri, d.content)|
                             && id == PointId(d.uri, p.pieces(d.uri, d.content)[i].text)
    {
      assert id in SourcePoints(points, p.sourceId);
      ScratchPoint(p, docs, id);
      var d :| d in docs && id in PointsOf(p, d.uri, d.content);
      var i := StoredIsPiece(p, d, id);
    }
  }

  lemma SamePoint(p: Pipeline, points: Points, docs: seq<Doc>, id: string)
    requires ValidSnapshot(docs) && HoldsPieces(p, points, docs) && HoldsOnlyPieces(p, points, docs)
    ensures id in SourcePoints(points, p.sourceId) <==> id in Scratch(p, docs)
    ensures id in Scratch(p, docs) ==> SourcePoints(points, p.sourceId)[id] == Scratch(p, docs)[id]
  {
    ScratchPoint(p, docs, id);
    if d :| d in docs && id in PointsOf(p, d.uri, d.content) {
      var i := StoredIsPiece(p, d, id);
    } else if id in SourcePoints(points, p.sourceId) {
      var d, i :| d in docs && 0 <= i < |p.pieces(d.uri, d.content)|
                  && id == PointId(d.uri, p.pieces(d.uri, d.content)[i].text);
      var last := LastWithText(p.pieces(d.uri, d.content), i);
      PieceIsStored(p, d, last);
      assert false;
    }
  }

  // What incremental ingestion comes to, without mention of plans or rebuilds: after any sequence of successful runs
  // over changing listings, every piece of every document listed last stands in the index under its own text, with that
  // text's vector and its content's hash, and the source has no other points.
  lemma IncrementalHoldsPieces(p: Pipeline, body: Bodies, w: World, events: seq<RunEvent>)
    requires WellFormed(w.points) && SourcePoints(w.points, p.sourceId) == map[] && KnownIn(p, w) == map[]
    requires forall i :: 0 <= i < |events| ==> Honest(body, events[i])
    requires events != [] && AllSucceed(p, w, events)
    ensures var points, docs := Replay(p, w, events).points, events[|events| - 1].snapshot;
            && HoldsPieces(p, points, docs) && HoldsOnlyPieces(p, points, docs)
            && forall d, i :: d in docs && 0 <= i < |p.pieces(d.uri, d.content)| ==>
                 Stands(p, points, d, p.pieces(d.uri, d.content)[i].text)
  {
    var points, docs := Replay(p, w, events).points, events[|events| - 1].snapshot;
    IncrementalRefinesFull(p, body, w, events);
    RebuiltIffHoldsPieces(p, points, docs);
    forall d, i | d in docs && 0 <= i < |p.pieces(d.uri, d.content)|
      ensures Stands(p, points, d, p.pieces(d.uri, d.content)[i].text)
    {
      var last := LastWithText(p.pieces(d.uri, d.content), i);
    }
  }

  // The same after failed runs, exactly: the pieces of the documents listed last are what the source holds if and
  // only if tracking the history leaves nothing lost.
  lemma RecoveredIffHoldsPieces(p: Pipeline, body: Bodies, w: World, events: seq<RunEvent>)
    requires Safe(p, body, w) && forall i :: 0 <= i < |events| ==> Honest(body, events[i])
    requires events != [] && LastSucceeds(p, w, events)
    ensures var points, docs := Replay(p, w, events).points, events[|events| - 1].snapshot;
            HoldsPieces(p, points, docs) && HoldsOnlyPieces(p, points, docs)
            <==> LostOver(p, w, events, Lost(p, w)) == {}
  {
    RecoversIffNothingLost(p, body, w, events);
    RebuiltIffHoldsPieces(p, Replay(p, w, events).points, events[|events| - 1].snapshot);
  }

  /* What a run embeds. */

  // The document was listed by an earlier run as it is now: by its fingerprint when both runs list, by its content when
  // the later one does not.
  predicate ListedBefore(e: RunEvent, f: RunEvent, d: Doc) {
    exists b :: b in e.snapshot && b.uri == d.uri
                && if f.listing then e.listing && b.fingerprint == d.fingerprint else b.content == d.content
  }

  predicate Embeds(p: Pipeline, w: World, f: RunEvent, uri: Uri, text: string) {
    exists k :: 0 <= k < |PlanIn(p, w, f).pending|
                && PlanIn(p, w, f).pending[k].chunk.uri == uri && PlanIn(p, w, f).pending[k].chunk.text == text
  }

  lemma KnownAfterSuccess(p: Pipeline, body: Bodies, w: World, e: RunEvent, d: Doc, listing: bool)
    requires Justified(body, KnownIn(p, w)) && Honest(body, e) && Succeeds(p, w, e)
    ensures var known := KnownIn(p, Step(p, w, e));
            Skips(known, listing, d) <==> ListedBefore(e, RunEvent([], listing, NoFault), d)
  {
    var known, f := KnownIn(p, Step(p, w, e)), RunEvent([], listing, NoFault);
    HonestEntriesHold(p, body, w, e);
    PlanClosedForm(p, KnownIn(p, w), e.listing, e.snapshot);
    if d.uri in known {
      var b :| b in e.snapshot && b.uri == d.uri;
      assert known[d.uri] == EntryAfter(KnownIn(p, w), e.listing, b);
      assert forall c :: c in e.snapshot && c.uri == d.uri ==> c == b;
    } else {
      assert forall c :: c in e.snapshot ==> c.uri in Uris(e.snapshot);
    }
  }

  lemma {:induction false} ItemsOfDoc(p: Pipeline, docs: seq<Doc>, d: Doc, j: nat) returns (k: nat)
    requires d in docs && j < |ItemsOf(p, d.uri, d.content)|
    ensures k < |AllItems(p, docs)| && AllItems(p, docs)[k] == ItemsOf(p, d.uri, d.content)[j]
  {
    var before := AllItems(p, docs[..|docs| - 1]);
    if d == docs[|docs| - 1] {
      k := |before| + j;
    } else {
      k := ItemsOfDoc(p, docs[..|docs| - 1], d, j);
    }
  }

  lemma SkipsWhatWasListed(p: Pipeline, body: Bodies, w: World, e: RunEvent, f: RunEvent)
    requires Justified(body, KnownIn(p, w)) && Honest(body, e) && Honest(body, f) && Succeeds(p, w, e)
    ensures var changed := Changed(KnownIn(p, Step(p, w, e)), f.listing, f.snapshot);
            PlanIn(p, Step(p, w, e), f).pending == AllItems(p, changed)
            && forall d :: d in changed <==> d in f.snapshot && !ListedBefore(e, f, d)
  {
    var known := KnownIn(p, Step(p, w, e));
    StepStaysJustified(p, body, w, e);
    HonestPending(p, body, Step(p, w, e), f);
    ChangedMembers(known, f.listing, f.snapshot);
    forall d ensures Skips(known, f.listing, d) <==> ListedBefore(e, f, d) {
      KnownAfterSuccess(p, body, w, e, d, f.listing);
    }
  }

  // The items of these documents hold a text under a URI exactly when one of them has it as a piece.
  lemma ItemsHoldText(p: Pipeline, docs: seq<Doc>, uri: Uri, text: string)
    ensures (exists k :: 0 <= k < |AllItems(p, docs)|
                         && AllItems(p, docs)[k].chunk.uri == uri && AllItems(p, docs)[k].chunk.text == text)
            <==> exists d, i :: d in docs && d.uri == uri && 0 <= i < |p.pieces(d.uri, d.content)|
                                && p.pieces(d.uri, d.content)[i].text == text
  {
    if k :| 0 <= k < |AllItems(p, docs)| && AllItems(p, docs)[k].chunk.uri == uri
            && AllItems(p, docs)[k].chunk.text == text
    {
      var d, j := PendingFrom(p, docs, k);
      assert p.pieces(d.uri, d.content)[j].text == text;
    }
    if d, i :| d in docs && d.uri == uri && 0 <= i < |p.pieces(d.uri, d.content)|
               && p.pieces(d.uri, d.content)[i].text == text
    {
      var k := ItemsOfDoc(p, docs, d, i);
    }
  }

  // After a success, the next run embeds and writes the pieces of exactly those documents that are not listed as they
  // were then.
  lemma EmbedsExactlyTheChanged(p: Pipeline, body: Bodies, w: World, e: RunEvent, f: RunEvent, uri: Uri, text: string)
    requires Justified(body, KnownIn(p, w)) && Honest(body, e) && Honest(body, f) && Succeeds(p, w, e)
    ensures Embeds(p, Step(p, w, e), f, uri, text)
            <==> exists d, i :: d in f.snapshot && d.uri == uri && 0 <= i < |p.pieces(d.uri, d.content)|
                                && p.pieces(d.uri, d.content)[i].text == text && !ListedBefore(e, f, d)
  {
    SkipsWhatWasListed(p, body, w, e, f);
    ItemsHoldText(p, Changed(KnownIn(p, Step(p, w, e)), f.listing, f.snapshot), uri, text);
  }
}
