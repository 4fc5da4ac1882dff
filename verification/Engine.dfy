/** The engine: every stage in order, stopping at the first failure, and the run ledger
    (src/alvis/pipeline/engine.py). */
module Engine {
  import opened Wrappers
  import opened Models
  import opened MemoryIndexes
  import opened DocStores
  import opened RunPlans
  import opened PlanFacts
  import opened Stages

  // A context no stage has touched yet.
  predicate Fresh(ctx: RunContext)
    reads ctx
  {
    && ctx.Planned() == Plan(map[], map[], []) && ctx.fingerprints == map[] && ctx.artifacts == []
    && ctx.Tallied() == NO_TALLY && ctx.deleted == 0
  }

  // Fetch and extract: everything decided, nothing written.
  method Prepare(ctx: RunContext, snapshot: seq<Doc>, fault: Fault, ghost known: map<Uri, DocEntry>) returns (ok: bool)
    requires Fresh(ctx) && known == ctx.KnownEntries()
    modifies ctx
    ensures ok
         == !(fault.InFetch? || (fault.InExtract? && Stops(fault, known, ctx.UseListing(), snapshot, 0, false, false)))
    ensures ok ==> ctx.Planned() == PlanOf(ctx.pipeline, known, ctx.UseListing(), snapshot, ctx.index != null)
    ensures ok ==> ctx.Tallied() == TallyOf(ctx.pipeline, known, ctx.UseListing(), snapshot)
    ensures ctx.deleted == 0
  {
    ok := ctx.Fetch(snapshot, fault);
    if ok {
      TallyCloses(ctx.pipeline, known, ctx.UseListing(), snapshot);
      ok := ctx.Extract(fault);
    }
  }

  // Embed, upsert and reconcile, for a run with an index.
  method WriteIndex(ctx: RunContext, fault: Fault) returns (ok: bool)
    requires ctx.index != null
    modifies ctx`vectors, ctx.index
    ensures ok == !((fault.InEmbed? && ctx.pending != [])
                    || (fault.InUpsert? && fault.done < |ctx.pending|) || fault.InReconcile?)
    ensures ok ==> ctx.index.points == FinishedPoints(ctx.pipeline, old(ctx.index.points), ctx.Planned())
    ensures !ok ==> ctx.index.points == StoppedPoints(ctx.pipeline, old(ctx.index.points), ctx.Planned(), fault)
  {
    if ctx.pending != [] {
      ok := ctx.Embed(fault);
      if !ok { return; }
      ok := ctx.Upsert(fault);
      if !ok { return; }
    }
    ok := ctx.Reconcile(fault);
  }

  // Every stage before the commit.
  method Ingest(ctx: RunContext, snapshot: seq<Doc>, fault: Fault, ghost known: map<Uri, DocEntry>, ghost plan: Plan)
    returns (ok: bool)
    requires Fresh(ctx) && known == ctx.KnownEntries()
    requires plan == PlanOf(ctx.pipeline, known, ctx.UseListing(), snapshot, ctx.index != null)
    modifies ctx, ctx.index
    ensures ok == !Stops(fault, known, ctx.UseListing(), snapshot, |plan.pending|, ctx.index != null, false)
    ensures ctx.index != null ==>
              ctx.index.points == if ok then FinishedPoints(ctx.pipeline, old(ctx.index.points), plan)
                                  else StoppedPoints(ctx.pipeline, old(ctx.index.points), plan, fault)
    ensures ok ==> ctx.Planned() == plan && ctx.Tallied() == TallyOf(ctx.pipeline, known, ctx.UseListing(), snapshot)
  {
    ok := Prepare(ctx, snapshot, fault, known);
    if ok && ctx.index != null {
      ok := WriteIndex(ctx, fault);
    }
  }

  // Runs the stages. Nothing is committed unless every stage before the commit succeeded.
  method Execute(ctx: RunContext, snapshot: seq<Doc>, fault: Fault, ghost known: map<Uri, DocEntry>, ghost plan: Plan)
    returns (ok: bool)
    requires Fresh(ctx) && known == ctx.KnownEntries()
    requires plan == PlanOf(ctx.pipeline, known, ctx.UseListing(), snapshot, ctx.index != null)
    modifies ctx, ctx.index, ctx.docstore
    ensures ok
         == !Stops(fault, known, ctx.UseListing(), snapshot, |plan.pending|, ctx.index != null, ctx.docstore != null)
    ensures ctx.index != null ==>
              ctx.index.points == if ok then FinishedPoints(ctx.pipeline, old(ctx.index.points), plan)
                                  else StoppedPoints(ctx.pipeline, old(ctx.index.points), plan, fault)
    ensures ctx.docstore != null ==> ctx.docstore.runs == old(ctx.docstore.runs)
    ensures ctx.docstore != null ==>
              ctx.docstore.sources == if ok then Committed(ctx.pipeline, old(ctx.docstore.sources), plan)
                                      else old(ctx.docstore.sources)
    ensures ok ==> ctx.Tallied() == TallyOf(ctx.pipeline, known, ctx.UseListing(), snapshot)
    ensures ok && ctx.docstore != null ==>
              ctx.deleted == |Disappeared(old(ctx.docstore.sources), ctx.pipeline.sourceId, plan.entries)|
  {
    ok := Ingest(ctx, snapshot, fault, known, plan);
    if ok && ctx.docstore != null {
      ok := ctx.Commit(fault);
    }
  }

  // The ledger entry of a run.
  function RecordOf(ok: bool, t: Tally, deleted: nat): RunRecord {
    if ok then RunRecord(true, t.documents, t.indexed, t.changed, t.skipped, deleted) else FAILED_RUN
  }

  // A whole run with its ledger entry, which is written whether or not the run succeeds.
  method Run(p: Pipeline, docstore: DocStore?, index: MemoryIndex?, supportsListing: bool,
             snapshot: seq<Doc>, fault: Fault) returns (ok: bool)
    modifies index, docstore
    ensures var known, listing := old(KnownBefore(p, docstore)), docstore != null && supportsListing;
            var plan := PlanOf(p, known, listing, snapshot, index != null);
            && ok == !Stops(fault, known, listing, snapshot, |plan.pending|, index != null, docstore != null)
            && (index != null ==>
                  index.points == if ok then FinishedPoints(p, old(index.points), plan)
                                  else StoppedPoints(p, old(index.points), plan, fault))
            && (docstore != null ==>
                  docstore.sources == if ok then Committed(p, old(docstore.sources), plan) else old(docstore.sources))
    ensures index != null && docstore != null ==>
              (World(index.points, docstore.sources)
               == Step(p, old(World(index.points, docstore.sources)), RunEvent(snapshot, supportsListing, fault)))
    ensures docstore != null ==>
              var known := old(KnownBefore(p, docstore));
              var plan := PlanOf(p, known, supportsListing, snapshot, index != null);
              var record := RecordOf(ok, TallyOf(p, known, supportsListing, snapshot),
                                     |Disappeared(old(docstore.sources), p.sourceId, plan.entries)|);
              docstore.runs
                == old(docstore.runs)[p.sourceId := Newest([record] + History(old(docstore.runs), p.sourceId))]
  {
    ghost var known := KnownBefore(p, docstore);
    var ctx := new RunContext(p, docstore, index, supportsListing);
    ghost var plan := PlanOf(p, known, ctx.UseListing(), snapshot, index != null);
    ok := Execute(ctx, snapshot, fault, known, plan);
    if docstore != null {
      var record := RecordOf(ok, ctx.Tallied(), ctx.deleted);
      docstore.RecordRun(p.sourceId, record);
    }
  }

  /* What the ledger entry says, against what was stored and what is listed. */

  // The places of the listed documents whose stored fingerprint of the kind in use is unchanged.
  function UnchangedPlaces(known: map<Uri, DocEntry>, listing: bool, docs: seq<Doc>): set<int> {
    set i | 0 <= i < |docs| && docs[i].uri in known
            && (listing ==> known[docs[i].uri].listing == Some(docs[i].fingerprint))
            && (!listing ==> known[docs[i].uri].content == Sha256(docs[i].content))
  }

  // The stored documents of a source that are no longer listed.
  function Gone(sources: Sources, source: string, docs: seq<Doc>): set<Uri> {
    if source !in sources then {}
    else set uri | uri in sources[source].documents && forall i :: 0 <= i < |docs| ==> docs[i].uri != uri
  }

  // The pieces of all listed documents that are not unchanged.
  function PieceCount(p: Pipeline, known: map<Uri, DocEntry>, listing: bool, docs: seq<Doc>): nat {
    if docs == [] then 0
    else
      var d := docs[|docs| - 1];
      PieceCount(p, known, listing, docs[..|docs| - 1])
      + if UnchangedPlaces(known, listing, [d]) == {} then |p.pieces(d.uri, d.content)| else 0
  }

  lemma UnchangedIffSkips(known: map<Uri, DocEntry>, listing: bool, docs: seq<Doc>, i: nat)
    requires i < |docs|
    ensures i in UnchangedPlaces(known, listing, docs) <==> Skips(known, listing, docs[i])
  {
  }

  lemma UnchangedAlone(known: map<Uri, DocEntry>, listing: bool, d: Doc)
    ensures UnchangedPlaces(known, listing, [d]) == {} <==> !Skips(known, listing, d)
  {
    UnchangedIffSkips(known, listing, [d], 0);
    assert forall i :: i in UnchangedPlaces(known, listing, [d]) ==> i == 0;
  }

  lemma {:induction false} SkippedIsUnchanged(known: map<Uri, DocEntry>, listing: bool, docs: seq<Doc>)
    ensures |Skipped(known, listing, docs)| == |UnchangedPlaces(known, listing, docs)|
  {
    if docs == [] {
      assert UnchangedPlaces(known, listing, docs) == {};
    } else {
      var rest, last := docs[..|docs| - 1], |docs| - 1;
      SkippedIsUnchanged(known, listing, rest);
      UnchangedIffSkips(known, listing, docs, last);
      var before := UnchangedPlaces(known, listing, rest);
      assert last !in before;
      assert UnchangedPlaces(known, listing, docs) == before + if Skips(known, listing, docs[last]) then {last} else {};
    }
  }

  lemma {:induction false} ChangedPieces(p: Pipeline, known: map<Uri, DocEntry>, listing: bool, docs: seq<Doc>)
    ensures |AllItems(p, Changed(known, listing, docs))| == PieceCount(p, known, listing, docs)
  {
    if docs == [] {
    } else {
      var rest, d := docs[..|docs| - 1], docs[|docs| - 1];
      ChangedPieces(p, known, listing, rest);
      UnchangedAlone(known, listing, d);
      if !Skips(known, listing, d) {
        AllItemsSnoc(p, Changed(known, listing, rest), d);
      }
    }
  }

  // A successful run records the number of listed documents, of those unchanged and of the others, of the pieces of the
  // others, and of the stored documents that are no longer listed; a failed run records no counts.
  lemma RecordSays(p: Pipeline, sources: Sources, listing: bool, docs: seq<Doc>, indexed: bool, ok: bool)
    ensures var known := Known(sources, p.sourceId, p.signature);
            var entries := PlanOf(p, known, listing, docs, indexed).entries;
            var record := RecordOf(ok, TallyOf(p, known, listing, docs), |Disappeared(sources, p.sourceId, entries)|);
            var same := |UnchangedPlaces(known, listing, docs)|;
            && record.ok == ok
            && (!ok ==> record == RunRecord(false, 0, 0, 0, 0, 0))
            && (ok ==>
                  && record.documents == |docs| && record.skipped == same && record.changed == |docs| - same
                  && record.deleted == |Gone(sources, p.sourceId, docs)|
                  && (UniqueUris(docs) ==> record.chunks == PieceCount(p, known, listing, docs)))
  {
    var known := Known(sources, p.sourceId, p.signature);
    var entries := PlanOf(p, known, listing, docs, indexed).entries;
    EntriesAreListed(p, known, listing, docs, indexed);
    ChangedOrSkipped(known, listing, docs);
    SkippedIsUnchanged(known, listing, docs);
    ChangedPieces(p, known, listing, docs);
    DisappearedIsGone(sources, p.sourceId, docs, entries);
    if UniqueUris(docs) && listing {
      FetchedIsChanged(known, docs);
    }
  }

  lemma DisappearedIsGone(sources: Sources, source: string, docs: seq<Doc>, entries: map<Uri, DocEntry>)
    requires entries.Keys == Uris(docs)
    ensures Disappeared(sources, source, entries) == Gone(sources, source, docs)
  {
    if source in sources {
      forall uri ensures uri in Uris(docs) <==> exists i :: 0 <= i < |docs| && docs[i].uri == uri {
        if i :| 0 <= i < |docs| && docs[i].uri == uri {
          assert docs[i] in docs;
        }
      }
    }
  }
}
