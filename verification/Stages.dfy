/** The run as a fixed sequence of stages over one mutable context (src/alvis/pipeline/stages.py). */
module Stages {
  import opened Wrappers
  import opened Models
  import opened MemoryIndexes
  import opened DocStores
  import opened RunPlans

  // The documents a run may compare against; none without a document store.
  function KnownBefore(p: Pipeline, docstore: DocStore?): map<Uri, DocEntry>
    reads docstore
  {
    if docstore == null then map[] else Known(docstore.sources, p.sourceId, p.signature)
  }

  class RunContext {
    const pipeline: Pipeline
    const docstore: DocStore?
    const index: MemoryIndex?
    const supportsListing: bool

    var fingerprints: map<Uri, string>
    var artifacts: seq<Doc>
    var current: map<Uri, Digest>
    var entries: map<Uri, DocEntry>
    var pending: seq<Item>
    var vectors: seq<Vector>
    var documents: nat
    var indexed: nat
    var changed: nat
    var skipped: nat
    var deleted: nat

    constructor (pipeline: Pipeline, docstore: DocStore?, index: MemoryIndex?, supportsListing: bool)
      ensures this.pipeline == pipeline && this.docstore == docstore
      ensures this.index == index && this.supportsListing == supportsListing
      ensures fingerprints == map[] && artifacts == [] && Planned() == Plan(map[], map[], [])
      ensures vectors == [] && Tallied() == NO_TALLY && deleted == 0
    {
      this.pipeline, this.docstore, this.index, this.supportsListing := pipeline, docstore, index, supportsListing;
      fingerprints, artifacts, current, entries, pending, vectors := map[], [], map[], map[], [], [];
      documents, indexed, changed, skipped, deleted := 0, 0, 0, 0, 0;
    }

    function UseListing(): bool {
      docstore != null && supportsListing
    }

    function KnownEntries(): map<Uri, DocEntry>
      reads docstore
    {
      KnownBefore(pipeline, docstore)
    }

    function Planned(): Plan
      reads this
    {
      Plan(current, entries, pending)
    }

    function Tallied(): Tally
      reads this
    {
      Tally(documents, indexed, changed, skipped)
    }

    // One turn of the fetch loop: compare a listed document with its stored entry.
    method Compare(meta: Doc) returns (wanted: bool)
      requires docstore != null
      modifies this`fingerprints, this`documents, this`changed, this`skipped, this`current, this`entries
      ensures wanted == !Skips(KnownEntries(), true, meta)
      ensures fingerprints == old(fingerprints)[meta.uri := meta.fingerprint]
      ensures Tallied() == if wanted then old(Tallied()).(documents := old(documents) + 1, changed := old(changed) + 1)
                           else old(Tallied()).(documents := old(documents) + 1, skipped := old(skipped) + 1)
      ensures wanted ==> current == old(current) && entries == old(entries)
      ensures !wanted ==> current == old(current)[meta.uri := KnownEntries()[meta.uri].content]
      ensures !wanted ==> entries == old(entries)[meta.uri := KnownEntries()[meta.uri]]
    {
      fingerprints := fingerprints[meta.uri := meta.fingerprint];
      documents := documents + 1;
      var stored := docstore.Entry(pipeline.sourceId, pipeline.signature, meta.uri);
      if stored.Some? && stored.value.listing.Some? && stored.value.listing.value == meta.fingerprint {
        skipped := skipped + 1;
        current := current[meta.uri := stored.value.content];
        entries := entries[meta.uri := stored.value];
        wanted := false;
      } else {
        changed := changed + 1;
        wanted := true;
      }
    }

    method Fetch(snapshot: seq<Doc>, fault: Fault) returns (ok: bool)
      requires Planned() == Plan(map[], map[], []) && fingerprints == map[]
      requires Tallied() == NO_TALLY
      modifies this`fingerprints, this`artifacts, this`documents, this`changed, this`skipped, this`current, this`entries
      ensures ok == !fault.InFetch?
      ensures ok ==> artifacts == Fetched(KnownEntries(), UseListing(), snapshot)
      ensures ok ==> Planned() == FetchPlan(KnownEntries(), UseListing(), snapshot)
      ensures ok ==> fingerprints == if UseListing() then Fingerprints(snapshot) else map[]
      ensures ok ==> Tallied() == if UseListing() then TallyListed(KnownEntries(), snapshot) else NO_TALLY
    {
      if fault.InFetch? {
        return false;
      }
      artifacts := snapshot;
      if docstore != null && supportsListing {
        var wanted := {};
        ghost var known := KnownEntries();
        for i := 0 to |snapshot|
          invariant KnownEntries() == known
          invariant Planned() == FetchPlan(known, true, snapshot[..i])
          invariant fingerprints == Fingerprints(snapshot[..i])
          invariant wanted == Uris(Changed(known, true, snapshot[..i]))
          invariant Tallied() == TallyListed(known, snapshot[..i])
        {
          ListOne(known, snapshot, i);
          WantOne(known, snapshot, i);
          var want := Compare(snapshot[i]);
          if want {
            wanted := wanted + {snapshot[i].uri};
          }
        }
        assert snapshot[..|snapshot|] == snapshot;
        artifacts := Download(snapshot, wanted);
      }
      return true;
    }

    // The chunks of one artifact: each piece with its own text, counted, and kept with its hash for an index.
    method ChunkArtifact(artifact: Doc)
      modifies this`indexed, this`pending
      ensures var pieces := pipeline.pieces(artifact.uri, artifact.content);
              && indexed == old(indexed) + |pieces|
              && |pending| == |old(pending)| + (if index == null then 0 else |pieces|)
              && pending[..|old(pending)|] == old(pending)
              && forall i :: 0 <= i < |pieces| && index != null ==>
                   var metadata := pipeline.metadata(artifact.uri, artifact.content) + pieces[i].metadata;
                   pending[|old(pending)| + i]
                   == Item(Chunk(pieces[i].text, artifact.uri, metadata), Sha256(artifact.content))
      ensures pending == if index == null then old(pending)
                         else old(pending) + ItemsOf(pipeline, artifact.uri, artifact.content)
    {
      var hash, metadata := ContentHash(artifact), pipeline.metadata(artifact.uri, artifact.content);
      var pieces := pipeline.pieces(artifact.uri, artifact.content);
      ghost var items := ItemsOf(pipeline, artifact.uri, artifact.content);
      for i := 0 to |pieces|
        invariant indexed == old(indexed) + i
        invariant pending == if index == null then old(pending) else old(pending) + items[..i]
      {
        indexed := indexed + 1;
        if index != null {
          pending := pending + [Item(Chunk(pieces[i].text, artifact.uri, metadata + pieces[i].metadata), hash)];
          assert items[..i + 1] == items[..i] + [items[i]];
        }
      }
      assert items[..|pieces|] == items;
    }

    // One turn of the extract loop: hash an artifact, and extract it unless its content is unchanged.
    method ExtractArtifact(artifact: Doc, fails: bool) returns (ok: bool)
      modifies this`documents, this`changed, this`skipped, this`indexed, this`current, this`entries, this`pending
      ensures ok == !(fails && (UseListing() || !Skips(KnownEntries(), UseListing(), artifact)))
      ensures ok ==> Planned() == ExtractOne(pipeline, KnownEntries(), UseListing(), fingerprints, index != null,
                                             old(Planned()), artifact)
      ensures ok ==> Tallied() == TallyOne(pipeline, KnownEntries(), UseListing(), old(Tallied()), artifact)
    {
      var hash := ContentHash(artifact);
      current := current[artifact.uri := hash];
      if !UseListing() {
        documents := documents + 1;
        var stored := if docstore == null then None
                      else docstore.Entry(pipeline.sourceId, pipeline.signature, artifact.uri);
        if stored.Some? && stored.value.content == hash {
          skipped := skipped + 1;
          entries := entries[artifact.uri := DocEntry(hash, None)];
          return true;
        }
        changed := changed + 1;
      }
      var listed := if artifact.uri in fingerprints then Some(fingerprints[artifact.uri]) else None;
      entries := entries[artifact.uri := DocEntry(hash, listed)];
      if fails {
        return false;
      }
      ChunkArtifact(artifact);
      return true;
    }

    method Extract(fault: Fault) returns (ok: bool)
      modifies this`documents, this`changed, this`skipped, this`indexed, this`current, this`entries, this`pending
      ensures ok == !(fault.InExtract? && fault.at < |artifacts|
                      && (UseListing() || !Skips(KnownEntries(), UseListing(), artifacts[fault.at])))
      ensures ok ==> Planned() == ExtractPlan(pipeline, KnownEntries(), UseListing(), fingerprints, index != null,
                                              old(Planned()), artifacts)
      ensures ok ==> Tallied() == TallyAll(pipeline, KnownEntries(), UseListing(), old(Tallied()), artifacts)
    {
      ghost var known, start, listing := KnownEntries(), Planned(), UseListing();
      ghost var counted := Tallied();
      for i := 0 to |artifacts|
        invariant KnownEntries() == known
        invariant fault.InExtract? && fault.at < i ==> !listing && Skips(known, listing, artifacts[fault.at])
        invariant Planned() == ExtractPlan(pipeline, known, listing, fingerprints, index != null, start, artifacts[..i])
        invariant Tallied() == TallyAll(pipeline, known, listing, counted, artifacts[..i])
      {
        ExtractNext(pipeline, known, listing, fingerprints, index != null, start, counted, artifacts, i);
        ok := ExtractArtifact(artifacts[i], fault == InExtract(i));
        if !ok {
          return;
        }
      }
      assert artifacts[..|artifacts|] == artifacts;
      return true;
    }

    method Embed(fault: Fault) returns (ok: bool)
      modifies this`vectors
      ensures ok == !fault.InEmbed?
      ensures ok ==> |vectors| == |pending|
      ensures ok ==> forall i :: 0 <= i < |pending| ==> vectors[i] == pipeline.embed(pending[i].chunk.text)
    {
      if fault.InEmbed? {
        return false;
      }
      vectors := seq(|pending|, i requires 0 <= i < |pending| reads this => pipeline.embed(pending[i].chunk.text));
      return true;
    }

    method Upsert(fault: Fault) returns (ok: bool)
      requires index != null
      requires |vectors| == |pending|
      requires forall i :: 0 <= i < |pending| ==> vectors[i] == pipeline.embed(pending[i].chunk.text)
      modifies index
      ensures ok == !(fault.InUpsert? && fault.done < |pending|)
      ensures index.points == UpsertAll(pipeline, old(index.points), if ok then pending else pending[..fault.done])
    {
      for i := 0 to |pending|
        invariant index.points == UpsertAll(pipeline, old(index.points), pending[..i])
        invariant fault.InUpsert? ==> i <= fault.done
      {
        if fault == InUpsert(i) {
          return false;
        }
        assert pending[..i + 1][..i] == pending[..i];
        index.Upsert(pending[i].chunk, vectors[i], pipeline.sourceId, pending[i].hash);
      }
      assert pending[..|pending|] == pending;
      return true;
    }

    method Reconcile(fault: Fault) returns (ok: bool)
      requires index != null
      modifies index
      ensures ok == !fault.InReconcile?
      ensures index.points == if ok then Pruned(old(index.points), pipeline.sourceId, current) else old(index.points)
    {
      if fault.InReconcile? {
        return false;
      }
      index.Reconcile(pipeline.sourceId, current);
      return true;
    }

    method Commit(fault: Fault) returns (ok: bool)
      requires docstore != null
      modifies docstore`sources, this`deleted
      ensures ok == !fault.InCommit?
      ensures ok ==> docstore.sources ==
                     old(docstore.sources)[pipeline.sourceId := SourceState(pipeline.signature, entries)]
      ensures ok ==> deleted == |Disappeared(old(docstore.sources), pipeline.sourceId, entries)|
      ensures !ok ==> docstore.sources == old(docstore.sources) && deleted == old(deleted)
    {
      if fault.InCommit? {
        return false;
      }
      deleted := docstore.Commit(pipeline.sourceId, pipeline.signature, entries);
      return true;
    }
  }

  // One more listed document, in every function the fetch loop computes.
  lemma ListOne(known: map<Uri, DocEntry>, docs: seq<Doc>, i: nat)
    requires i < |docs|
    ensures Fingerprints(docs[..i + 1]) == Fingerprints(docs[..i])[docs[i].uri := docs[i].fingerprint]
    ensures Changed(known, true, docs[..i + 1])
         == if Skips(known, true, docs[i]) then Changed(known, true, docs[..i])
            else Changed(known, true, docs[..i]) + [docs[i]]
    ensures TallyListed(known, docs[..i + 1])
         == if Skips(known, true, docs[i])
            then TallyListed(known, docs[..i]).(documents := i + 1, skipped := |Skipped(known, true, docs[..i])| + 1)
            else TallyListed(known, docs[..i]).(documents := i + 1, changed := |Changed(known, true, docs[..i])| + 1)
    ensures Skips(known, true, docs[i]) ==>
              (FetchPlan(known, true, docs[..i + 1])
               == Plan(FetchPlan(known, true, docs[..i]).current[docs[i].uri := known[docs[i].uri].content],
                       FetchPlan(known, true, docs[..i]).entries[docs[i].uri := known[docs[i].uri]], []))
    ensures !Skips(known, true, docs[i]) ==>
              FetchPlan(known, true, docs[..i + 1]) == FetchPlan(known, true, docs[..i])
  {
    assert docs[..i + 1][..i] == docs[..i];
  }

  // The wanted URIs after one more listed document.
  lemma WantOne(known: map<Uri, DocEntry>, docs: seq<Doc>, i: nat)
    requires i < |docs|
    ensures Uris(Changed(known, true, docs[..i + 1]))
         == Uris(Changed(known, true, docs[..i])) + if Skips(known, true, docs[i]) then {} else {docs[i].uri}
  {
    assert docs[..i + 1][..i] == docs[..i];
    var before := Changed(known, true, docs[..i]);
    forall uri ensures uri in Uris(before + [docs[i]]) <==> uri in Uris(before) + {docs[i].uri} {
      assert docs[i] in before + [docs[i]];
      if uri in Uris(before) {
        var d :| d in before && d.uri == uri;
        assert d in before + [docs[i]];
      }
    }
  }

  lemma ExtractNext(p: Pipeline, known: map<Uri, DocEntry>, listing: bool, fingerprints: map<Uri, string>,
                    indexed: bool, start: Plan, counted: Tally, artifacts: seq<Doc>, i: nat)
    requires i < |artifacts|
    ensures ExtractPlan(p, known, listing, fingerprints, indexed, start, artifacts[..i + 1])
         == ExtractOne(p, known, listing, fingerprints, indexed,
                       ExtractPlan(p, known, listing, fingerprints, indexed, start, artifacts[..i]), artifacts[i])
    ensures TallyAll(p, known, listing, counted, artifacts[..i + 1])
         == TallyOne(p, known, listing, TallyAll(p, known, listing, counted, artifacts[..i]), artifacts[i])
  {
    assert artifacts[..i + 1][..i] == artifacts[..i];
  }
}
