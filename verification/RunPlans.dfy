/** What one run decides and writes, as functions of the stored state and the listed documents. */
module RunPlans {
  import opened Wrappers
  import opened Models
  import opened MemoryIndexes
  import opened DocStores

  // A chunk waiting to be embedded and written, with the hash of the content it came from.
  datatype Item = Item(chunk: Chunk, hash: Digest)

  // `current` and `entries` are the uri maps a run hands to reconcile and commit.
  datatype Plan = Plan(current: map<Uri, Digest>, entries: map<Uri, DocEntry>, pending: seq<Item>)

  // Where a run can stop: at a stage, at one artifact of extraction, or after some upserts.
  datatype Fault = NoFault | InFetch | InExtract(at: nat) | InEmbed | InUpsert(done: nat) | InReconcile | InCommit

  // The chunks of one body, with the artifact's metadata merged under each piece's own.
  function ItemsOf(p: Pipeline, uri: Uri, content: string): seq<Item> {
    var pieces := p.pieces(uri, content);
    seq(|pieces|, i requires 0 <= i < |pieces| =>
      Item(Chunk(pieces[i].text, uri, p.metadata(uri, content) + pieces[i].metadata), Sha256(content)))
  }

  function AllItems(p: Pipeline, docs: seq<Doc>): seq<Item> {
    if docs == [] then []
    else AllItems(p, docs[..|docs| - 1]) + ItemsOf(p, docs[|docs| - 1].uri, docs[|docs| - 1].content)
  }

  function PointOf(p: Pipeline, item: Item): Point {
    Point(p.sourceId, item.hash, item.chunk, p.embed(item.chunk.text))
  }

  function UpsertAll(p: Pipeline, points: Points, items: seq<Item>): Points {
    if items == [] then points
    else
      var last := items[|items| - 1];
      UpsertAll(p, points, items[..|items| - 1])[IdOf(last.chunk) := PointOf(p, last)]
  }

  // A document is skipped when its stored fingerprint of the kind in use is unchanged.
  predicate Skips(known: map<Uri, DocEntry>, listing: bool, d: Doc) {
    d.uri in known
    && if listing then known[d.uri].listing == Some(d.fingerprint) else known[d.uri].content == ContentHash(d)
  }

  function Changed(known: map<Uri, DocEntry>, listing: bool, docs: seq<Doc>): seq<Doc> {
    if docs == [] then []
    else
      var d := docs[|docs| - 1];
      var rest := Changed(known, listing, docs[..|docs| - 1]);
      if Skips(known, listing, d) then rest else rest + [d]
  }

  function Skipped(known: map<Uri, DocEntry>, listing: bool, docs: seq<Doc>): seq<Doc> {
    if docs == [] then []
    else
      var d := docs[|docs| - 1];
      var rest := Skipped(known, listing, docs[..|docs| - 1]);
      if Skips(known, listing, d) then rest + [d] else rest
  }

  // What the source returns when asked for these URIs only.
  function Download(docs: seq<Doc>, wanted: set<Uri>): seq<Doc> {
    if docs == [] then []
    else
      var d := docs[|docs| - 1];
      var rest := Download(docs[..|docs| - 1], wanted);
      if d.uri in wanted then rest + [d] else rest
  }

  function Uris(docs: seq<Doc>): set<Uri> {
    set d | d in docs :: d.uri
  }

  // The listing fingerprints by URI; a repeated URI keeps its last one.
  function Fingerprints(docs: seq<Doc>): map<Uri, string> {
    if docs == [] then map[]
    else Fingerprints(docs[..|docs| - 1])[docs[|docs| - 1].uri := docs[|docs| - 1].fingerprint]
  }

  // With a cheap listing only the changed URIs are downloaded, otherwise everything is.
  function Fetched(known: map<Uri, DocEntry>, listing: bool, docs: seq<Doc>): seq<Doc> {
    if listing then Download(docs, Uris(Changed(known, listing, docs))) else docs
  }

  // The entries carried over for documents skipped from their listing alone.
  function Carried(known: map<Uri, DocEntry>, docs: seq<Doc>): map<Uri, DocEntry> {
    if docs == [] then map[]
    else
      var rest := Carried(known, docs[..|docs| - 1]);
      var d := docs[|docs| - 1];
      if Skips(known, true, d) then rest[d.uri := known[d.uri]] else rest
  }

  function FetchPlan(known: map<Uri, DocEntry>, listing: bool, docs: seq<Doc>): Plan {
    if listing then
      var carried := Carried(known, docs);
      Plan(map uri | uri in carried :: carried[uri].content, carried, [])
    else Plan(map[], map[], [])
  }

  // Extraction of the fetched artifacts on top of what the fetch stage decided.
  function ExtractPlan(p: Pipeline, known: map<Uri, DocEntry>, listing: bool, fingerprints: map<Uri, string>,
                       indexed: bool, start: Plan, artifacts: seq<Doc>): Plan
  {
    if artifacts == [] then start
    else
      ExtractOne(p, known, listing, fingerprints, indexed,
                 ExtractPlan(p, known, listing, fingerprints, indexed, start, artifacts[..|artifacts| - 1]),
                 artifacts[|artifacts| - 1])
  }

  function ExtractOne(p: Pipeline, known: map<Uri, DocEntry>, listing: bool, fingerprints: map<Uri, string>,
                      indexed: bool, rest: Plan, d: Doc): Plan
  {
    var current := rest.current[d.uri := ContentHash(d)];
    if !listing && Skips(known, listing, d) then
      Plan(current, rest.entries[d.uri := DocEntry(ContentHash(d), None)], rest.pending)
    else
      var listed := if d.uri in fingerprints then Some(fingerprints[d.uri]) else None;
      Plan(current, rest.entries[d.uri := DocEntry(ContentHash(d), listed)],
           if indexed then rest.pending + ItemsOf(p, d.uri, d.content) else rest.pending)
  }

  // A run without an index keeps no chunks.
  function PlanOf(p: Pipeline, known: map<Uri, DocEntry>, listing: bool, docs: seq<Doc>, indexed: bool): Plan {
    ExtractPlan(p, known, listing, if listing then Fingerprints(docs) else map[], indexed,
                FetchPlan(known, listing, docs), Fetched(known, listing, docs))
  }

  // The documents a run extracts: whatever it downloaded, or what changed among all it fetched.
  function Processed(known: map<Uri, DocEntry>, listing: bool, docs: seq<Doc>): seq<Doc> {
    if listing then Fetched(known, listing, docs) else Changed(known, false, docs)
  }

  // The accounting of a run.
  datatype Tally = Tally(documents: nat, indexed: nat, changed: nat, skipped: nat)

  const NO_TALLY := Tally(0, 0, 0, 0)

  function TallyListed(known: map<Uri, DocEntry>, docs: seq<Doc>): Tally {
    Tally(|docs|, 0, |Changed(known, true, docs)|, |Skipped(known, true, docs)|)
  }

  // One extracted artifact more. With a listing it has been counted as a document before.
  function TallyOne(p: Pipeline, known: map<Uri, DocEntry>, listing: bool, t: Tally, d: Doc): Tally {
    var chunks := |ItemsOf(p, d.uri, d.content)|;
    if listing then t.(indexed := t.indexed + chunks)
    else if Skips(known, false, d) then t.(documents := t.documents + 1, skipped := t.skipped + 1)
    else Tally(t.documents + 1, t.indexed + chunks, t.changed + 1, t.skipped)
  }

  function TallyAll(p: Pipeline, known: map<Uri, DocEntry>, listing: bool, t: Tally, docs: seq<Doc>): Tally {
    if docs == [] then t
    else TallyOne(p, known, listing, TallyAll(p, known, listing, t, docs[..|docs| - 1]), docs[|docs| - 1])
  }

  // What a whole run counts.
  function TallyOf(p: Pipeline, known: map<Uri, DocEntry>, listing: bool, docs: seq<Doc>): Tally {
    Tally(|docs|, |AllItems(p, Processed(known, listing, docs))|, |Changed(known, listing, docs)|,
          |Skipped(known, listing, docs)|)
  }

  // Whether a fault really stops a run: stages that do not take part cannot fail.
  predicate Stops(fault: Fault, known: map<Uri, DocEntry>, listing: bool, docs: seq<Doc>,
                  pending: nat, indexed: bool, stored: bool)
  {
    match fault
    case NoFault => false
    case InFetch => true
    case InExtract(at) =>
      var artifacts := Fetched(known, listing, docs);
      at < |artifacts| && (listing || !Skips(known, listing, artifacts[at]))
    case InEmbed => indexed && pending > 0
    case InUpsert(done) => indexed && done < pending
    case InReconcile => indexed
    case InCommit => stored
  }

  // How much of the index work is done when a fault stops the run.
  function StoppedPoints(p: Pipeline, points: Points, plan: Plan, fault: Fault): Points {
    match fault
    case InUpsert(done) =>
      UpsertAll(p, points, if done <= |plan.pending| then plan.pending[..done] else plan.pending)
    case InReconcile => UpsertAll(p, points, plan.pending)
    case InCommit => Pruned(UpsertAll(p, points, plan.pending), p.sourceId, plan.current)
    case _ => points
  }

  function FinishedPoints(p: Pipeline, points: Points, plan: Plan): Points {
    Pruned(UpsertAll(p, points, plan.pending), p.sourceId, plan.current)
  }

  function Committed(p: Pipeline, sources: Sources, plan: Plan): Sources {
    sources[p.sourceId := SourceState(p.signature, plan.entries)]
  }

  // What a run reads and writes: the index and the document store.
  datatype World = World(points: Points, sources: Sources)

  // One run: what the source lists at that moment, whether it lists cheaply, and where it stops.
  datatype RunEvent = RunEvent(snapshot: seq<Doc>, listing: bool, fault: Fault)

  function KnownIn(p: Pipeline, w: World): map<Uri, DocEntry> {
    Known(w.sources, p.sourceId, p.signature)
  }

  function PlanIn(p: Pipeline, w: World, e: RunEvent): Plan {
    PlanOf(p, KnownIn(p, w), e.listing, e.snapshot, true)
  }

  predicate Succeeds(p: Pipeline, w: World, e: RunEvent) {
    !Stops(e.fault, KnownIn(p, w), e.listing, e.snapshot, |PlanIn(p, w, e).pending|, true, true)
  }

  function Step(p: Pipeline, w: World, e: RunEvent): World {
    var plan := PlanIn(p, w, e);
    if Succeeds(p, w, e) then World(FinishedPoints(p, w.points, plan), Committed(p, w.sources, plan))
    else World(StoppedPoints(p, w.points, plan, e.fault), w.sources)
  }
}
