/** Per-source document state for incremental ingestion (src/alvis/docstore.py). */
module DocStores {
  import opened Wrappers
  import opened Models

  datatype DocEntry = DocEntry(content: Digest, listing: Option<string>)

  datatype SourceState = SourceState(signature: string, documents: map<Uri, DocEntry>)

  datatype RunRecord = RunRecord(
    ok: bool, documents: nat, chunks: nat, changed: nat, skipped: nat, deleted: nat)

  type Sources = map<string, SourceState>

  const RUN_HISTORY: nat := 10

  const FAILED_RUN := RunRecord(false, 0, 0, 0, 0, 0)

  // The documents a run of this source under this signature may compare against.
  function Known(sources: Sources, source: string, signature: string): map<Uri, DocEntry> {
    if source in sources && sources[source].signature == signature then sources[source].documents else map[]
  }

  function Lookup(known: map<Uri, DocEntry>, uri: Uri): Option<DocEntry> {
    if uri in known then Some(known[uri]) else None
  }

  function History(runs: map<string, seq<RunRecord>>, source: string): seq<RunRecord> {
    if source in runs then runs[source] else []
  }

  // The newest records, at most RUN_HISTORY of them.
  function Newest(history: seq<RunRecord>): (kept: seq<RunRecord>)
    ensures kept <= history && |kept| == if |history| < 10 then |history| else 10
  {
    if |history| <= RUN_HISTORY then history else history[..RUN_HISTORY]
  }

  // Documents the previous state knew, under whatever signature, that are gone now.
  function Disappeared(sources: Sources, source: string, entries: map<Uri, DocEntry>): set<Uri> {
    if source in sources then sources[source].documents.Keys - entries.Keys else {}
  }

  class DocStore {
    var sources: Sources
    var runs: map<string, seq<RunRecord>>

    constructor (sources: Sources, runs: map<string, seq<RunRecord>>)
      ensures this.sources == sources && this.runs == runs
    {
      this.sources := sources;
      this.runs := runs;
    }

    function Entry(source: string, signature: string, uri: Uri): (entry: Option<DocEntry>)
      reads this
      ensures entry == Lookup(Known(sources, source, signature), uri)
    {
      if source !in sources then None
      else if sources[source].signature != signature then None
      else if uri !in sources[source].documents then None
      else Some(sources[source].documents[uri])
    }

    function LastRun(source: string): Option<RunRecord>
      reads this
    {
      var history := History(runs, source);
      if history == [] then None else Some(history[0])
    }

    // Everything this source knew is replaced, and no other source is touched.
    method Commit(source: string, signature: string, entries: map<Uri, DocEntry>) returns (deleted: nat)
      modifies this`sources
      ensures sources.Keys == old(sources).Keys + {source}
      ensures forall uri :: Entry(source, signature, uri) == Lookup(entries, uri)
      ensures forall other, sig, uri :: other != source || sig != signature ==>
                Entry(other, sig, uri) == if other == source then None else old(Entry(other, sig, uri))
      ensures sources == old(sources)[source := SourceState(signature, entries)]
      ensures deleted == |Disappeared(old(sources), source, entries)|
    {
      deleted := |Disappeared(sources, source, entries)|;
      sources := sources[source := SourceState(signature, entries)];
    }

    method RecordRun(source: string, record: RunRecord)
      modifies this`runs
      ensures runs == old(runs)[source := Newest([record] + History(old(runs), source))]
      ensures LastRun(source) == Some(record)
      ensures |History(runs, source)| <= RUN_HISTORY
    {
      var history := [record] + History(runs, source);
      if |history| > RUN_HISTORY {
        history := history[..RUN_HISTORY];
      }
      runs := runs[source := history];
    }
  }
}
