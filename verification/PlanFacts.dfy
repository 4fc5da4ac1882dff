/** How a run's upserts add up, and what a plan comes to when every URI is listed once. */
module PlanFacts {
  import opened Wrappers
  import opened Models
  import opened MemoryIndexes
  import opened DocStores
  import opened RunPlans

  // The points one document contributes to an empty index.
  function PointsOf(p: Pipeline, uri: Uri, content: string): Points {
    UpsertAll(p, map[], ItemsOf(p, uri, content))
  }

  // A chunk carries its artifact's metadata, except where its own says otherwise.
  lemma ChunkMetadataWins(p: Pipeline, uri: Uri, content: string, i: nat, key: string)
    requires i < |p.pieces(uri, content)|
    ensures var own, artifact := p.pieces(uri, content)[i].metadata, p.metadata(uri, content);
            var merged := ItemsOf(p, uri, content)[i].chunk.metadata;
            && (key in merged <==> key in own || key in artifact)
            && (key in merged ==> merged[key] == if key in own then own[key] else artifact[key])
  {
  }

  predicate UniqueUris(docs: seq<Doc>) {
    forall i, j :: 0 <= i < j < |docs| ==> docs[i].uri != docs[j].uri
  }

  // What a listing must satisfy for its documents to have separate points.
  predicate ValidSnapshot(docs: seq<Doc>) {
    UniqueUris(docs) && forall i :: 0 <= i < |docs| ==> OneLine(docs[i].uri)
  }

  lemma {:induction false} UpsertsOverlay(p: Pipeline, points: Points, items: seq<Item>)
    ensures UpsertAll(p, points, items) == points + UpsertAll(p, map[], items)
  {
    if items == [] {
    } else {
      UpsertsOverlay(p, points, items[..|items| - 1]);
    }
  }

  lemma UpdateRight(left: Points, right: Points, id: string, point: Point)
    ensures (left + right)[id := point] == left + right[id := point]
  {
  }

  lemma {:induction false} UpsertsConcat(p: Pipeline, a: seq<Item>, b: seq<Item>)
    ensures UpsertAll(p, map[], a + b) == UpsertAll(p, map[], a) + UpsertAll(p, map[], b)
  {
    if b == [] {
      assert a + b == a;
    } else {
      var init, last := b[..|b| - 1], b[|b| - 1];
      UpsertsConcat(p, a, init);
      assert (a + b)[..|a + b| - 1] == a + init && (a + b)[|a + b| - 1] == last;
      UpdateRight(UpsertAll(p, map[], a), UpsertAll(p, map[], init), IdOf(last.chunk), PointOf(p, last));
    }
  }

  lemma {:induction false} UpsertedFrom(p: Pipeline, items: seq<Item>, id: string) returns (i: nat)
    requires id in UpsertAll(p, map[], items)
    ensures i < |items| && id == IdOf(items[i].chunk)
    ensures UpsertAll(p, map[], items)[id] == PointOf(p, items[i])
  {
    var last := |items| - 1;
    if id == IdOf(items[last].chunk) {
      i := last;
    } else {
      i := UpsertedFrom(p, items[..last], id);
    }
  }

  lemma {:induction false} UpsertedIn(p: Pipeline, items: seq<Item>, i: nat)
    requires i < |items|
    ensures IdOf(items[i].chunk) in UpsertAll(p, map[], items)
  {
    if i == |items| - 1 {
    } else {
      UpsertedIn(p, items[..|items| - 1], i);
    }
  }

  lemma PointsOfFacts(p: Pipeline, uri: Uri, content: string, id: string)
    requires id in PointsOf(p, uri, content)
    ensures var point := PointsOf(p, uri, content)[id];
            && point.source == p.sourceId && point.hash == Sha256(content)
            && point.chunk.uri == uri && id == IdOf(point.chunk)
  {
    var i := UpsertedFrom(p, ItemsOf(p, uri, content), id);
  }

  lemma ApartPoints(p: Pipeline, u: Uri, a: string, v: Uri, b: string, id: string)
    requires OneLine(u) && OneLine(v)
    requires id in PointsOf(p, u, a) && id in PointsOf(p, v, b)
    ensures u == v
  {
    PointsOfFacts(p, u, a, id);
    PointsOfFacts(p, v, b, id);
    OneLineUrisNeverShareIds(u, v, PointsOf(p, u, a)[id].chunk.text, PointsOf(p, v, b)[id].chunk.text);
  }

  lemma {:induction false} AllItemsOrigin(p: Pipeline, docs: seq<Doc>, id: string) returns (d: Doc)
    requires id in UpsertAll(p, map[], AllItems(p, docs))
    ensures d in docs && id in PointsOf(p, d.uri, d.content)
            && UpsertAll(p, map[], AllItems(p, docs))[id] == PointsOf(p, d.uri, d.content)[id]
  {
    var last := |docs| - 1;
    UpsertsConcat(p, AllItems(p, docs[..last]), ItemsOf(p, docs[last].uri, docs[last].content));
    if id in PointsOf(p, docs[last].uri, docs[last].content) {
      d := docs[last];
    } else {
      d := AllItemsOrigin(p, docs[..last], id);
    }
  }

  lemma {:induction false} AllItemsHave(p: Pipeline, docs: seq<Doc>, d: Doc, id: string)
    requires ValidSnapshot(docs) && d in docs && id in PointsOf(p, d.uri, d.content)
    ensures id in UpsertAll(p, map[], AllItems(p, docs))
    ensures UpsertAll(p, map[], AllItems(p, docs))[id] == PointsOf(p, d.uri, d.content)[id]
  {
    var last := |docs| - 1;
    UpsertsConcat(p, AllItems(p, docs[..last]), ItemsOf(p, docs[last].uri, docs[last].content));
    if d == docs[last] {
    } else {
      AllItemsHave(p, docs[..last], d, id);
      if id in PointsOf(p, docs[last].uri, docs[last].content) {
        ApartPoints(p, d.uri, d.content, docs[last].uri, docs[last].content, id);
        assert false;
      }
    }
  }

  // The listed documents are split into the changed and the skipped.
  lemma {:induction false} ChangedOrSkipped(known: map<Uri, DocEntry>, listing: bool, docs: seq<Doc>)
    ensures forall d :: d in Changed(known, listing, docs) <==> d in docs && !Skips(known, listing, d)
    ensures forall d :: d in Skipped(known, listing, docs) <==> d in docs && Skips(known, listing, d)
    ensures |Changed(known, listing, docs)| + |Skipped(known, listing, docs)| == |docs|
  {
    if docs == [] {
    } else {
      ChangedOrSkipped(known, listing, docs[..|docs| - 1]);
      assert docs == docs[..|docs| - 1] + [docs[|docs| - 1]];
    }
  }

  lemma {:induction false} ChangedStaysUnique(known: map<Uri, DocEntry>, listing: bool, docs: seq<Doc>)
    requires UniqueUris(docs)
    ensures UniqueUris(Changed(known, listing, docs))
  {
    if docs == [] {
    } else {
      var rest := docs[..|docs| - 1];
      ChangedStaysUnique(known, listing, rest);
      ChangedOrSkipped(known, listing, rest);
      var before := Changed(known, listing, rest);
      forall i | 0 <= i < |before| ensures before[i].uri != docs[|docs| - 1].uri {
        assert before[i] in rest;
      }
    }
  }

  lemma ChangedMembers(known: map<Uri, DocEntry>, listing: bool, docs: seq<Doc>)
    ensures forall d :: d in Changed(known, listing, docs) <==> d in docs && !Skips(known, listing, d)
    ensures forall d :: d in Skipped(known, listing, docs) <==> d in docs && Skips(known, listing, d)
    ensures UniqueUris(docs) ==> UniqueUris(Changed(known, listing, docs))
    ensures ValidSnapshot(docs) ==> ValidSnapshot(Changed(known, listing, docs))
  {
    ChangedOrSkipped(known, listing, docs);
    if UniqueUris(docs) {
      ChangedStaysUnique(known, listing, docs);
    }
  }

  lemma {:induction false} DownloadIsChanged(known: map<Uri, DocEntry>, docs: seq<Doc>, wanted: set<Uri>)
    requires forall d :: d in docs ==> (d.uri in wanted <==> !Skips(known, true, d))
    ensures Download(docs, wanted) == Changed(known, true, docs)
  {
    if docs == [] {
    } else {
      assert docs[|docs| - 1] in docs;
      DownloadIsChanged(known, docs[..|docs| - 1], wanted);
    }
  }

  lemma FetchedIsChanged(known: map<Uri, DocEntry>, docs: seq<Doc>)
    requires UniqueUris(docs)
    ensures Fetched(known, true, docs) == Changed(known, true, docs)
  {
    ChangedMembers(known, true, docs);
    var wanted := Uris(Changed(known, true, docs));
    forall d | d in docs ensures d.uri in wanted <==> !Skips(known, true, d) {
      if d.uri in wanted {
        var e :| e in Changed(known, true, docs) && e.uri == d.uri;
        assert e in docs && e == d;
      }
    }
    DownloadIsChanged(known, docs, wanted);
  }

  lemma {:induction false} FingerprintsHold(docs: seq<Doc>)
    requires UniqueUris(docs)
    ensures forall d :: d in docs ==> d.uri in Fingerprints(docs) && Fingerprints(docs)[d.uri] == d.fingerprint
  {
    if docs == [] {
    } else {
      FingerprintsHold(docs[..|docs| - 1]);
    }
  }

  lemma {:induction false} CarriedFacts(known: map<Uri, DocEntry>, docs: seq<Doc>)
    ensures forall uri :: uri in Carried(known, docs) ==>
              uri in known && Carried(known, docs)[uri] == known[uri]
              && exists d :: d in docs && d.uri == uri && Skips(known, true, d)
    ensures forall d :: d in docs && Skips(known, true, d) ==> d.uri in Carried(known, docs)
  {
    if docs == [] {
    } else {
      var rest := docs[..|docs| - 1];
      CarriedFacts(known, rest);
      assert docs == rest + [docs[|docs| - 1]];
      forall uri | uri in Carried(known, docs)
        ensures exists d :: d in docs && d.uri == uri && Skips(known, true, d)
      {
        if uri in Carried(known, rest) {
          var d :| d in rest && d.uri == uri && Skips(known, true, d);
          assert d in docs;
        } else {
          assert docs[|docs| - 1] in docs;
        }
      }
    }
  }

  // The entry a run stores for a document it has seen.
  function EntryAfter(known: map<Uri, DocEntry>, listing: bool, d: Doc): DocEntry {
    DocEntry(ContentHash(d), if listing then Some(d.fingerprint) else None)
  }

  // The URIs a plan holds are those it started with and those extracted, and the latter alone change.
  predicate Extends(plan: Plan, start: Plan, uris: set<Uri>) {
    && plan.current.Keys == start.current.Keys + uris
    && plan.entries.Keys == start.entries.Keys + uris
    && (forall uri :: uri in start.current && uri !in uris ==> plan.current[uri] == start.current[uri])
    && (forall uri :: uri in start.entries && uri !in uris ==> plan.entries[uri] == start.entries[uri])
  }

  lemma ExtendsByOne(plan: Plan, start: Plan, uris: set<Uri>, p: Pipeline, known: map<Uri, DocEntry>, listing: bool,
                     fingerprints: map<Uri, string>, indexed: bool, d: Doc)
    requires Extends(plan, start, uris)
    ensures Extends(ExtractOne(p, known, listing, fingerprints, indexed, plan, d), start, uris + {d.uri})
  {
  }

  lemma {:induction false} ExtractUris(p: Pipeline, known: map<Uri, DocEntry>, listing: bool,
                                       fingerprints: map<Uri, string>, indexed: bool, start: Plan, artifacts: seq<Doc>)
    ensures Extends(ExtractPlan(p, known, listing, fingerprints, indexed, start, artifacts), start, Uris(artifacts))
  {
    if artifacts == [] {
      assert Uris(artifacts) == {};
    } else {
      var rest, d := artifacts[..|artifacts| - 1], artifacts[|artifacts| - 1];
      UrisSnoc(rest, d);
      assert artifacts == rest + [d];
      var before := ExtractPlan(p, known, listing, fingerprints, indexed, start, rest);
      ExtractUris(p, known, listing, fingerprints, indexed, start, rest);
      ExtendsByOne(before, start, Uris(rest), p, known, listing, fingerprints, indexed, d);
    }
  }

  lemma UrisSnoc(docs: seq<Doc>, d: Doc)
    ensures Uris(docs + [d]) == Uris(docs) + {d.uri}
  {
    forall uri ensures uri in Uris(docs + [d]) <==> uri in Uris(docs) + {d.uri} {
      assert d in docs + [d];
      if uri in Uris(docs) {
        var e :| e in docs && e.uri == uri;
        assert e in docs + [d];
      }
    }
  }

  lemma {:induction false} ExtractValues(p: Pipeline, known: map<Uri, DocEntry>, listing: bool,
                                         fingerprints: map<Uri, string>, indexed: bool, start: Plan,
                                         artifacts: seq<Doc>, d: Doc)
    requires UniqueUris(artifacts) && d in artifacts
    requires if listing then d.uri in fingerprints && fingerprints[d.uri] == d.fingerprint else fingerprints == map[]
    ensures var plan := ExtractPlan(p, known, listing, fingerprints, indexed, start, artifacts);
            && d.uri in plan.current && plan.current[d.uri] == ContentHash(d)
            && d.uri in plan.entries && plan.entries[d.uri] == EntryAfter(known, listing, d)
  {
    var rest := artifacts[..|artifacts| - 1];
    if d == artifacts[|artifacts| - 1] {
    } else {
      ExtractValues(p, known, listing, fingerprints, indexed, start, rest, d);
    }
  }

  lemma AllItemsSnoc(p: Pipeline, docs: seq<Doc>, d: Doc)
    ensures AllItems(p, docs + [d]) == AllItems(p, docs) + ItemsOf(p, d.uri, d.content)
  {
    assert (docs + [d])[..|docs + [d]| - 1] == docs;
  }

  lemma {:induction false} ExtractPending(p: Pipeline, known: map<Uri, DocEntry>, listing: bool,
                                          fingerprints: map<Uri, string>, start: Plan, artifacts: seq<Doc>)
    requires start.pending == []
    ensures ExtractPlan(p, known, listing, fingerprints, true, start, artifacts).pending
         == AllItems(p, if listing then artifacts else Changed(known, false, artifacts))
  {
    if artifacts == [] {
    } else {
      var rest, d := artifacts[..|artifacts| - 1], artifacts[|artifacts| - 1];
      ExtractPending(p, known, listing, fingerprints, start, rest);
      if listing {
        AllItemsSnoc(p, rest, d);
        assert artifacts == rest + [d];
      } else if !Skips(known, false, d) {
        AllItemsSnoc(p, Changed(known, false, rest), d);
      }
    }
  }

  // The counters of extraction, in closed form: with a listing only chunks are still counted.
  lemma {:induction false} TallyWithListing(p: Pipeline, known: map<Uri, DocEntry>, t: Tally, docs: seq<Doc>)
    ensures TallyAll(p, known, true, t, docs) == t.(indexed := t.indexed + |AllItems(p, docs)|)
  {
    if docs == [] {
    } else {
      TallyWithListing(p, known, t, docs[..|docs| - 1]);
    }
  }

  lemma {:induction false} TallyWithoutListing(p: Pipeline, known: map<Uri, DocEntry>, docs: seq<Doc>)
    ensures TallyAll(p, known, false, NO_TALLY, docs) == TallyOf(p, known, false, docs)
  {
    if docs == [] {
    } else {
      var rest, d := docs[..|docs| - 1], docs[|docs| - 1];
      TallyWithoutListing(p, known, rest);
      if !Skips(known, false, d) {
        AllItemsSnoc(p, Changed(known, false, rest), d);
      }
    }
  }

  // Fetch and extract together count what the run counts.
  lemma TallyCloses(p: Pipeline, known: map<Uri, DocEntry>, listing: bool, docs: seq<Doc>)
    ensures TallyAll(p, known, listing, if listing then TallyListed(known, docs) else NO_TALLY,
                     Fetched(known, listing, docs))
         == TallyOf(p, known, listing, docs)
  {
    if listing {
      TallyWithListing(p, known, TallyListed(known, docs), Fetched(known, listing, docs));
    } else {
      TallyWithoutListing(p, known, docs);
    }
  }

  // What a run counts adds up: every document is changed or skipped, and with an index every chunk counted is
  // one to be written.
  lemma TallyAddsUp(p: Pipeline, known: map<Uri, DocEntry>, listing: bool, docs: seq<Doc>)
    ensures var t := TallyOf(p, known, listing, docs);
            t.documents == t.changed + t.skipped && t.indexed == |PlanOf(p, known, listing, docs, true).pending|
  {
    ChangedOrSkipped(known, listing, docs);
    ExtractPending(p, known, listing, if listing then Fingerprints(docs) else map[], FetchPlan(known, listing, docs),
                   Fetched(known, listing, docs));
  }

  // A listing mode run trusts stored content; this says the trust is justified for one document.
  predicate EntryHolds(known: map<Uri, DocEntry>, listing: bool, d: Doc) {
    listing && Skips(known, true, d) ==> known[d.uri].content == ContentHash(d)
  }

  // The closed form of a plan: every listed document is current under its own content hash,
  // gets its entry, and exactly the changed documents are processed.
  lemma PlanClosedForm(p: Pipeline, known: map<Uri, DocEntry>, listing: bool, docs: seq<Doc>)
    requires UniqueUris(docs)
    requires forall d :: d in docs ==> EntryHolds(known, listing, d)
    ensures PlanOf(p, known, listing, docs, true).current.Keys == Uris(docs)
    ensures PlanOf(p, known, listing, docs, true).entries.Keys == Uris(docs)
    ensures forall d :: d in docs ==>
              && d.uri in Uris(docs)
              && PlanOf(p, known, listing, docs, true).current[d.uri] == ContentHash(d)
              && PlanOf(p, known, listing, docs, true).entries[d.uri] == EntryAfter(known, listing, d)
    ensures PlanOf(p, known, listing, docs, true).pending == AllItems(p, Changed(known, listing, docs))
  {
    var start, artifacts := FetchPlan(known, listing, docs), Fetched(known, listing, docs);
    var fingerprints := if listing then Fingerprints(docs) else map[];
    FetchedMembers(known, listing, docs);
    ExtractUris(p, known, listing, fingerprints, true, start, artifacts);
    ExtractPending(p, known, listing, fingerprints, start, artifacts);
    var plan := PlanOf(p, known, listing, docs, true);
    assert Extends(plan, start, Uris(artifacts));
    assert start.current.Keys + Uris(artifacts) == Uris(docs) == start.entries.Keys + Uris(artifacts);
    forall d | d in docs
      ensures d.uri in plan.current && plan.current[d.uri] == ContentHash(d)
      ensures d.uri in plan.entries && plan.entries[d.uri] == EntryAfter(known, listing, d)
    {
      if d in artifacts {
        ExtractValues(p, known, listing, fingerprints, true, start, artifacts, d);
      }
    }
  }

  lemma {:induction false} DownloadMembers(docs: seq<Doc>, wanted: set<Uri>)
    ensures forall d :: d in Download(docs, wanted) <==> d in docs && d.uri in wanted
  {
    if docs == [] {
    } else {
      DownloadMembers(docs[..|docs| - 1], wanted);
      assert docs == docs[..|docs| - 1] + [docs[|docs| - 1]];
    }
  }

  // A run stores an entry for exactly the listed documents, whatever it skipped.
  lemma EntriesAreListed(p: Pipeline, known: map<Uri, DocEntry>, listing: bool, docs: seq<Doc>, indexed: bool)
    ensures PlanOf(p, known, listing, docs, indexed).entries.Keys == Uris(docs)
  {
    var start, artifacts := FetchPlan(known, listing, docs), Fetched(known, listing, docs);
    ExtractUris(p, known, listing, if listing then Fingerprints(docs) else map[], indexed, start, artifacts);
    if listing {
      CarriedFacts(known, docs);
      ChangedOrSkipped(known, true, docs);
      DownloadMembers(docs, Uris(Changed(known, true, docs)));
      forall uri ensures uri in start.entries.Keys + Uris(artifacts) <==> uri in Uris(docs) {
        if uri in Uris(docs) {
          var d :| d in docs && d.uri == uri;
          assert Skips(known, true, d) || d in Changed(known, true, docs);
        }
      }
    }
  }

  // Every listed document is either fetched or carried over from its stored entry.
  lemma FetchedMembers(known: map<Uri, DocEntry>, listing: bool, docs: seq<Doc>)
    requires UniqueUris(docs)
    ensures var start, artifacts := FetchPlan(known, listing, docs), Fetched(known, listing, docs);
            && start.pending == []
            && UniqueUris(artifacts)
            && artifacts == (if listing then Changed(known, listing, docs) else docs)
            && start.current.Keys == start.entries.Keys
            && start.current.Keys + Uris(artifacts) == Uris(docs)
            && (listing ==> forall d :: d in docs ==>
                 d.uri in Fingerprints(docs) && Fingerprints(docs)[d.uri] == d.fingerprint)
            && (forall d :: d in docs && d !in artifacts ==>
                  && listing && Skips(known, true, d) && d.uri !in Uris(artifacts)
                  && d.uri in start.entries && start.entries[d.uri] == known[d.uri]
                  && start.current[d.uri] == known[d.uri].content)
  {
    ChangedMembers(known, listing, docs);
    if listing {
      FetchedIsChanged(known, docs);
      FingerprintsHold(docs);
      CarriedFacts(known, docs);
      var start, artifacts := FetchPlan(known, listing, docs), Fetched(known, listing, docs);
      forall d | d in docs && d !in artifacts
        ensures d.uri !in Uris(artifacts)
      {
        assert forall e :: e in artifacts && e.uri == d.uri ==> e in docs && e == d;
      }
      forall uri ensures uri in start.current.Keys + Uris(artifacts) <==> uri in Uris(docs) {
        if uri in Uris(docs) {
          var d :| d in docs && d.uri == uri;
          assert d in artifacts || d.uri in start.entries;
        }
        if uri in Uris(artifacts) {
          var e :| e in artifacts && e.uri == uri;
          assert e in docs;
        }
      }
    }
  }
}
