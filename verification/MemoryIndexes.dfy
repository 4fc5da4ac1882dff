/** The point set behind an index, and the in-memory index that stores it (src/alvis/index/memory.py). */
module MemoryIndexes {
  import opened Models

  datatype Point = Point(source: string, hash: Digest, chunk: Chunk, vector: Vector)

  type Points = map<string, Point>

  function IdOf(chunk: Chunk): string {
    PointId(chunk.uri, chunk.text)
  }

  // A point of the source whose document left the listing or changed its content hash.
  predicate IsStale(point: Point, source: string, current: map<Uri, Digest>) {
    point.source == source
    && (point.chunk.uri !in current || current[point.chunk.uri] != point.hash)
  }

  // The points that are left once the source's stale points are gone.
  function Pruned(points: Points, source: string, current: map<Uri, Digest>): Points {
    map id | id in points && !IsStale(points[id], source, current) :: points[id]
  }

  function SourcePoints(points: Points, source: string): Points {
    map id | id in points && points[id].source == source :: points[id]
  }

  class MemoryIndex {
    var points: Points

    constructor ()
      ensures points == map[]
    {
      points := map[];
    }

    method Upsert(chunk: Chunk, vector: Vector, source: string, hash: Digest)
      modifies this
      ensures points == old(points)[IdOf(chunk) := Point(source, hash, chunk, vector)]
    {
      var id := IdOf(chunk);
      points := points[id := Point(source, hash, chunk, vector)];
    }

    method Reconcile(source: string, current: map<Uri, Digest>)
      modifies this
      ensures points == Pruned(old(points), source, current)
    {
      var stale := set id | id in points && IsStale(points[id], source, current);
      while stale != {}
        invariant stale <= points.Keys <= old(points).Keys
        invariant forall id :: id in points ==> points[id] == old(points)[id]
        invariant forall id :: id in old(points) ==>
                                 (id in points && id !in stale
                                  <==> !IsStale(old(points)[id], source, current))
        decreases stale
      {
        var id :| id in stale;
        stale := stale - {id};
        points := points - {id};
      }
    }
  }
}
