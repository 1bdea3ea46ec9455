/** Ranges, areas, and the conversion of an area into a 3d range. */
module Ranges {
  import opened Orders
  import opened Entries

  datatype RangeEnd<+T> = Open | Closed(value: T)

  datatype Range<+T> = Range(start: T, end: RangeEnd<T>)

  datatype Range3d = Range3d(subspaces: Range<SubspaceId>, paths: Range<Path>, times: Range<u64>)

  predicate IncludesSubspace(r: Range<SubspaceId>, s: SubspaceId) {
    !BytesLess(s, r.start) && (r.end.Closed? ==> BytesLess(s, r.end.value))
  }

  predicate IncludesPath(r: Range<Path>, p: Path) {
    !PathLess(p, r.start) && (r.end.Closed? ==> PathLess(p, r.end.value))
  }

  predicate IncludesTime(r: Range<u64>, t: u64) {
    r.start <= t && (r.end.Closed? ==> t < r.end.value)
  }

  predicate IncludesEntry(r: Range3d, e: Entry) {
    && IncludesSubspace(r.subspaces, e.subspace)
    && IncludesPath(r.paths, e.path)
    && IncludesTime(r.times, e.timestamp)
  }

  // ---------- areas ----------

  datatype AreaSubspace = AnySubspace | Id(id: SubspaceId)

  datatype Area = Area(subspace: AreaSubspace, path: Path, times: Range<u64>)

  predicate AreaIncludesEntry(a: Area, e: Entry) {
    && (a.subspace.Id? ==> a.subspace.id == e.subspace)
    && a.path <= e.path
    && IncludesTime(a.times, e.timestamp)
  }
}
