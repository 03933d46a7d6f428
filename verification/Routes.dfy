/** The ways to bring over one file (src/sync.rs): how each of them can end. */
module Routes {
  import opened Source
  import opened Workspace

  datatype Outcome = Outcome(
    usedDelta: bool,
    deltaFallback: bool,
    usedRdma: bool,
    rdmaFallback: bool,
    rdmaBytes: nat,
    bytesSaved: nat)

  /** How one of the paths went. */
  datatype Route = NotTaken | FellBack | Taken(outcome: Outcome) | Broke(fault: Fault)

  /** The destination changed (or never will) only together with this. */
  predicate Replaced(r: Route) {
    r.Taken? || (r.Broke? && r.fault.published)
  }

  /** The delta path will be tried, which RDMA gives way to unless required. */
  predicate DeltaCandidate(v: View, job: Job, opts: Options) {
    opts.deltaEnabled && job.size >= opts.deltaMinSize && job.key in v.files
  }

  /** The path the published bytes came by. */
  datatype Origin = ByRdma | ByClone | ByDelta(who: Planner) | ByChunks

  /** The outcome names the path that was taken. */
  ghost predicate Reports(o: Outcome, how: Origin, job: Job) {
    && o.usedDelta == how.ByDelta? && o.usedRdma == how.ByRdma?
    && (how != ByChunks ==> !o.deltaFallback && !o.rdmaFallback) && (!how.ByDelta? ==> o.bytesSaved == 0)
    && o.rdmaBytes == (if how.ByRdma? then job.size else 0)
  }
}
