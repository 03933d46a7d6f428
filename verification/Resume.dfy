/** What the chunk path guarantees (src/sync.rs): when its result is the source,
    and what a later run can rely on. */
module Resume {
  import opened Assembly
  import opened ChunkTransfer
  import opened History
  import opened Primitives
  import opened Workspace

  /** If the row of the file is for this size and time, the chunks recorded with it
      are, in the part file, those of `content`. */
  ghost predicate RowsTruthful(v: View, job: Job, content: Bytes) {
    RowMatches(v.tables, job) ==>
      Intact(PartOf(v, job), v.tables.Completed(job.key), content, v.tables.files[job.key].chunkSize)
  }

  /** A still source that is the listed file. */
  ghost predicate StaysListed(history: seq<Version>, lo: nat, hi: nat, job: Job) {
    Still(history, lo, hi) && |history[lo].data| == job.size
  }

  lemma TruthfulIsIntact(v: View, job: Job, content: Bytes, cs: u64)
    requires RowsTruthful(v, job, content)
    ensures Intact(PartOf(v, job), Recorded(v.tables, job, cs), content, cs)
  {
  }

  /** From a source that does not change, what is published is the source
      exactly when the chunks kept from before were its chunks. */
  lemma PublishedIffIntact(before: View, after: View, job: Job, cs: u64, kept: set<nat>, history: seq<Version>, lo: nat,
                           hi: nat)
    requires cs > 0 && Published(before, after, job, cs, kept, history, lo, hi)
    requires StaysListed(history, lo, hi, job)
    ensures after.files[job.key].data == history[lo].data
            <==> Intact(PartOf(before, job), kept, history[lo].data, cs)
  {
    AssembledIffIntact(after.files[job.key].data, PartOf(before, job), kept, history, lo, hi, cs);
  }

  /** A resumed transfer is right when the rows it starts from are truthful. */
  lemma TruthfulRowsPublishSource(before: View, after: View, job: Job, cs: u64, kept: set<nat>, history: seq<Version>,
                                  lo: nat, hi: nat)
    requires cs > 0 && Published(before, after, job, cs, kept, history, lo, hi)
    requires StaysListed(history, lo, hi, job)
    requires RowsTruthful(before, job, history[lo].data) && (kept == {} || kept == Recorded(before.tables, job, cs))
    ensures after.files[job.key].data == history[lo].data
  {
    TruthfulIsIntact(before, job, history[lo].data, cs);
    PublishedIffIntact(before, after, job, cs, kept, history, lo, hi);
  }

  /** An attempt that stops before the rename leaves truthful rows truthful. */
  lemma StoppedStaysTruthful(before: View, after: View, job: Job, cs: u64, kept: set<nat>, history: seq<Version>,
                             lo: nat, hi: nat)
    requires cs > 0 && StoppedOrReset(before, after, job, cs, kept, history, lo, hi)
    requires StaysListed(history, lo, hi, job)
    requires RowsTruthful(before, job, history[lo].data) && (kept == {} || kept == Recorded(before.tables, job, cs))
    ensures RowsTruthful(after, job, history[lo].data)
  {
    if RowsHold(before, after, job, cs, kept, history, lo, hi) {
      TruthfulIsIntact(before, job, history[lo].data, cs);
      GrownIsIntact(PartOf(after, job), PartOf(before, job), kept, after.tables.Completed(job.key), history, lo, hi,
                    cs);
    }
  }

  /** Strict durability publishes the listed version, whatever was written to the
      source while it was read: exactly when the chunks kept from before were
      that version's. */
  lemma StrictPublishesListed(before: View, after: View, job: Job, opts: Options, cs: u64, kept: set<nat>,
                              history: seq<Version>, listed: nat, lo: nat, hi: nat)
    requires cs > 0 && Published(before, after, job, cs, kept, history, lo, hi)
    requires opts.strict && Checked(job, opts, history, hi)
    requires FreshTimes(history) && listed <= lo <= hi && history[listed].mtime == job.mtime
    ensures after.files[job.key].data == history[listed].data
            <==> Intact(PartOf(before, job), kept, history[listed].data, cs)
  {
    StrictIsListedVersion(after.files[job.key].data, PartOf(before, job), kept, history, listed, lo, hi, cs);
  }

  /** Rows that name every chunk publish the part file as it is, so the result is
      right exactly when the part file already was the source. */
  lemma AllRecordedPublishesPart(before: View, after: View, job: Job, cs: u64, kept: set<nat>, history: seq<Version>,
                                 lo: nat, hi: nat)
    requires cs > 0 && Published(before, after, job, cs, kept, history, lo, hi)
    requires AllChunks(job.size, cs) <= kept
    ensures after.files[job.key].data == PartOf(before, job)
  {
    AllKeptIsBase(after.files[job.key].data, PartOf(before, job), kept, history, lo, hi, cs);
  }

  /** Once a file has been published its rows still name every chunk, while the
      part file is gone: publishing it again gives zeros. */
  lemma RowsOutliveThePartFile(before: View, after: View, job: Job, cs: u64, kept: set<nat>, history: seq<Version>,
                               lo: nat, hi: nat)
    requires cs > 0 && Published(before, after, job, cs, kept, history, lo, hi)
    requires job.key !in before.partials && AllChunks(job.size, cs) <= kept
    ensures after.files[job.key].data == Zeros(job.size)
    ensures StaysListed(history, lo, hi, job) ==>
              (after.files[job.key].data == history[lo].data
               <==> forall i :: 0 <= i < job.size ==> history[lo].data[i] == 0)
  {
    AllRecordedPublishesPart(before, after, job, cs, kept, history, lo, hi);
    assert PartOf(before, job) == Zeros(job.size);
  }
}
