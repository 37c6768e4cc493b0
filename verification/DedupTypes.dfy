/** Document statuses (`pipeline/utils/doc_state.py`), the document row, and the result type the dedup
    stages share (`pipeline/steps/dedup/types.py`). */
module DedupTypes {
  import opened Wrappers

  datatype Status =
    | Uploading | Fetching | Pending | Running | Indexed | Deleting | Deleted | Failed | Outdated

  /** Complement of the stable statuses. */
  predicate IsActive(status: Status) {
    !(status.Indexed? || status.Failed? || status.Deleted? || status.Outdated?)
  }

  /** The BIGINT column that holds a fingerprint. */
  type BigInt = v: int | -0x8000_0000_0000_0000 <= v < 0x8000_0000_0000_0000

  /** A row of `documents`. */
  datatype Doc = Doc(
    kbId: string, status: Status, contentSimhash: Option<BigInt>, titleHash: Option<string>,
    duplicateOf: Option<string>, createdAt: Option<int>, chunkCount: Option<nat>, title: string, source: string)

  datatype BodyMatch = IdenticalLevel | Similar | NoMatch

  datatype TitleMatch = Same | Changed | Unknown

  datatype DedupResult = DedupResult(
    bodyMatch: BodyMatch,
    titleMatch: TitleMatch,
    duplicateDocId: Option<string>,
    needsIndexing: bool,
    candidateDocIds: seq<string>)
}
