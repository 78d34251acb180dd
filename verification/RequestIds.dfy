/** Request ids and the memos they are shortened to. */
module RequestIds {
  type Memo(==, !new)
  type Rest(==, !new)

  /**
   * A request id by its base58 text: the characters that `derive_shortened_request_id` puts
   * into a memo, and the rest, which it drops. Two ids may share a memo.
   */
  datatype IssueId = IssueId(memo: Memo, rest: Rest)

  /** No two of the ids have the same shortened form, as is hoped of the hash they come from. */
  ghost predicate DistinctMemos(ids: set<IssueId>) {
    forall a, b :: a in ids && b in ids && a.memo == b.memo ==> a == b
  }
}
