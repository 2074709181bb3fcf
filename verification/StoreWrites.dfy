/** What a write to the store can answer. */
module StoreWrites {

  /** It answers, or it fails before or after it took effect. */
  datatype Batch = Answered | FailedBefore | FailedAfter
}
