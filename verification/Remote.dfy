/** What a caller can see of a write to a remote service. */
module Remote {

  /** The write takes effect and is acknowledged, it fails, or it takes effect and is reported as failed. */
  datatype Fate = Works | Fails | Unanswered

  predicate Lands(f: Fate) { !f.Fails? }
}
