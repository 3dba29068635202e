/** What several of the modules need. */
module Common {

  datatype Option<T> = None | Some(value: T)

  /** A worker with this many jobs behind it is recycled; a limit of 0 stands for none. Both pools and the
      PHP loop have this test. */
  predicate NeedsRecycle(limit: nat, jobs: nat) {
    limit > 0 && jobs >= limit
  }
}
