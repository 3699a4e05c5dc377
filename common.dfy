/** Small shared datatypes: optional values and the repository's error result. */
module Common {

  datatype Option<+T> = None | Some(value: T)

  /** The only error the in-memory repository reports: a lookup or update by an ID that no row carries
      (Go's `sql.ErrNoRows`). */
  datatype RepoError = ErrNoRows

  datatype Result<+T> = Ok(value: T) | Err(error: RepoError)

  function Min(a: int, b: int): int { if a <= b then a else b }

  function Max(a: int, b: int): int { if a <= b then b else a }
}
