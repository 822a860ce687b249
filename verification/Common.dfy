/** Failure-aware values shared by every component of the model. */
module Common {
  datatype Option<+T> = None | Some(value: T)

  datatype Result<+T> = Ok(value: T) | Err(error: string)

  /** A wall-clock reading in microseconds. Readings are positive, so the zero time of the source never occurs. */
  type Instant = t: int | 0 < t witness 1

  const SECOND := 1_000_000

  /** How a replacing write ended: an error may be returned after the rename has taken effect. */
  datatype WriteOutcome = Durable | LostBeforeRename | ErrorAfterRename

  function Lookup<K, V>(m: map<K, V>, k: K): Option<V> { if k in m then Some(m[k]) else None }
}
