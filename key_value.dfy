/** Values of the key-value store (Redis) shared by the queue and the middleware. */
module KeyValue {
  import opened Wrappers

  /** An integer under a key, with the lifetime it was given when set (None: no expiry). */
  datatype Counter = Counter(value: int, lifetimeMs: Option<nat>)
}
