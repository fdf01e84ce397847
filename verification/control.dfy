/** The settings the start command derives from its form fields. */
module Control {
  import opened Wrappers

  const DefaultThreads: int := 5
  const MinThreads: int := 1
  const MaxThreads: int := 20
  const DefaultInterval: int := 60

  function Min(a: int, b: int): int { if a <= b then a else b }
  function Max(a: int, b: int): int { if a >= b then a else b }

  /** `max(1, min(n, 20))`: the worker count is forced into [1, 20] and
      left alone when already there. */
  function ClampThreads(n: int): (t: int)
    ensures MinThreads <= t <= MaxThreads
    ensures MinThreads <= n <= MaxThreads ==> t == n
    ensures n < MinThreads ==> t == MinThreads
    ensures n > MaxThreads ==> t == MaxThreads
  {
    Max(MinThreads, Min(n, MaxThreads))
  }

  datatype Settings = Settings(threads: int, interval: int)

  /** start_invites: each field is the integer the form carried, or None
      when it was absent or not an integer (the form then yields its
      default). Only the worker count is clamped. */
  function StartSettings(threadsField: Option<int>, intervalField: Option<int>): (s: Settings)
    ensures MinThreads <= s.threads <= MaxThreads
    ensures threadsField.None? ==> s.threads == DefaultThreads
    ensures threadsField.Some? && MinThreads <= threadsField.value <= MaxThreads ==> s.threads == threadsField.value
    ensures threadsField.Some? ==> s.threads == ClampThreads(threadsField.value)
    ensures intervalField.None? ==> s.interval == DefaultInterval
    ensures intervalField.Some? ==> s.interval == intervalField.value
  {
    Settings(ClampThreads(threadsField.GetOr(DefaultThreads)), intervalField.GetOr(DefaultInterval))
  }
}
