/** The states of a cache line. */
module CacheStates {

  /** `Invalid`: there is no line. */
  datatype CacheState = Invalid | ToShared | Shared | ToDirty | Dirty | ToInvalid

  predicate LineInTransition(s: CacheState) { s.ToShared? || s.ToDirty? || s.ToInvalid? }
}
