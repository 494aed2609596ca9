/** What several modules share.

    Some functions come in pairs: a recursive definition (`IdsFrom`, `ActiveIdsFrom`, `SuspensionsFrom`, `Planned`,
    `ExpandFrom`, `RoleIn`, `ListIn`, `StripFrom`, `SumFrom`, ...) and a plain name for it (`Ids`, `ActiveIds`,
    `Suspensions`, `Plan`, `Expand`, `TableRole`, `TableList`, `Normalize`, `Sum`, ...). They are one concept; the plain
    name is what a proof can `hide` as a whole and what statements are written with. */
module Common {

  datatype Option<+T> = None | Some(value: T)

  /** Ids are UUID columns. */
  type Uuid = nat

  /** A Redis key's expiry; `Never` is a key set without one. */
  datatype Expiry = At(t: int) | Never

  predicate NoDup<T(==)>(s: seq<T>) { forall i, j :: 0 <= i < j < |s| ==> s[i] != s[j] }

  function Min(a: int, b: int): int { if a <= b then a else b }

  function Max(a: int, b: int): int { if a >= b then a else b }
}
