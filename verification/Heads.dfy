/** Live heads, the current-head pointer, and the one resolver of "current". */
module Heads {
  import opened Options
  import opened Types
  import opened Tree

  function LiveHeads(t: Tables): set<StateId> {
    Live(t.snaps, t.retirements.Keys)
  }

  /** The pointer row joined to its snapshot. */
  function ScopePointer(t: Tables): Option<StateId> {
    if t.pointer.Some? && t.pointer.value.state in t.snaps then Some(t.pointer.value.state) else None
  }

  datatype Current =
    | EmptyScopeHead
    | LegacyMaxRevision(heads: set<StateId>)
    | Pointed(head: StateId)
    | InvalidDesignation

  /** effectiveCurrentHead: max revision only without a pointer, never once there is one. */
  function EffectiveCurrentHead(t: Tables): Current {
    match ScopePointer(t)
    case None =>
      if LiveHeads(t) == {} then EmptyScopeHead
      else
        LegacyMaxRevision(
          set h | h in LiveHeads(t) && forall g :: g in LiveHeads(t) ==> t.snaps[g].revision <= t.snaps[h].revision)
    case Some(q) => if q in LiveHeads(t) then Pointed(q) else InvalidDesignation
  }

  /**
   The pointer row after inserting `n` below `parent`: set by the first write of a scope, moved
   when `parent` is the pointed head and was live just before the insert, left alone otherwise.
   `s` holds the snapshots before the insert.
   */
  function PointerAfterInsert(s: Snaps, retired: set<StateId>, pointer: Option<Pointer>,
                              n: StateId, parent: Option<StateId>, by_: Principal, now: Time): Option<Pointer> {
    match pointer
    case None => if parent.Some? then None else Some(Pointer(n, now, by_, FirstWrite))
    case Some(q) =>
      if Some(q.state) != parent || HasChild(s, q.state) || q.state in retired then pointer
      else Some(Pointer(n, now, by_, Advance))
  }
}
