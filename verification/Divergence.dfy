/**
 Divergent terminals: per (kind, id) and per divergent lineage, the newest change on that
 lineage from its fork point forward; and which of them a reconcile has resolved.
 */
module Divergence {
  import opened Options
  import opened Types
  import opened Tree
  import opened Newest
  import opened ChangeLog

  /** The comparable value recorded for one change of `id`; none when it was never versioned. */
  ghost function ComparableAt(v: Versions, id: RowId, x: Tuple): Option<Comparable> {
    if VersionKey(id, x) in v then Some(Comparing(v[VersionKey(id, x)].value)) else None
  }

  /** The comparable value of the newest change of (kind, id) made by one snapshot. */
  ghost function ComparableNewest(s: Snaps, l: Ledger, v: Versions, key: TerminalKey): Option<Comparable> {
    var x := NewestOf(s, l, {key.state}, key.kind, key.id);
    if x.Some? then ComparableAt(v, key.id, x.value) else None
  }

  ghost predicate TerminalOf(s: Snaps, l: Ledger, chain: set<StateId>, key: TerminalKey) {
    exists x :: IsNewest(s, l, chain, key.kind, key.id, x) && x.state == key.state
  }

  /** key is the terminal of at least one of the lineages `heads`, forked off `accepted`. */
  ghost predicate IsTerminal(s: Snaps, l: Ledger, heads: set<StateId>, accepted: set<StateId>, key: TerminalKey) {
    exists h :: h in heads && TerminalOf(s, l, ChainSet(s, h, accepted), key)
  }

  /** The lineages whose terminal it is. */
  ghost function LineagesOf(s: Snaps, l: Ledger, heads: set<StateId>, accepted: set<StateId>,
                            key: TerminalKey): set<StateId> {
    set h | h in heads && TerminalOf(s, l, ChainSet(s, h, accepted), key)
  }

  ghost function KeyOf(l: Ledger, x: Tuple): TerminalKey
    requires x in l
  {
    TerminalKey(x.kind, l[x].id, x.state)
  }

  ghost function LedgerKeys(l: Ledger): set<TerminalKey> {
    set x | x in l :: KeyOf(l, x)
  }

  ghost function Terminals(s: Snaps, l: Ledger, heads: set<StateId>, accepted: set<StateId>): set<TerminalKey> {
    set key | key in LedgerKeys(l) && IsTerminal(s, l, heads, accepted, key)
  }

  /** Live heads other than `head`, and retired snapshots that are not on its lineage. */
  ghost function DivergentHeads(t: Tables, head: StateId): set<StateId> {
    (Live(t.snaps, t.retirements.Keys) - {head}) + (t.retirements.Keys - Ancestry(t.snaps, head))
  }

  /** Every resolution recorded by a reconcile snapshot of the lineage. */
  ghost predicate Resolved(s: Snaps, lineage: set<StateId>, key: TerminalKey) {
    exists a :: a in lineage && a in s && s[a].envelope.reconciliation.Some?
                && key in s[a].envelope.reconciliation.value.resolutions
  }

  /** What a reconcile onto `head` still has to decide. */
  ghost function Unresolved(t: Tables, head: StateId): set<TerminalKey> {
    set key | key in Terminals(t.snaps, t.ledger, DivergentHeads(t, head), Ancestry(t.snaps, head))
              && !Resolved(t.snaps, Ancestry(t.snaps, head), key)
  }

  ghost predicate Opaque(t: Tables, key: TerminalKey) {
    ComparableNewest(t.snaps, t.ledger, t.versions, key).None?
  }

  ghost function OfKind(keys: set<TerminalKey>, k: Kind): set<TerminalKey> {
    set key | key in keys && key.kind == k
  }

  lemma TerminalInLedger(s: Snaps, l: Ledger, heads: set<StateId>, accepted: set<StateId>, key: TerminalKey)
    ensures key in Terminals(s, l, heads, accepted) <==> IsTerminal(s, l, heads, accepted, key)
  {
    if IsTerminal(s, l, heads, accepted, key) {
      var h :| h in heads && TerminalOf(s, l, ChainSet(s, h, accepted), key);
      var x :| IsNewest(s, l, ChainSet(s, h, accepted), key.kind, key.id, x) && x.state == key.state;
      assert KeyOf(l, x) == key;
    }
  }
}
