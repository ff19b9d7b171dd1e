/**
 * Transaction handlers that share one SQLite connection: the protocol of `BEGIN`, `COMMIT` and
 * `ROLLBACK` through any number of handlers, over every interleaving.
 */
module Handlers {
  import opened Types
  import opened Databases

  /** A connection and, for each live handler, its `_pending` flag. `H` is the type of handlers. */
  datatype Link<!H(==)> = Link(db: Database, snapshot: Option<Database>, pending: map<H, bool>)

  datatype Action<!H> =
    | Open(handler: H)
    | Start(handler: H)
    | Commit(handler: H)
    | Rollback(handler: H)
    | Close(handler: H)            // the destructor, which rolls back first
    | Execute(result: Database)    // any statement in between

  predicate Pending<H>(l: Link<H>, h: H) {
    h in l.pending && l.pending[h]
  }

  /** `ROLLBACK` through `h`, if `h` thinks it has a transaction. */
  function RolledBack<H>(l: Link<H>, h: H): Link<H> {
    if Pending(l, h) && l.snapshot.Some? then Link(l.snapshot.value, None, l.pending[h := false]) else l
  }

  function Act<H>(l: Link<H>, a: Action<H>): Link<H> {
    match a
    case Open(h) => if h in l.pending then l else l.(pending := l.pending[h := false])
    case Start(h) =>
      // A nested BEGIN fails, and the handler stays idle.
      if h in l.pending && !l.pending[h] && l.snapshot.None?
      then l.(snapshot := Some(l.db), pending := l.pending[h := true]) else l
    case Commit(h) =>
      if Pending(l, h) && l.snapshot.Some? then l.(snapshot := None, pending := l.pending[h := false]) else l
    case Rollback(h) => RolledBack(l, h)
    case Close(h) => var r := RolledBack(l, h); r.(pending := r.pending - {h})
    case Execute(db) => l.(db := db)
  }

  function Acts<H>(l: Link<H>, actions: seq<Action<H>>): Link<H>
    decreases |actions|
  {
    if actions == [] then l else Acts(Act(l, actions[0]), actions[1..])
  }

  /** At most one handler has a transaction, and one has exactly when the connection is in one. */
  ghost predicate Safe<H>(l: Link<H>) {
    SafeFlags(l.snapshot.Some?, l.pending)
  }

  ghost predicate SafeFlags<H>(inTransaction: bool, pending: map<H, bool>) {
    && (forall h, g :: h in pending && g in pending && pending[h] && pending[g] ==> h == g)
    && (inTransaction <==> exists h :: h in pending && pending[h])
  }

  lemma ActIsSafe<H>(l: Link<H>, a: Action<H>)
    requires Safe(l)
    ensures Safe(Act(l, a))
  {
    var r := Act(l, a);
    if l.snapshot.None? {
      forall h | h in l.pending ensures !l.pending[h] {
      }
      if a.Start? && a.handler in l.pending {
        assert r.pending[a.handler];
      }
    } else {
      var owner :| owner in l.pending && l.pending[owner];
      if r.snapshot.Some? {
        assert owner in r.pending && r.pending[owner];
      } else {
        assert a.handler == owner;
      }
    }
  }

  /** However handlers are opened, started, finished and destroyed. */
  lemma {:induction false} RunsAreSafe<H>(l: Link<H>, actions: seq<Action<H>>)
    requires Safe(l)
    ensures Safe(Acts(l, actions))
    decreases |actions|
  {
    if actions != [] {
      ActIsSafe(l, actions[0]);
      RunsAreSafe(Act(l, actions[0]), actions[1..]);
    }
  }

  predicate ActsThrough<H(==)>(actions: seq<Action<H>>, h: H) {
    exists i :: 0 <= i < |actions| && !actions[i].Execute? && actions[i].handler == h
  }

  /** Only the handler that started a transaction can end it: the life of any other handler, with
      whatever it executes, leaves the transaction open and its starting point as it was. */
  lemma {:induction false} OnlyTheOwnerEnds<H>(l: Link<H>, owner: H, actions: seq<Action<H>>)
    requires Safe(l) && Pending(l, owner) && !ActsThrough(actions, owner)
    ensures Pending(Acts(l, actions), owner) && Acts(l, actions).snapshot == l.snapshot
    decreases |actions|
  {
    if actions != [] {
      var a, rest := actions[0], actions[1..];
      ActIsSafe(l, a);
      assert forall i :: 0 <= i < |rest| ==> rest[i] == actions[i + 1];
      assert a.Execute? || a.handler != owner;
      assert !a.Execute? ==> !Pending(l, a.handler);
      OnlyTheOwnerEnds(Act(l, a), owner, rest);
    }
  }

  /** Leaving the scope of a pending handler undoes all that was executed since it started, including
      what other handlers believe to have committed. */
  lemma {:induction false} DestructorUndoes<H>(l: Link<H>, owner: H, actions: seq<Action<H>>)
    requires Safe(l) && l.snapshot.None? && owner in l.pending && !ActsThrough(actions, owner)
    ensures var r := Act(Acts(Act(l, Start(owner)), actions), Close(owner));
      r.db == l.db && r.snapshot.None? && owner !in r.pending
  {
    assert !Pending(l, owner);
    ActIsSafe(l, Start(owner));
    OnlyTheOwnerEnds(Act(l, Start(owner)), owner, actions);
  }
}
