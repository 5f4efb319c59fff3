/** The daemon's side of grid replication: who is attached, who has fallen behind. */
module GridSinks {
  import opened Wrappers
  import opened GridCodec
  import opened GridReplica
  import opened HeadlessGrid

  /** `sinks` after the sinks outside `pending` were served by `serve`. */
  ghost predicate Served(before: map<nat, Replica>, after: map<nat, Replica>, u: GridUpdate, skip: set<nat>, pending: set<nat>) {
    && after.Keys == before.Keys
    && forall id | id in before :: after[id] == if id in skip || id in pending then before[id] else Apply(before[id], u)
  }

  lemma ServedStep(before: map<nat, Replica>, sinks: map<nat, Replica>, u: GridUpdate, skip: set<nat>, ids: set<nat>, id: nat)
    requires Served(before, sinks, u, skip, ids) && id in ids && id in before
    ensures Served(before, if id in skip then sinks else sinks[id := Apply(sinks[id], u)], u, skip, ids - {id})
  {}

  lemma ServedAbsent(before: map<nat, Replica>, sinks: map<nat, Replica>, u: GridUpdate, skip: set<nat>, ids: set<nat>, id: nat)
    requires Served(before, sinks, u, skip, ids) && id !in before
    ensures Served(before, sinks, u, skip, ids - {id})
  {}

  lemma BroadcastDone(s: Session, sinks: map<nat, Replica>, u: GridUpdate, slow: set<nat>)
    requires Served(s.sinks, sinks, u, slow + s.desynced, {})
    ensures sinks == Broadcast(s, u, slow).sinks
  {}

  lemma ResyncDone(s: Session, sinks: map<nat, Replica>, slow: set<nat>)
    requires Served(s.sinks, sinks, Snapshot(s), (s.sinks.Keys - s.desynced) + slow, {})
    ensures sinks == Resync(s, slow).sinks
  {}

  /** The flags once the sinks outside `ids` were looked at. */
  function Flagged(s: Session, slow: set<nat>, ids: set<nat>): set<nat> {
    s.desynced + (slow * (s.sinks.Keys - ids))
  }

  lemma FlaggedStep(s: Session, slow: set<nat>, ids: set<nat>, id: nat)
    requires id in ids && ids <= s.sinks.Keys
    ensures Flagged(s, slow, ids - {id}) == Flagged(s, slow, ids) + if id in slow then {id} else {}
    ensures id in Flagged(s, slow, ids) <==> id in s.desynced
  {}

  lemma FlaggedAll(s: Session, u: GridUpdate, slow: set<nat>)
    ensures Flagged(s, slow, s.sinks.Keys) == s.desynced
    ensures Flagged(s, slow, {}) == Broadcast(s, u, slow).desynced
  {}

  /** The flagged sinks outside `ids` that need no flag any more. */
  function Repaired(s: Session, slow: set<nat>, ids: set<nat>): set<nat> {
    set id | id in s.desynced && id !in ids && (id !in s.sinks || id !in slow)
  }

  lemma RepairedAll(s: Session, slow: set<nat>)
    ensures s.desynced - Repaired(s, slow, {}) == Resync(s, slow).desynced
  {}

  lemma RepairedStep(s: Session, slow: set<nat>, ids: set<nat>, id: nat)
    requires id in ids && ids <= s.desynced
    ensures Repaired(s, slow, ids - {id}) ==
              if id !in s.sinks || id !in slow then Repaired(s, slow, ids) + {id} else Repaired(s, slow, ids)
  {}

  class AgentSession {
    const screen: HeadlessScreen
    var lastSentCursor: Option<Cursor>
    /** What each sink shows once it has applied the frames delivered to it. */
    var sinks: map<nat, Replica>
    var gridDesyncedSinks: set<nat>

    ghost predicate Valid()
      reads this, screen
    {
      screen.Valid() && screen.Covered()
    }

    ghost function View(): Session
      reads this, screen
      requires Valid()
    {
      Session(screen.terminal.Shown(), screen.terminal.cursor, screen.Base(), lastSentCursor, sinks, gridDesyncedSinks)
    }

    constructor (screen: HeadlessScreen)
      requires screen.Valid() && screen.Covered()
      ensures Valid() && this.screen == screen
      ensures View().sinks == map[] && View().desynced == {}
    {
      this.screen := screen;
      lastSentCursor, sinks, gridDesyncedSinks := None, map[], {};
    }

    /** A flush: `slow` are the sinks over the watermark when the diff goes out,
        `slowLater` those still over it when the repairs do. */
    method FlushGrid(slow: set<nat>, slowLater: set<nat>)
      requires Valid()
      modifies this, screen
      ensures Valid() && View() == After(old(View()), Flush(slow, slowLater))
    {
      if sinks == map[] {
        gridDesyncedSinks := {};
        return;
      }
      var update := screen.GridUpdate(false);
      var cursor := Cursor(update.cursorCol, update.cursorRow, update.cursorVisible);
      if update.changedRows != [] || lastSentCursor != Some(cursor) {
        BroadcastGrid(update, slow);
        lastSentCursor := Some(cursor);
      }
      ResyncGridSinks(slowLater);
    }

    method SendFullGrid(slow: set<nat>)
      requires Valid()
      modifies this, screen
      ensures Valid() && View() == After(old(View()), SendFull(slow))
    {
      var update := screen.GridUpdate(true);
      BroadcastGrid(update, slow);
    }

    method RetryDesyncedSinks(slow: set<nat>)
      requires Valid()
      modifies this
      ensures Valid() && View() == After(old(View()), Retry(slow))
    {
      if sinks == map[] || gridDesyncedSinks == {} {
        assert sinks != map[] ==> Resync(View(), slow).sinks == sinks;
        return;
      }
      ResyncGridSinks(slow);
    }

    /** Sends one update to every sink that can take it; flags the ones that cannot. */
    method BroadcastGrid(update: GridUpdate, slow: set<nat>)
      requires Valid()
      modifies this`sinks, this`gridDesyncedSinks
      ensures Valid() && View() == Broadcast(old(View()), update, slow)
    {
      var ids := sinks.Keys;
      ghost var was := View();
      FlaggedAll(was, update, slow);
      while ids != {}
        invariant ids <= was.sinks.Keys
        invariant Served(was.sinks, sinks, update, slow + was.desynced, ids)
        invariant gridDesyncedSinks == Flagged(was, slow, ids)
        decreases |ids|
      {
        var id :| id in ids;
        ServedStep(was.sinks, sinks, update, slow + was.desynced, ids, id);
        FlaggedStep(was, slow, ids, id);
        if id in slow {
          gridDesyncedSinks := gridDesyncedSinks + {id};
        } else if id !in gridDesyncedSinks {
          sinks := sinks[id := Apply(sinks[id], update)];
        }
        ids := ids - {id};
      }
      BroadcastDone(was, sinks, update, slow);
    }

    /** A fresh full snapshot for each flagged sink that has drained. */
    method ResyncGridSinks(slow: set<nat>)
      requires Valid()
      modifies this`sinks, this`gridDesyncedSinks
      ensures Valid() && View() == Resync(old(View()), slow)
    {
      var repaired := Reseed(slow);
      gridDesyncedSinks := gridDesyncedSinks - repaired;
      RepairedAll(old(View()), slow);
    }

    method Reseed(slow: set<nat>) returns (repaired: set<nat>)
      requires Valid()
      modifies this`sinks
      ensures sinks == Resync(old(View()), slow).sinks && repaired == Repaired(old(View()), slow, {})
    {
      ghost var was := View();
      var ids := gridDesyncedSinks;
      repaired := {};
      while ids != {}
        invariant ids <= was.desynced
        invariant Served(was.sinks, sinks, Snapshot(was), (was.sinks.Keys - was.desynced) + slow, ids)
        invariant repaired == Repaired(was, slow, ids)
        decreases |ids|
      {
        var id :| id in ids;
        RepairedStep(was, slow, ids, id);
        if id !in sinks {
          ServedAbsent(was.sinks, sinks, Snapshot(was), (was.sinks.Keys - was.desynced) + slow, ids, id);
          repaired := repaired + {id};
        } else {
          ServedStep(was.sinks, sinks, Snapshot(was), (was.sinks.Keys - was.desynced) + slow, ids, id);
          if id !in slow {
            var snapshot := screen.FullSnapshot();
            sinks := sinks[id := Apply(sinks[id], snapshot)];
            repaired := repaired + {id};
          }
        }
        ids := ids - {id};
      }
      ResyncDone(was, sinks, slow);
    }

    /** A new sink gets the whole screen, and the baseline moves with it. */
    method Attach(id: nat, held: Replica)
      requires Valid()
      modifies this, screen
      ensures Valid() && View() == After(old(View()), GridReplica.Attach(id, held))
    {
      ghost var was := View();
      sinks := sinks[id := held];
      var update := screen.GridUpdate(true);
      sinks := sinks[id := Apply(held, update)];
      assert update == Update(was, true);
      assert sinks == was.sinks[id := Apply(held, update)];
    }

    method Detach(id: nat)
      requires Valid()
      modifies this
      ensures Valid() && View() == After(old(View()), GridReplica.Detach(id))
      ensures sinks == old(sinks) - {id} && gridDesyncedSinks == old(gridDesyncedSinks) - {id}
    {
      sinks := sinks - {id};
      gridDesyncedSinks := gridDesyncedSinks - {id};
    }
  }
}
