/** When a connection's counter leaves the map, and with it the bytes still to come (internal/runtime/embedded.go). */
module Strays {
  import opened Panel
  import opened Accounting
  import opened Ledger
  import opened LedgerRuns
  import opened UserFolds
  import opened UserSync

  /** Every connection holds a counter the map still points at. */
  ghost predicate Attached<C>(s: State<C>) {
    forall c <- s.conns :: c in s.server.store && s.server.Resident(c)
  }

  /** The counter is empty and in the map. */
  ghost predicate Idle<C>(s: Server<C>, c: C) {
    c in s.store && s.Resident(c) && s.store[c].bytes == ZERO
  }

  /** The step is an update after which `uuid` is no user, or that deletes it. */
  ghost predicate Removes<C>(e: Event<C>, uuid: string) {
    (e.ReplaceUsers? && uuid !in UsersOf(e.full)) || (e.PatchUsers? && uuid in Uuids(e.deleted))
  }

  /** The update removes the user of a connection whose counter holds nothing. */
  ghost predicate Abandons<C>(s: State<C>, e: Event<C>) {
    exists c <- s.conns :: Idle(s.server, c) && Removes(e, s.server.store[c].uuid)
  }

  /** A counter of the map leaves it exactly when it is empty and its user is removed. */
  lemma UpdateKeeps<C>(s: State<C>, e: Event<C>, c: C)
    requires Sound(s) && Enabled(s, e) && (e.ReplaceUsers? || e.PatchUsers?) && c in s.server.store && s.server.Resident(c)
    ensures var t := Apply(s, e).server;
      c in t.store && (t.Resident(c) <==> !(Idle(s.server, c) && Removes(e, s.server.store[c].uuid)))
  {
    hide UsersOf, Uuids, Replace, Patch, Server.WellFormed;
    if e.ReplaceUsers? {
      ReplaceKeeps(s.server, e.full, e.alloc, c);
    } else {
      PatchKeeps(s.server, e.added, e.deleted, e.modified, e.alloc, c);
    }
  }

  /** Steps other than the two updates leave every counter of the map in it, and add only such connections. */
  lemma OtherKeeps<C>(s: State<C>, e: Event<C>)
    requires Sound(s) && Enabled(s, e) && !e.ReplaceUsers? && !e.PatchUsers? && Attached(s)
    ensures Attached(Apply(s, e)) && Apply(s, e).strayed == s.strayed
  {
    if e.Connect? {
      AdmitOk(s.server, e.hash, e.now, e.ip, e.created);
    } else if e.Read? || e.Write? {
      assert s.conns[e.conn] in s.conns;
      MoveEffect(s, e.conn, if e.Read? then Bytes(Positive(e.n), 0) else Bytes(0, Positive(e.n)));
    } else if e.ConfirmOne? {
      HeadOk(s, e.task);
    }
  }

  /** A step detaches a connection exactly when it removes the user of one whose counter holds nothing. */
  lemma StepAttached<C>(s: State<C>, e: Event<C>)
    requires Sound(s) && Enabled(s, e) && Attached(s)
    ensures Attached(Apply(s, e)) <==> !Abandons(s, e)
    ensures Apply(s, e).strayed == s.strayed
  {
    if e.ReplaceUsers? || e.PatchUsers? {
      UpdateEffect(s, e);
      assert Apply(s, e).conns == s.conns;
      hide Apply, Enabled, Sound, Removes, Idle;
      forall c | c in s.conns
        ensures var t := Apply(s, e).server;
          c in t.store && (t.Resident(c) <==> !(Idle(s.server, c) && Removes(e, s.server.store[c].uuid)))
      {
        UpdateKeeps(s, e, c);
      }
    } else {
      OtherKeeps(s, e);
    }
  }

  /** A detached connection stays detached. */
  lemma StepDetached<C>(s: State<C>, e: Event<C>)
    requires Sound(s) && Enabled(s, e) && !Attached(s)
    ensures !Attached(Apply(s, e))
  {
    var c :| c in s.conns && !(c in s.server.store && s.server.Resident(c));
    OrphanStep(s, e, c);
    ConnsGrow(s, e);
    assert c in Apply(s, e).conns;
  }

  lemma ConnsGrow<C>(s: State<C>, e: Event<C>)
    requires Enabled(s, e)
    ensures s.conns <= Apply(s, e).conns
  {
  }

  /**
    Over every run, every connection's counter is in the map exactly when no update so far removed the
    user of a connection whose counter held nothing; and as long as that is so no byte has strayed.
  */
  lemma {:induction false} AttachedExactly<C(!new)>(states: seq<State<C>>, events: seq<Event<C>>, i: nat)
    requires Run(states, events) && i < |states|
    ensures Attached(states[i]) <==> forall k | 0 <= k < i :: !Abandons(states[k], events[k])
    ensures Attached(states[i]) ==> states[i].strayed == map[]
  {
    hide Apply, Enabled, Attached, Abandons;
    if i == 0 {
      NothingAttached(states[0]);
    } else {
      AttachedExactly(states, events, i - 1);
      RunSound(states, events, i - 1);
      var s, e := states[i - 1], events[i - 1];
      if Attached(s) {
        StepAttached(s, e);
      } else {
        StepDetached(s, e);
      }
    }
  }

  lemma NothingAttached<C(!new)>(s: State<C>)
    requires Initial(s)
    ensures Attached(s)
  {
  }

  /** Then conservation needs only two accounts: bytes counted are confirmed or on the resident counter. */
  lemma NothingStrays<C(!new)>(states: seq<State<C>>, events: seq<Event<C>>, i: nat, u: string)
    requires Run(states, events) && i < |states|
    requires forall k | 0 <= k < i :: OneInFlight(states[k]) && !Abandons(states[k], events[k])
    ensures Sound(states[i])
    ensures var s := states[i];
      Tally(s.counted, u) == Tally(s.confirmed, u).Plus(s.server.Held(u))
  {
    hide Run, Attached, Abandons, OneInFlight, Tally, Bytes.Plus, Server.Held;
    AttachedExactly(states, events, i);
    TrafficConservation(states, events, i, u);
    NoTally(u);
    PlusZero(Tally(states[i].confirmed, u).Plus(states[i].server.Held(u)));
  }

  lemma NoTally(u: string)
    ensures Tally(map[], u) == ZERO
  {
  }
}
