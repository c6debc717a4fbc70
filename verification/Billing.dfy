/** Who is billed for a connection, over whole runs: from the rebuilds of the index to every later byte. */
module Billing {
  import opened Panel
  import opened Accounting
  import opened Ledger
  import opened LedgerRuns
  import opened UserFolds
  import K = KeyStore
  import Strays
  import UserSync

  /** The index a user update writes: nothing when its rebuild failed. */
  function Written<C(==)>(e: Event<C>): Option<map<string, string>> {
    match e
    case ReplaceUsers(_, _, index) => index
    case PatchUsers(_, _, _, _, index) => index
    case _ => None
  }

  /** What the key store did in one rebuild. */
  datatype Rebuild = Rebuild(w: K.World, was: K.Store, now: K.Store, out: seq<UserKey>)

  /** Every index written in the run is that of a rebuild for the users the update left. */
  ghost predicate Rebuilt<C(!new)>(cfg: K.Config, crypto: K.Crypto, node: K.Node, states: seq<State<C>>, events: seq<Event<C>>,
                                   rebuilds: seq<Rebuild>) {
    && Run(states, events) && |rebuilds| == |events|
    && forall k | 0 <= k < |events| :: Written(events[k]).Some? ==>
         var r := rebuilds[k];
         && K.Rebuilds(cfg, crypto, node, r.w, states[k + 1].server.users, r.was, r.now, Some(r.out))
         && Written(events[k]).value == IndexOf(r.out)
  }

  lemma StepIndex<C>(s: State<C>, e: Event<C>)
    requires Sound(s) && Enabled(s, e)
    ensures Apply(s, e).server.index == if Written(e).Some? then Written(e).value else s.server.index
  {
    hide Replace, Patch, UsersOf, Server.WellFormed, Covered, Fresh;
    if e.ReplaceUsers? {
      ReplaceIs(s.server, e.full, e.alloc);
    } else if e.PatchUsers? {
      PatchIndex(s.server, e.added, e.deleted, e.modified, e.alloc);
    }
  }

  lemma PatchIndex<C>(s: Server<C>, added: seq<UserInfo>, deleted: seq<UserInfo>, modified: seq<UserInfo>, alloc: map<string, C>)
    requires s.WellFormed() && Covered(DeleteAll(s, deleted), added + modified, alloc)
    ensures Patch(s, added, deleted, modified, alloc).index == s.index
  {
    hide UpsertAll, DeleteAll, Covered;
    UpsertAllIs(DeleteAll(s, deleted), added + modified, alloc);
  }

  /** A counter never changes hands: what is once counted on it stays its user's. */
  lemma StepOwner<C>(s: State<C>, e: Event<C>, c: C)
    requires Sound(s) && Enabled(s, e) && c in s.server.store
    ensures var t := Apply(s, e).server; c in t.store && t.store[c].uuid == s.server.store[c].uuid
  {
    if IsUpdate(s, e) {
      UpdateEffect(s, e);
    } else if e.Read? || e.Write? {
      MoveEffect(s, e.conn, if e.Read? then Bytes(Positive(e.n), 0) else Bytes(0, Positive(e.n)));
    } else if e.ConfirmOne? {
      HeadOk(s, e.task);
    }
  }

  /** The index in use is the latest one written. */
  lemma {:induction false} IndexOrigin<C(!new)>(states: seq<State<C>>, events: seq<Event<C>>, i: nat) returns (j: int)
    requires Run(states, events) && i < |states|
    ensures -1 <= j < i && forall m | j < m < i :: Written(events[m]).None?
    ensures if j == -1 then states[i].server.index == map[] else Written(events[j]) == Some(states[i].server.index)
  {
    hide Apply, Enabled, Written;
    if i == 0 {
      j := -1;
    } else {
      RunSound(states, events, i - 1);
      StepIndex(states[i - 1], events[i - 1]);
      if Written(events[i - 1]).Some? {
        j := i - 1;
      } else {
        j := IndexOrigin(states, events, i - 1);
      }
    }
  }

  /** The connection admitted in step `k` keeps its counter and the counter its user. */
  lemma {:induction false} ConnectionStays<C(!new)>(states: seq<State<C>>, events: seq<Event<C>>, k: nat, i: nat, conn: nat, uuid: string)
    requires Run(states, events) && k <= i < |states| && conn < |states[k].conns|
    requires states[k].conns[conn] in states[k].server.store && states[k].server.store[states[k].conns[conn]].uuid == uuid
    ensures conn < |states[i].conns| && states[i].conns[conn] == states[k].conns[conn]
    ensures states[i].conns[conn] in states[i].server.store && states[i].server.store[states[i].conns[conn]].uuid == uuid
    decreases i
  {
    hide Apply, Enabled;
    if k < i {
      ConnectionStays(states, events, k, i - 1, conn, uuid);
      RunSound(states, events, i - 1);
      Strays.ConnsGrow(states[i - 1], events[i - 1]);
      StepOwner(states[i - 1], events[i - 1], states[i - 1].conns[conn]);
    }
  }

  /** An admission hands out the counter of the user the index names, who is current and has an id. */
  lemma AdmittedCounter<C>(s: State<C>, e: Event<C>)
    requires Sound(s) && Enabled(s, e) && e.Connect? && Admitted(s.server, e.hash).Some?
    ensures var u, t := Admitted(s.server, e.hash).value, Apply(s, e);
      && |t.conns| == |s.conns| + 1 && e.hash in s.server.index && s.server.index[e.hash] == u
      && u in s.server.users && s.server.users[u].id != 0
      && t.conns[|s.conns|] in t.server.store && t.server.store[t.conns[|s.conns|]].uuid == u
  {
    AdmitOk(s.server, e.hash, e.now, e.ip, e.created);
  }

  /**
    Over every run: whoever presented a hash is charged, in every later state, on a counter of a user who
    owned that hash at the latest rebuild before the admission, that is whose key has the hash and whose id
    is largest among those; and who was current and had a non-zero id when admitted.
  */
  lemma ConnectionBillsOwner<C(!new)>(cfg: K.Config, crypto: K.Crypto, node: K.Node, states: seq<State<C>>, events: seq<Event<C>>,
                                      rebuilds: seq<Rebuild>, k: nat, i: nat)
      returns (j: nat, users: seq<UserInfo>, keys: seq<string>, n: nat)
    requires Rebuilt(cfg, crypto, node, states, events, rebuilds) && k < i < |states|
    requires events[k].Connect? && Admitted(states[k].server, events[k].hash).Some?
    ensures j < k && Written(events[j]).Some? && forall m | j < m < k :: Written(events[m]).None?
    ensures UserSync.Enumerates(users, states[j + 1].server.users)
    ensures K.Build(cfg, crypto, rebuilds[j].was, K.CallOf(node, users, rebuilds[j].w)) == (rebuilds[j].now, K.Done(keys))
    ensures |users| == |keys| && K.Owns(crypto, users, keys, events[k].hash, n)
    ensures users[n].uuid in states[k].server.users && states[k].server.users[users[n].uuid].id != 0
    ensures var conn := |states[k].conns|;
      && conn < |states[i].conns| && states[i].conns[conn] in states[i].server.store
      && states[i].server.store[states[i].conns[conn]].uuid == users[n].uuid
  {
    var s, e := states[k], events[k];
    RunSound(states, events, k);
    AdmittedCounter(s, e);
    ConnectionStays(states, events, k + 1, i, |s.conns|, s.server.index[e.hash]);
    var origin := IndexOrigin(states, events, k);
    assert origin != -1;
    j := origin;
    RunSound(states, events, j + 1);
    var r := rebuilds[j];
    hide Run, Apply, Enabled, K.Build, K.Rebuilds, K.Owns, K.Built, IndexOf;
    users, keys := K.RebuiltKeys(cfg, crypto, node, r.w, states[j + 1].server.users, r.was, r.now, r.out);
    n := K.Billed(crypto, users, keys, r.out, e.hash);
  }
}
