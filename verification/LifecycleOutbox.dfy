/** The leased outbox, and requests that are compared, stored and replayed. */
module LifecycleOutbox {
  import opened Lifecycle

  // ---------------------------------------------------------------- leases

  ghost predicate GrantRow(db: Db, i: int) {
    0 <= i < |db.grants| ==>
      var g := db.grants[i];
      && g.at <= db.clock && g.at < g.until
      && g.notice in db.outbox && !db.outbox[g.notice].Waiting?
      && (db.outbox[g.notice].Claimed? && db.outbox[g.notice].token == g.token ==> db.outbox[g.notice].until == g.until)
  }

  /** No token is drawn twice; the lease of an earlier claim of a notice is over, and its token replaced. */
  ghost predicate GrantPair(db: Db, i: int, j: int) {
    0 <= i < j < |db.grants| ==>
      && db.grants[i].token != db.grants[j].token
      && (db.grants[i].notice == db.grants[j].notice ==>
            db.grants[i].until <= db.grants[j].at &&
            (db.grants[i].notice in db.outbox && db.outbox[db.grants[i].notice].Claimed? ==>
               db.outbox[db.grants[i].notice].token != db.grants[i].token))
  }

  predicate Granted(db: Db, notice: Notice, token: Token, until: int) {
    exists i :: 0 <= i < |db.grants| && db.grants[i].notice == notice && db.grants[i].token == token &&
                db.grants[i].until == until
  }

  ghost predicate DeliveryRow(db: Db, n: Notice) {
    n in db.outbox && db.outbox[n].Claimed? ==> Granted(db, n, db.outbox[n].token, db.outbox[n].until)
  }

  predicate WithinLease(db: Db, ack: Ack) {
    exists i :: 0 <= i < |db.grants| && db.grants[i].notice == ack.notice && db.grants[i].token == ack.token &&
                db.grants[i].at <= ack.at < db.grants[i].until
  }

  ghost predicate AckRow(db: Db, k: int) {
    0 <= k < |db.acks| ==>
      db.acks[k].notice in db.outbox && db.outbox[db.acks[k].notice] == Delivered && WithinLease(db, db.acks[k])
  }

  ghost predicate AckPair(db: Db, k: int, l: int) {
    0 <= k < l < |db.acks| ==> db.acks[k].notice != db.acks[l].notice
  }

  ghost predicate Leased(db: Db) {
    && (forall i {:trigger GrantRow(db, i)} :: GrantRow(db, i))
    && (forall i, j {:trigger GrantPair(db, i, j)} :: GrantPair(db, i, j))
    && (forall n {:trigger DeliveryRow(db, n)} :: DeliveryRow(db, n))
    && (forall k {:trigger AckRow(db, k)} :: AckRow(db, k))
    && (forall k, l {:trigger AckPair(db, k, l)} :: AckPair(db, k, l))
  }

  /** Deliveries already in the outbox stay as they are, and new ones wait. */
  ghost predicate DeliveriesKept(db: Db, db': Db) {
    && db'.grants == db.grants && db'.acks == db.acks && db'.clock >= db.clock
    && (forall n :: n in db.outbox ==> n in db'.outbox && db'.outbox[n] == db.outbox[n])
    && (forall n :: n in db'.outbox && n !in db.outbox ==> db'.outbox[n] == Waiting)
  }

  lemma LeasedFramed(db: Db, db': Db)
    requires Leased(db) && DeliveriesKept(db, db')
    ensures Leased(db')
  {
    forall i ensures GrantRow(db', i) { assert GrantRow(db, i); }
    forall i, j ensures GrantPair(db', i, j) { assert GrantPair(db, i, j) && GrantRow(db, i); }
    forall n ensures DeliveryRow(db', n) {
      assert DeliveryRow(db, n);
      assert n in db.outbox && db.outbox[n].Claimed? && Granted(db, n, db.outbox[n].token, db.outbox[n].until) ==>
          Granted(db', n, db.outbox[n].token, db.outbox[n].until);
    }
    forall k ensures AckRow(db', k) {
      assert AckRow(db, k);
      assert 0 <= k < |db.acks| && WithinLease(db, db.acks[k]) ==> WithinLease(db', db.acks[k]);
    }
    forall k, l ensures AckPair(db', k, l) { assert AckPair(db, k, l); }
  }

  /** When a notice may be claimed, every lease granted on it so far is over. */
  lemma LeasesAreOver(db: Db, n: Notice, i: int)
    requires Leased(db) && n in db.outbox && 0 <= i < |db.grants| && db.grants[i].notice == n
    requires !db.outbox[n].Delivered? && !(db.outbox[n].Claimed? && db.outbox[n].until > db.clock)
    ensures db.grants[i].until <= db.clock
  {
    assert GrantRow(db, i) && DeliveryRow(db, n);
    var k :| 0 <= k < |db.grants| && db.grants[k].notice == n && db.grants[k].token == db.outbox[n].token &&
             db.grants[k].until == db.outbox[n].until;
    assert GrantRow(db, k) && GrantPair(db, i, k) && GrantPair(db, k, i);
  }

  lemma ClaimKeepsLeased(db: Db, t: TaskId, a: Action, actor: Name, token: Token)
    requires Leased(db) && a.Claim? && HandleClaim(db, t, a, actor, token).Handled? && !TokenUsed(db, token)
    ensures Leased(HandleClaim(db, t, a, actor, token).db)
  {
    var db' := HandleClaim(db, t, a, actor, token).db;
    var n := |db.grants|;
    assert db'.grants[n] == Grant(a.notice, token, db.clock, db.clock + a.seconds);
    forall i | 0 <= i < n ensures db.grants[i].token != token { assert !TokenUsed(db, token); }
    forall i ensures GrantRow(db', i) { assert GrantRow(db, i); }
    forall i, j ensures GrantPair(db', i, j) {
      assert GrantPair(db, i, j);
      if 0 <= i < n && j == n && db.grants[i].notice == a.notice { LeasesAreOver(db, a.notice, i); }
    }
    forall m, tok, until | Granted(db, m, tok, until) ensures Granted(db', m, tok, until) {
      var i :| 0 <= i < n && db.grants[i].notice == m && db.grants[i].token == tok && db.grants[i].until == until;
      assert db'.grants[i] == db.grants[i];
    }
    forall m ensures DeliveryRow(db', m) { assert DeliveryRow(db, m); }
    forall k ensures AckRow(db', k) {
      assert AckRow(db, k);
      if 0 <= k < |db.acks| {
        var i :| 0 <= i < n && db.grants[i].notice == db.acks[k].notice && db.grants[i].token == db.acks[k].token &&
                 db.grants[i].at <= db.acks[k].at < db.grants[i].until;
        assert db'.grants[i] == db.grants[i];
      }
    }
    forall k, l ensures AckPair(db', k, l) { assert AckPair(db, k, l); }
  }

  lemma AcknowledgeKeepsLeased(db: Db, t: TaskId, a: Action, actor: Name)
    requires Leased(db) && a.Acknowledge? && HandleAcknowledge(db, t, a, actor).Handled?
    ensures Leased(HandleAcknowledge(db, t, a, actor).db)
  {
    var db' := HandleAcknowledge(db, t, a, actor).db;
    assert DeliveryRow(db, a.notice);
    var i :| 0 <= i < |db.grants| && db.grants[i].notice == a.notice && db.grants[i].token == a.token &&
             db.grants[i].until == db.outbox[a.notice].until;
    assert GrantRow(db, i);
    assert db'.grants[i] == db.grants[i] && WithinLease(db', Ack(a.notice, a.token, db.clock));
    forall j ensures GrantRow(db', j) { assert GrantRow(db, j); }
    forall j, k ensures GrantPair(db', j, k) { assert GrantPair(db, j, k); }
    forall m ensures DeliveryRow(db', m) {
      assert DeliveryRow(db, m);
      assert m in db.outbox && db.outbox[m].Claimed? && Granted(db, m, db.outbox[m].token, db.outbox[m].until) ==>
          Granted(db', m, db.outbox[m].token, db.outbox[m].until);
    }
    forall k ensures AckRow(db', k) {
      assert AckRow(db, k);
      assert 0 <= k < |db.acks| && WithinLease(db, db.acks[k]) ==> WithinLease(db', db.acks[k]);
    }
    forall k, l ensures AckPair(db', k, l) { assert AckPair(db, k, l) && AckRow(db, k); }
  }

  lemma HandleKeepsDeliveries(db: Db, t: TaskId, q: Request, id: nat, bump: nat)
    requires t in db.tasks && t in db.versions && bump >= 1 && Handle(db, t, q, id, bump).Handled?
    requires !q.action.Claim? && !q.action.Acknowledge?
    ensures LeavesLeases(db, Handle(db, t, q, id, bump))
  {
  }

  lemma HandleKeepsLeased(db: Db, t: TaskId, q: Request, id: nat, bump: nat)
    requires Leased(db) && t in db.tasks && t in db.versions && bump >= 1
    requires Handle(db, t, q, id, bump).Handled? && (q.action.Claim? ==> !TokenUsed(db, id))
    ensures Leased(Handle(db, t, q, id, bump).db)
  {
    if q.action.Claim? {
      ClaimKeepsLeased(db, t, q.action, q.actor, id);
    } else if q.action.Acknowledge? {
      AcknowledgeKeepsLeased(db, t, q.action, q.actor);
    } else {
      HandleKeepsDeliveries(db, t, q, id, bump);
      LeasedFramed(db, Handle(db, t, q, id, bump).db);
    }
  }

  lemma ApplyKeepsLeased(db: Db, t: TaskId, q: Request, wellFormed: bool, id: nat, bump: nat)
    requires Leased(db) && bump >= 1 && (q.action.Claim? ==> !TokenUsed(db, id))
    ensures Leased(Apply(db, t, q, wellFormed, id, bump).db)
  {
    if Apply(db, t, q, wellFormed, id, bump).answer.Fresh? {
      HandleKeepsLeased(db, t, q, id, bump);
      LeasedFramed(Handle(db, t, q, id, bump).db, Apply(db, t, q, wellFormed, id, bump).db);
    }
  }

  lemma OtherStepsKeepDeliveries(db: Db, s: Step)
    requires !s.Call?
    ensures DeliveriesKept(db, Next(db, s))
  {
    StepFrame(db, s);
  }

  lemma NextKeepsLeased(db: Db, s: Step)
    requires Leased(db)
    ensures Leased(Next(db, s))
  {
    if s.Call? {
      NextOfCall(db, s);
      if !(s.request.action.Claim? && TokenUsed(db, s.id)) {
        ApplyKeepsLeased(db, s.task, s.request, s.wellFormed, s.id, s.bump + 1);
      }
    } else {
      OtherStepsKeepDeliveries(db, s);
      LeasedFramed(db, Next(db, s));
    }
  }

  lemma {:induction false} ExecuteKeepsLeased(db: Db, steps: seq<Step>)
    requires Leased(db)
    ensures Leased(Execute(db, steps))
    decreases |steps|
  {
    if steps != [] {
      NextKeepsLeased(db, steps[0]);
      ExecuteKeepsLeased(Next(db, steps[0]), steps[1..]);
    }
  }

  lemma ReachableLeased(db: Db)
    requires Reachable(db)
    ensures Leased(db)
  {
    var clock, steps :| LeadsTo(clock, steps, db);
    ExecuteKeepsLeased(Start(clock), steps);
  }

  // ----------------------------------------------------- history of grants

  lemma HandleGrantsGrow(db: Db, t: TaskId, q: Request, id: nat, bump: nat)
    requires t in db.tasks && t in db.versions && bump >= 1
    ensures Handle(db, t, q, id, bump).Handled? ==> db.grants <= Handle(db, t, q, id, bump).db.grants
  {
    if !q.action.Claim? && !q.action.Acknowledge? && Handle(db, t, q, id, bump).Handled? {
      HandleKeepsDeliveries(db, t, q, id, bump);
    }
  }

  lemma GrantsGrow(db: Db, s: Step)
    ensures db.grants <= Next(db, s).grants
  {
    if s.Call? {
      if s.task in db.tasks && s.task in db.versions {
        HandleGrantsGrow(db, s.task, s.request, s.id, s.bump + 1);
      }
    } else {
      OtherStepsKeepDeliveries(db, s);
    }
  }

  lemma {:induction false} GrantsAreHistory(db: Db, steps: seq<Step>)
    ensures db.grants <= Execute(db, steps).grants
    decreases |steps|
  {
    if steps != [] {
      GrantsGrow(db, steps[0]);
      GrantsAreHistory(Next(db, steps[0]), steps[1..]);
    }
  }

  // --------------------------------------------------------------- theorems

  /**
   One delivery at a time: leases granted on a notice never overlap and never share a
   token; at any instant at most one actor holds one acceptable token of a notice, and
   it is the token of the newest lease, which is still running.
   */
  lemma LeasesAreExclusive(db: Db, i: nat, j: nat, n: Notice, actor: Name, token: Token)
    requires Reachable(db) && i < j < |db.grants|
    ensures db.grants[i].token != db.grants[j].token
    ensures db.grants[i].notice == db.grants[j].notice ==> db.grants[i].until <= db.grants[j].at
    ensures Acceptable(db, n, actor, token) ==>
              (forall other, tok :: Acceptable(db, n, other, tok) ==> other == actor && tok == token)
    ensures Acceptable(db, n, actor, token) && db.grants[j].notice == n && db.grants[j].token == token ==>
              db.grants[j].at <= db.clock < db.grants[j].until
    ensures Acceptable(db, n, actor, token) && db.grants[j].notice == n ==>
              db.grants[i].token != token || db.grants[i].notice != n
  {
    ReachableLeased(db);
    assert GrantPair(db, i, j) && GrantRow(db, j);
  }

  /** A token replaced by a later claim of its notice is never accepted again, whatever happens. */
  lemma ReplacedTokenIsRefused(db: Db, steps: seq<Step>, i: nat, j: nat, actor: Name)
    requires Reachable(db) && i < j < |db.grants| && db.grants[i].notice == db.grants[j].notice
    ensures !Acceptable(Execute(db, steps), db.grants[i].notice, actor, db.grants[i].token)
  {
    ReachableLeased(db);
    ExecuteKeepsLeased(db, steps);
    GrantsAreHistory(db, steps);
    assert GrantPair(Execute(db, steps), i, j);
  }

  /** A notice is delivered by at most one acknowledgement, made within the lease of the token it names. */
  lemma DeliveredOnce(db: Db, k: nat, l: nat)
    requires Reachable(db) && k < |db.acks| && l < |db.acks|
    ensures db.acks[k].notice == db.acks[l].notice ==> k == l
    ensures WithinLease(db, db.acks[k])
    ensures db.acks[k].notice in db.outbox && db.outbox[db.acks[k].notice] == Delivered
  {
    ReachableLeased(db);
    assert AckPair(db, k, l) && AckPair(db, l, k) && AckRow(db, k);
  }

  lemma StoredStays(db: Db, s: Step, id: RequestId)
    requires id in db.requests
    ensures id in Next(db, s).requests && Next(db, s).requests[id] == db.requests[id]
  {
    if s.Call? && Apply(db, s.task, s.request, s.wellFormed, s.id, s.bump + 1).answer.Fresh? {
      HandleKeepsRequests(db, s.task, s.request, s.id, s.bump + 1);
    }
  }

  lemma HandleKeepsRequests(db: Db, t: TaskId, q: Request, id: nat, bump: nat)
    requires t in db.tasks && t in db.versions && bump >= 1
    ensures Handle(db, t, q, id, bump).Handled? ==> Handle(db, t, q, id, bump).db.requests == db.requests
  {
  }

  /**
   An exact replay is for ever: after any further steps the same request returns the
   response that was stored, and writes nothing; another request under its key is
   refused.
   */
  lemma {:induction false} ReplayIsForEver(db: Db, steps: seq<Step>, t: TaskId, q: Request, id: nat, bump: nat)
    requires bump >= 1 && RequestId(t, q.key) in db.requests
    ensures var stored, db' := db.requests[RequestId(t, q.key)], Execute(db, steps);
            Apply(db', t, q, true, id, bump) ==
              Reply(db', if stored.request == q then Replayed(stored.response) else Rejection(IdempotencyConflict))
    decreases |steps|
  {
    if steps != [] {
      StoredStays(db, steps[0], RequestId(t, q.key));
      ReplayIsForEver(Next(db, steps[0]), steps[1..], t, q, id, bump);
    }
  }
}
