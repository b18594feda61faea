/**
 Snapshot, current record, mail projection and run entry of a proposal revision:
 four ordered saves that converge when an interrupted call is repeated
 (src/mailhelp/persistence/proposals.py). One mail.
 */
module ProposalRepository {
  import opened PyText
  import opened RunQueue

  datatype ProposalStatus =
    | NeedsClarification | PendingConfirmation | AlreadyExists | Confirmed | Writing | Created
    | Simulated | Rejected | WriteFailed | Uncertain | Merged

  /** `content` stands for all fields that do not matter here. */
  datatype Proposal = Proposal(id: string, version: nat, status: ProposalStatus, isTask: bool, content: nat)

  datatype Delivery = Pending | Enqueued | Sending | Done

  datatype Notification = Notification(id: string, version: nat, delivery: Delivery)

  datatype Attempt = Attempt(id: string, version: nat, service: string)

  datatype Mail = Mail(key: Key, proposals: seq<Proposal>, notifications: seq<Notification>, attempts: seq<Attempt>)

  /** Each field is a separately saved record. */
  datatype World = World(snapshots: map<(string, nat), Proposal>, current: map<string, Proposal>,
                         mail: Option<Mail>, run: Option<Run>)

  // ------------------------------------------------------- the new projection

  function Replaced(ps: seq<Proposal>, p: Proposal): seq<Proposal> {
    if ps == [] then [] else [if ps[0].id == p.id then p else ps[0]] + Replaced(ps[1..], p)
  }

  predicate HasId(ps: seq<Proposal>, id: string) {
    exists i :: 0 <= i < |ps| && ps[i].id == id
  }

  function Previous(ns: seq<Notification>, p: Proposal): Option<Notification> {
    if ns == [] then None
    else if ns[0].id == p.id && ns[0].version == p.version then Some(ns[0])
    else Previous(ns[1..], p)
  }

  function FirstDelivery(p: Proposal): Delivery {
    if p.status.AlreadyExists? || p.status.Merged? then Done else Pending
  }

  /** The notification of one proposal: the stored one, or a first one for the saved revision. */
  function Renewed(ns: seq<Notification>, item: Proposal, p: Proposal): seq<Notification> {
    var previous := Previous(ns, item);
    if previous.Some? then [previous.value]
    else if item.id == p.id then [Notification(item.id, item.version, FirstDelivery(item))]
    else []
  }

  function Projection(ps: seq<Proposal>, ns: seq<Notification>, p: Proposal): seq<Notification> {
    if ps == [] then [] else Renewed(ns, ps[0], p) + Projection(ps[1..], ns, p)
  }

  predicate Tracked(s: ProposalStatus) {
    s.Writing? || s.Created? || s.WriteFailed? || s.Uncertain?
  }

  function AttemptOf(p: Proposal): Attempt {
    Attempt(p.id, p.version, if p.isTask then "todoist" else "google_calendar")
  }

  function Others(attempts: seq<Attempt>, a: Attempt): seq<Attempt> {
    if attempts == [] then []
    else (if attempts[0] != a then [attempts[0]] else []) + Others(attempts[1..], a)
  }

  function WithAttempt(attempts: seq<Attempt>, p: Proposal, force: bool): seq<Attempt> {
    if !Tracked(p.status) && !force then attempts else Others(attempts, AttemptOf(p)) + [AttemptOf(p)]
  }

  function Projected(m: Mail, p: Proposal): Mail {
    var ps := Replaced(m.proposals, p);
    m.(proposals := ps, notifications := Projection(ps, m.notifications, p),
       attempts := WithAttempt(m.attempts, p, false))
  }

  predicate OpenDecision(ps: seq<Proposal>) {
    exists i :: 0 <= i < |ps| && (ps[i].status.PendingConfirmation? || ps[i].status.NeedsClarification?)
  }

  /** `_sync_run` after the mail was saved. */
  function SyncedRun(run: Option<Run>, m: Mail): Option<Run> {
    if run.None? then None else Some(Changed(run.value, Sync(m.key, OpenDecision(m.proposals))))
  }

  // ----------------------------------------------------------- save_revision

  function WithSnapshot(w: World, p: Proposal): World {
    if (p.id, p.version) in w.snapshots then w else w.(snapshots := w.snapshots[(p.id, p.version) := p])
  }

  function WithCurrent(w: World, p: Proposal): World {
    w.(current := w.current[p.id := p])
  }

  function WithMail(w: World, p: Proposal): World {
    if w.mail.None? then w else w.(mail := Some(Projected(w.mail.value, p)))
  }

  function WithRun(w: World): World {
    if w.mail.None? then w else w.(run := SyncedRun(w.run, w.mail.value))
  }

  /** What is stored after each of the four steps; a step that changes nothing saves nothing. */
  function After(w: World, p: Proposal, steps: nat): World {
    if steps == 0 then w
    else if steps == 1 then WithSnapshot(w, p)
    else if steps == 2 then WithCurrent(WithSnapshot(w, p), p)
    else if steps == 3 then WithMail(WithCurrent(WithSnapshot(w, p), p), p)
    else WithRun(WithMail(WithCurrent(WithSnapshot(w, p), p), p))
  }

  function Saved(w: World, p: Proposal): World {
    After(w, p, 4)
  }

  // -------------------------------------------------------------- validity

  predicate UniqueIds(ps: seq<Proposal>) {
    forall i, j :: 0 <= i < j < |ps| ==> ps[i].id != ps[j].id
  }

  predicate UniqueNotifications(ns: seq<Notification>) {
    forall i, j :: 0 <= i < j < |ns| ==> (ns[i].id, ns[i].version) != (ns[j].id, ns[j].version)
  }

  predicate UniqueAttempts(attempts: seq<Attempt>) {
    forall i, j :: 0 <= i < j < |attempts| ==> attempts[i] != attempts[j]
  }

  predicate Belongs(ps: seq<Proposal>, n: Notification) {
    exists i :: 0 <= i < |ps| && ps[i].id == n.id && ps[i].version == n.version
  }

  /** The stored mail's validators; the proposals of one mail have different ids. */
  predicate ValidMail(m: Mail) {
    && UniqueIds(m.proposals) && UniqueNotifications(m.notifications) && UniqueAttempts(m.attempts)
    && forall i :: 0 <= i < |m.notifications| ==> Belongs(m.proposals, m.notifications[i])
  }

  predicate ValidWorld(w: World) {
    && (w.mail.Some? ==> ValidMail(w.mail.value))
    && (w.run.Some? ==> ValidRun(w.run.value))
  }

  // ------------------------------------------------------ facts about lists

  lemma {:induction false} ReplacedAt(ps: seq<Proposal>, p: Proposal)
    ensures var r := Replaced(ps, p);
      |r| == |ps| && forall i :: 0 <= i < |ps| ==> r[i] == if ps[i].id == p.id then p else ps[i]
  {
    if ps != [] { ReplacedAt(ps[1..], p); }
  }

  lemma {:induction false} PreviousIs(ns: seq<Notification>, p: Proposal)
    ensures var n := Previous(ns, p);
      && (n.Some? ==> n.value in ns && n.value.id == p.id && n.value.version == p.version)
      && (n.None? ==> forall i :: 0 <= i < |ns| ==> (ns[i].id, ns[i].version) != (p.id, p.version))
  {
    if ns != [] { PreviousIs(ns[1..], p); }
  }

  /** With unique keys the stored notification of a key is the one found. */
  lemma {:induction false} PreviousFinds(ns: seq<Notification>, p: Proposal, k: nat)
    requires UniqueNotifications(ns) && k < |ns| && (ns[k].id, ns[k].version) == (p.id, p.version)
    ensures Previous(ns, p) == Some(ns[k])
  {
    if k > 0 {
      assert (ns[0].id, ns[0].version) != (ns[k].id, ns[k].version);
      PreviousFinds(ns[1..], p, k - 1);
    }
  }

  /** Every notification of the projection is the renewed one of some proposal, in order. */
  lemma {:induction false} ProjectionFrom(ps: seq<Proposal>, ns: seq<Notification>, p: Proposal)
    ensures forall n :: n in Projection(ps, ns, p) ==>
      exists i :: 0 <= i < |ps| && n.id == ps[i].id && n.version == ps[i].version && Renewed(ns, ps[i], p) == [n]
  {
    if ps != [] {
      ProjectionFrom(ps[1..], ns, p);
      PreviousIs(ns, ps[0]);
      forall n | n in Projection(ps, ns, p)
        ensures exists i ::
          0 <= i < |ps| && n.id == ps[i].id && n.version == ps[i].version && Renewed(ns, ps[i], p) == [n]
      {
        if n in Renewed(ns, ps[0], p) {
          assert Renewed(ns, ps[0], p) == [n];
        } else {
          var i :| 0 <= i < |ps| - 1 && n.id == ps[1..][i].id && n.version == ps[1..][i].version
                   && Renewed(ns, ps[1..][i], p) == [n];
          assert ps[i + 1] == ps[1..][i];
        }
      }
    }
  }

  lemma {:induction false} ProjectionHas(ps: seq<Proposal>, ns: seq<Notification>, p: Proposal, i: nat)
    requires i < |ps|
    ensures forall n :: n in Renewed(ns, ps[i], p) ==> n in Projection(ps, ns, p)
  {
    if i > 0 { ProjectionHas(ps[1..], ns, p, i - 1); }
  }

  lemma {:induction false} ProjectionUnique(ps: seq<Proposal>, ns: seq<Notification>, p: Proposal)
    requires UniqueIds(ps)
    ensures UniqueNotifications(Projection(ps, ns, p))
  {
    if ps != [] {
      ProjectionUnique(ps[1..], ns, p);
      ProjectionFrom(ps[1..], ns, p);
      PreviousIs(ns, ps[0]);
      var rest := Projection(ps[1..], ns, p);
      forall i | 0 <= i < |rest| ensures rest[i].id != ps[0].id {
        assert rest[i] in rest;
        var j :| 0 <= j < |ps| - 1 && rest[i].id == ps[1..][j].id;
        assert ps[j + 1].id != ps[0].id;
      }
    }
  }

  lemma {:induction false} OthersIs(attempts: seq<Attempt>, a: Attempt)
    ensures forall x :: x in Others(attempts, a) <==> x in attempts && x != a
    ensures UniqueAttempts(attempts) ==> UniqueAttempts(Others(attempts, a))
  {
    if attempts != [] {
      OthersIs(attempts[1..], a);
      assert UniqueAttempts(attempts) ==> attempts[0] !in attempts[1..];
    }
  }

  lemma {:induction false} OthersAppend(attempts: seq<Attempt>, a: Attempt)
    requires a !in attempts
    ensures Others(attempts + [a], a) == attempts
  {
    if attempts == [] {
      assert attempts + [a] == [a] && [a][1..] == [];
    } else {
      assert (attempts + [a])[1..] == attempts[1..] + [a];
      OthersAppend(attempts[1..], a);
    }
  }

  // ----------------------------------------------------------- convergence

  lemma AttemptsStayUnique(attempts: seq<Attempt>, p: Proposal, force: bool)
    requires UniqueAttempts(attempts)
    ensures UniqueAttempts(WithAttempt(attempts, p, force))
    ensures forall a :: a in attempts ==> a in WithAttempt(attempts, p, force)
  {
    OthersIs(attempts, AttemptOf(p));
    var others := Others(attempts, AttemptOf(p));
    assert forall i :: 0 <= i < |others| ==> others[i] in others;
  }

  lemma ProjectedIsValid(m: Mail, p: Proposal)
    requires ValidMail(m)
    ensures ValidMail(Projected(m, p))
  {
    AttemptsStayUnique(m.attempts, p, false);
    var ps := Replaced(m.proposals, p);
    var ns := Projection(ps, m.notifications, p);
    ReplacedAt(m.proposals, p);
    ProjectionUnique(ps, m.notifications, p);
    ProjectionFrom(ps, m.notifications, p);
    forall i | 0 <= i < |ns| ensures Belongs(ps, ns[i]) {
      assert ns[i] in ns;
    }
  }

  /** Projecting onto what was just projected gives every proposal the same notification. */
  lemma RenewedAgain(ps: seq<Proposal>, ns: seq<Notification>, p: Proposal, i: nat)
    requires UniqueIds(ps) && i < |ps|
    ensures Renewed(Projection(ps, ns, p), ps[i], p) == Renewed(ns, ps[i], p)
  {
    var again := Projection(ps, ns, p);
    ProjectionUnique(ps, ns, p);
    ProjectionFrom(ps, ns, p);
    PreviousIs(ns, ps[i]);
    PreviousIs(again, ps[i]);
    var found := Previous(again, ps[i]);
    if found.Some? {
      var j :| 0 <= j < |ps| && found.value.id == ps[j].id && Renewed(ns, ps[j], p) == [found.value];
      assert j == i;
    } else {
      ProjectionHas(ps, ns, p, i);
      if Renewed(ns, ps[i], p) != [] {
        var n := Renewed(ns, ps[i], p)[0];
        assert n in again;
      }
    }
  }

  lemma {:induction false} ProjectionAgain(all: seq<Proposal>, ps: seq<Proposal>, ns: seq<Notification>, p: Proposal)
    requires UniqueIds(all) && |ps| <= |all| && ps == all[|all| - |ps|..]
    ensures Projection(ps, Projection(all, ns, p), p) == Projection(ps, ns, p)
    decreases |ps|
  {
    if ps != [] {
      assert ps[0] == all[|all| - |ps|];
      RenewedAgain(all, ns, p, |all| - |ps|);
      ProjectionAgain(all, ps[1..], ns, p);
    }
  }

  lemma {:induction false} ReplacedAgain(ps: seq<Proposal>, p: Proposal)
    ensures Replaced(Replaced(ps, p), p) == Replaced(ps, p)
  {
    if ps != [] { ReplacedAgain(ps[1..], p); }
  }

  /** Saving the same revision again changes nothing in the mail. */
  lemma ProjectedAgain(m: Mail, p: Proposal)
    requires ValidMail(m)
    ensures Projected(Projected(m, p), p) == Projected(m, p)
  {
    var ps := Replaced(m.proposals, p);
    ReplacedAt(m.proposals, p);
    ReplacedAgain(m.proposals, p);
    ProjectionAgain(ps, ps, m.notifications, p);
    if Tracked(p.status) {
      OthersIs(m.attempts, AttemptOf(p));
      OthersAppend(Others(m.attempts, AttemptOf(p)), AttemptOf(p));
    }
  }

  lemma AfterIsValid(w: World, p: Proposal, steps: nat)
    requires ValidWorld(w)
    ensures ValidWorld(After(w, p, steps))
  {
    AfterFields(w, p, steps);
    if w.mail.Some? {
      ProjectedIsValid(w.mail.value, p);
      SyncedIsValid(w.run, Projected(w.mail.value, p));
    }
  }

  lemma AfterFields(w: World, p: Proposal, steps: nat)
    ensures var t := After(w, p, steps);
      && t.snapshots == (if steps >= 1 && (p.id, p.version) !in w.snapshots
                         then w.snapshots[(p.id, p.version) := p] else w.snapshots)
      && t.current == (if steps >= 2 then w.current[p.id := p] else w.current)
      && t.mail == (if w.mail.Some? && steps >= 3 then Some(Projected(w.mail.value, p)) else w.mail)
      && t.run == (if w.mail.Some? && steps >= 4 then SyncedRun(w.run, Projected(w.mail.value, p)) else w.run)
  {
  }

  lemma SyncedIsValid(run: Option<Run>, m: Mail)
    requires run.Some? ==> ValidRun(run.value)
    ensures SyncedRun(run, m).Some? ==> ValidRun(SyncedRun(run, m).value)
  {
    if run.Some? { ChangeKeepsRun(run.value, Sync(m.key, OpenDecision(m.proposals))); }
  }

  lemma SyncedAgain(run: Option<Run>, m: Mail)
    requires run.Some? ==> ValidRun(run.value)
    ensures SyncedRun(SyncedRun(run, m), m) == SyncedRun(run, m)
  {
    if run.Some? { SyncAgrees(run.value, m.key, OpenDecision(m.proposals)); }
  }

  /** A repeated call ends where the interrupted one would have ended. */
  lemma RepeatConverges(w: World, p: Proposal, steps: nat)
    requires ValidWorld(w)
    ensures Saved(After(w, p, steps), p) == Saved(w, p)
  {
    AfterFields(w, p, steps);
    AfterFields(w, p, 4);
    AfterFields(After(w, p, steps), p, 4);
    if w.mail.Some? {
      ProjectedAgain(w.mail.value, p);
      SyncedAgain(w.run, Projected(w.mail.value, p));
    }
    assert w.current[p.id := p][p.id := p] == w.current[p.id := p];
  }

  function Interrupted(w: World, p: Proposal, cuts: seq<nat>): World
    decreases |cuts|
  {
    if cuts == [] then w else Interrupted(After(w, p, cuts[0]), p, cuts[1..])
  }

  /** After any number of interruptions, wherever they fell, one complete call reaches the same records. */
  lemma {:induction false} SaveConverges(w: World, p: Proposal, cuts: seq<nat>)
    requires ValidWorld(w)
    ensures ValidWorld(Interrupted(w, p, cuts)) && Saved(Interrupted(w, p, cuts), p) == Saved(w, p)
    decreases |cuts|
  {
    if cuts != [] {
      AfterIsValid(w, p, cuts[0]);
      RepeatConverges(w, p, cuts[0]);
      SaveConverges(After(w, p, cuts[0]), p, cuts[1..]);
    }
  }

  /** The projection shows the revision: itself, its notification and its write attempt. */
  predicate Shows(m: Mail, p: Proposal) {
    && p in m.proposals && (Tracked(p.status) ==> AttemptOf(p) in m.attempts)
    && exists i :: 0 <= i < |m.notifications| && AtLeast(m.notifications[i], p.id, p.version, 0)
  }

  lemma RenewedOf(m: Mail, p: Proposal, i: nat) returns (n: Notification)
    requires i < |m.proposals| && m.proposals[i].id == p.id
    ensures n in Projected(m, p).notifications && n.id == p.id && n.version == p.version
  {
    ReplacedAt(m.proposals, p);
    PreviousIs(m.notifications, p);
    ProjectionHas(Replaced(m.proposals, p), m.notifications, p, i);
    n := Renewed(m.notifications, p, p)[0];
  }

  lemma ProjectedShows(m: Mail, p: Proposal)
    requires HasId(m.proposals, p.id)
    ensures Shows(Projected(m, p), p)
  {
    var t := Projected(m, p);
    ReplacedAt(m.proposals, p);
    var i :| 0 <= i < |m.proposals| && m.proposals[i].id == p.id;
    assert t.proposals[i] == p;
    var n := RenewedOf(m, p, i);
    var j :| 0 <= j < |t.notifications| && t.notifications[j] == n;
    assert AtLeast(t.notifications[j], p.id, p.version, 0);
  }

  /** What a complete call guarantees, whatever was interrupted before. */
  lemma SavedAgrees(w: World, p: Proposal)
    ensures var t := Saved(w, p);
      && (p.id, p.version) in t.snapshots && p.id in t.current && t.current[p.id] == p
      && (t.mail.Some? <==> w.mail.Some?)
      && (w.mail.Some? && HasId(w.mail.value.proposals, p.id) ==> Shows(t.mail.value, p))
  {
    if w.mail.Some? && HasId(w.mail.value.proposals, p.id) {
      ProjectedShows(w.mail.value, p);
      assert Saved(w, p).mail == Some(Projected(w.mail.value, p));
    }
  }

  lemma DecisionIsOpen(ps: seq<Proposal>)
    ensures OpenDecision(ps) <==> exists q | q in ps :: q.status.PendingConfirmation? || q.status.NeedsClarification?
  {
    if q :| q in ps && (q.status.PendingConfirmation? || q.status.NeedsClarification?) {
      var i :| 0 <= i < |ps| && ps[i] == q;
    }
  }

  /** A new version is announced as pending, unless it only tells of what exists already or was merged. */
  predicate Announced(n: Notification, p: Proposal) {
    && n.id == p.id && n.version == p.version
    && (n.delivery.Done? <==> p.status.AlreadyExists? || p.status.Merged?) && (n.delivery.Pending? || n.delivery.Done?)
  }

  predicate Unnotified(ns: seq<Notification>, p: Proposal) {
    forall i :: 0 <= i < |ns| ==> !(ns[i].id == p.id && ns[i].version == p.version)
  }

  /**
   The notifications after a save: the stored ones of the versions the mail now holds, each
   with its progress, and one announcement of the saved version if it had none.
   */
  lemma NotificationsExactly(m: Mail, p: Proposal, n: Notification)
    requires UniqueNotifications(m.notifications)
    ensures n in Projected(m, p).notifications <==>
      || (n in m.notifications && HoldsVersion(Projected(m, p).proposals, n))
      || (HasId(m.proposals, p.id) && Unnotified(m.notifications, p) && Announced(n, p))
  {
    var ps := Replaced(m.proposals, p);
    if n in Projection(ps, m.notifications, p) { ProjectedIsKnown(m, p, n); }
    if n in m.notifications && HoldsVersion(ps, n) { StoredIsProjected(m, p, n); }
    if HasId(m.proposals, p.id) && Unnotified(m.notifications, p) && Announced(n, p) { FirstIsProjected(m, p, n); }
  }

  lemma RenewedIsKnown(ns: seq<Notification>, item: Proposal, p: Proposal, n: Notification)
    requires Renewed(ns, item, p) == [n] && (item.id == p.id ==> item == p)
    ensures n in ns || (item == p && Unnotified(ns, p) && Announced(n, p))
  {
    PreviousIs(ns, item);
  }

  lemma ReplacedIsOwn(ps: seq<Proposal>, p: Proposal, i: nat)
    requires i < |ps|
    ensures |Replaced(ps, p)| == |ps|
    ensures Replaced(ps, p)[i].id == p.id ==> Replaced(ps, p)[i] == p && HasId(ps, p.id)
  {
    ReplacedAt(ps, p);
  }

  lemma ProjectedIsKnown(m: Mail, p: Proposal, n: Notification)
    requires n in Projection(Replaced(m.proposals, p), m.notifications, p)
    ensures (n in m.notifications && HoldsVersion(Replaced(m.proposals, p), n))
            || (HasId(m.proposals, p.id) && Unnotified(m.notifications, p) && Announced(n, p))
  {
    var ps := Replaced(m.proposals, p);
    ReplacedAt(m.proposals, p);
    ProjectionFrom(ps, m.notifications, p);
    var i :| 0 <= i < |ps| && n.id == ps[i].id && n.version == ps[i].version
             && Renewed(m.notifications, ps[i], p) == [n];
    ReplacedIsOwn(m.proposals, p, i);
    RenewedIsKnown(m.notifications, ps[i], p, n);
  }

  lemma StoredIsProjected(m: Mail, p: Proposal, n: Notification)
    requires UniqueNotifications(m.notifications)
    requires n in m.notifications && HoldsVersion(Replaced(m.proposals, p), n)
    ensures n in Projection(Replaced(m.proposals, p), m.notifications, p)
  {
    var ps := Replaced(m.proposals, p);
    var k :| 0 <= k < |m.notifications| && m.notifications[k] == n;
    var i :| 0 <= i < |ps| && ps[i].id == n.id && ps[i].version == n.version;
    PreviousFinds(m.notifications, ps[i], k);
    assert n in Renewed(m.notifications, ps[i], p);
    ProjectionHas(ps, m.notifications, p, i);
  }

  lemma FirstIsProjected(m: Mail, p: Proposal, n: Notification)
    requires HasId(m.proposals, p.id) && Unnotified(m.notifications, p) && Announced(n, p)
    ensures n in Projection(Replaced(m.proposals, p), m.notifications, p)
  {
    var ps := Replaced(m.proposals, p);
    ReplacedAt(m.proposals, p);
    var i :| 0 <= i < |m.proposals| && m.proposals[i].id == p.id;
    PreviousIs(m.notifications, p);
    assert ps[i] == p && n in Renewed(m.notifications, p, p);
    ProjectionHas(ps, m.notifications, p, i);
  }

  predicate HoldsVersion(ps: seq<Proposal>, n: Notification) {
    exists i :: 0 <= i < |ps| && ps[i].id == n.id && ps[i].version == n.version
  }

  /** So the first mark of a saved version succeeds exactly if there is something to announce. */
  lemma FirstMarkSucceeds(w: World, p: Proposal)
    requires ValidWorld(w) && w.mail.Some? && HasId(w.mail.value.proposals, p.id)
    requires Unnotified(w.mail.value.notifications, p)
    ensures Saved(w, p).mail.Some?
    ensures var ns := Saved(w, p).mail.value.notifications;
      && (Notification(p.id, p.version, Pending) in ns <==> !p.status.AlreadyExists? && !p.status.Merged?)
      && (Notification(p.id, p.version, Done) in ns <==> p.status.AlreadyExists? || p.status.Merged?)
  {
    var m := w.mail.value;
    assert Saved(w, p).mail == Some(Projected(m, p));
    NotificationsExactly(m, p, Notification(p.id, p.version, Pending));
    NotificationsExactly(m, p, Notification(p.id, p.version, Done));
  }

  /** The write attempts after a save: one more exactly for a version that was or is being written. */
  lemma AttemptsExactly(m: Mail, p: Proposal, a: Attempt)
    ensures a in Projected(m, p).attempts <==>
      || a in m.attempts
      || (a.id == p.id && a.version == p.version && a.service == (if p.isTask then "todoist" else "google_calendar")
          && (p.status.Writing? || p.status.Created? || p.status.WriteFailed? || p.status.Uncertain?))
  {
    OthersIs(m.attempts, AttemptOf(p));
  }

  predicate ReplacedIn(before: Mail, after: Mail, p: Proposal) {
    && after.key == before.key && |after.proposals| == |before.proposals|
    && forall i :: 0 <= i < |after.proposals| ==>
         after.proposals[i] == if before.proposals[i].id == p.id then p else before.proposals[i]
  }

  /** A save touches the records of its own proposal only, and never a snapshot that exists. */
  lemma SavedTouchesOne(w: World, p: Proposal)
    ensures var t := Saved(w, p);
      && t.current == w.current[p.id := p]
      && t.snapshots == (if (p.id, p.version) in w.snapshots then w.snapshots else w.snapshots[(p.id, p.version) := p])
      && (t.mail.Some? <==> w.mail.Some?) && (t.mail.Some? ==> ReplacedIn(w.mail.value, t.mail.value, p))
  {
    if w.mail.Some? { ReplacedAt(w.mail.value.proposals, p); }
  }

  /** The entry of the mail in a stored run waits exactly while one of its decisions is open. */
  lemma RunAgrees(w: World, p: Proposal)
    requires ValidWorld(w) && w.mail.Some? && w.run.Some?
    ensures var before := w.run.value; var k := w.mail.value.key; var i := Position(before.entries, k);
      i < |before.entries| && (before.entries[i].status.Completed? || before.entries[i].status.WaitingForUser?) ==> (
        var t := Saved(w, p);
        && t.run.Some? && Position(t.run.value.entries, k) == i
        && (t.run.value.entries[i].userActionOpen <==> exists q | q in t.mail.value.proposals ::
              q.status.PendingConfirmation? || q.status.NeedsClarification?)
        && t.run.value.entries[i].terminal == before.entries[i].terminal)
  {
    var t := Projected(w.mail.value, p);
    SyncAgrees(w.run.value, w.mail.value.key, OpenDecision(t.proposals));
    assert Saved(w, p).mail == Some(t) && Saved(w, p).run == SyncedRun(w.run, t);
    DecisionIsOpen(t.proposals);
  }

  // ---------------------------------------------- everything else interleaved

  function Marked(ns: seq<Notification>, p: Proposal, expected: Delivery, target: Delivery): seq<Notification> {
    if ns == [] then []
    else [if ns[0].id == p.id && ns[0].version == p.version && ns[0].delivery == expected
          then ns[0].(delivery := target) else ns[0]]
         + Marked(ns[1..], p, expected, target)
  }

  function Rank(d: Delivery): nat {
    match d case Pending => 0 case Enqueued => 1 case Sending => 2 case Done => 3
  }

  datatype Op =
    | Save(proposal: Proposal, steps: nat)    // interrupted before step `steps`, or complete
    | RecordAttempt(proposal: Proposal)
    | Mark(proposal: Proposal, expected: Delivery, target: Delivery)

  /** The four marks of the repository all go forward. */
  predicate Forward(op: Op) {
    op.Mark? ==> Rank(op.expected) < Rank(op.target)
  }

  function Next(w: World, op: Op): World {
    match op
    case Save(p, steps) => After(w, p, steps)
    case RecordAttempt(p) =>
      if w.mail.None? then w
      else w.(mail := Some(w.mail.value.(attempts := WithAttempt(w.mail.value.attempts, p, true))))
    case Mark(p, expected, target) =>
      if w.mail.None? then w
      else w.(mail := Some(w.mail.value.(notifications := Marked(w.mail.value.notifications, p, expected, target))))
  }

  function Run(w: World, ops: seq<Op>): World
    decreases |ops|
  {
    if ops == [] then w else Run(Next(w, ops[0]), ops[1..])
  }

  lemma {:induction false} MarkedAt(ns: seq<Notification>, p: Proposal, expected: Delivery, target: Delivery)
    ensures var r := Marked(ns, p, expected, target);
      |r| == |ns| && forall i :: 0 <= i < |ns| ==>
        && r[i].id == ns[i].id && r[i].version == ns[i].version
        && r[i].delivery == if ns[i] == Notification(p.id, p.version, expected) then target else ns[i].delivery
  {
    if ns != [] { MarkedAt(ns[1..], p, expected, target); }
  }

  lemma {:induction false} MarkedNone(ns: seq<Notification>, p: Proposal, expected: Delivery, target: Delivery)
    ensures Notification(p.id, p.version, expected) !in ns ==> Marked(ns, p, expected, target) == ns
  {
    if ns != [] { MarkedNone(ns[1..], p, expected, target); }
  }

  lemma NextIsValid(w: World, op: Op)
    requires ValidWorld(w)
    ensures ValidWorld(Next(w, op))
  {
    match op
    case Save(p, steps) => AfterIsValid(w, p, steps);
    case RecordAttempt(p) => if w.mail.Some? { AttemptsStayUnique(w.mail.value.attempts, p, true); }
    case Mark(p, expected, target) => if w.mail.Some? { MarkedAt(w.mail.value.notifications, p, expected, target); }
  }

  lemma {:induction false} RunIsValid(w: World, ops: seq<Op>)
    requires ValidWorld(w)
    ensures ValidWorld(Run(w, ops))
    decreases |ops|
  {
    if ops != [] {
      NextIsValid(w, ops[0]);
      RunIsValid(Next(w, ops[0]), ops[1..]);
    }
  }

  /** The snapshot of a version keeps the first value ever written for it. */
  lemma {:induction false} SnapshotIsForever(w: World, ops: seq<Op>, key: (string, nat))
    requires key in w.snapshots
    ensures key in Run(w, ops).snapshots && Run(w, ops).snapshots[key] == w.snapshots[key]
    decreases |ops|
  {
    if ops != [] { SnapshotIsForever(Next(w, ops[0]), ops[1..], key); }
  }

  predicate HasVersion(w: World, id: string, version: nat) {
    w.mail.Some? && exists i :: 0 <= i < |w.mail.value.proposals|
                             && w.mail.value.proposals[i].id == id && w.mail.value.proposals[i].version == version
  }

  /** The mail's notification of the version has come at least this far. */
  predicate Reached(w: World, id: string, version: nat, rank: nat) {
    w.mail.Some? && exists i ::
      0 <= i < |w.mail.value.notifications| && AtLeast(w.mail.value.notifications[i], id, version, rank)
  }

  predicate AtLeast(n: Notification, id: string, version: nat, rank: nat) {
    n.id == id && n.version == version && Rank(n.delivery) >= rank
  }

  lemma ProjectionKeeps(m: Mail, p: Proposal, k: nat, i: nat)
    requires ValidMail(m) && k < |m.notifications| && i < |Replaced(m.proposals, p)|
    requires Replaced(m.proposals, p)[i].id == m.notifications[k].id
    requires Replaced(m.proposals, p)[i].version == m.notifications[k].version
    ensures m.notifications[k] in Projected(m, p).notifications
  {
    var ps := Replaced(m.proposals, p);
    PreviousFinds(m.notifications, ps[i], k);
    ProjectionHas(ps, m.notifications, p, i);
    assert m.notifications[k] in Renewed(m.notifications, ps[i], p);
  }

  lemma ProjectionKeepsReached(m: Mail, p: Proposal, k: nat, id: string, version: nat, rank: nat)
    requires ValidMail(m) && k < |m.notifications| && AtLeast(m.notifications[k], id, version, rank)
    requires exists i :: 0 <= i < |Projected(m, p).proposals| && Projected(m, p).proposals[i].id == id
                         && Projected(m, p).proposals[i].version == version
    ensures exists j ::
      0 <= j < |Projected(m, p).notifications| && AtLeast(Projected(m, p).notifications[j], id, version, rank)
  {
    var t := Projected(m, p);
    var i :| 0 <= i < |t.proposals| && t.proposals[i].id == id && t.proposals[i].version == version;
    ProjectionKeeps(m, p, k, i);
    var j :| 0 <= j < |t.notifications| && t.notifications[j] == m.notifications[k];
  }

  lemma SaveKeepsReached(w: World, p: Proposal, steps: nat, id: string, version: nat, rank: nat)
    requires ValidWorld(w) && Reached(w, id, version, rank) && HasVersion(After(w, p, steps), id, version)
    ensures Reached(After(w, p, steps), id, version, rank)
  {
    var m := w.mail.value;
    var k :| 0 <= k < |m.notifications| && AtLeast(m.notifications[k], id, version, rank);
    var t := After(w, p, steps).mail;
    if steps >= 3 {
      assert t == Some(Projected(m, p));
      ProjectionKeepsReached(m, p, k, id, version, rank);
    } else {
      assert t == w.mail;
    }
  }

  lemma NextKeepsReached(w: World, op: Op, id: string, version: nat, rank: nat)
    requires ValidWorld(w) && Forward(op) && Reached(w, id, version, rank) && HasVersion(Next(w, op), id, version)
    ensures Reached(Next(w, op), id, version, rank)
  {
    var ns := w.mail.value.notifications;
    var k :| 0 <= k < |ns| && AtLeast(ns[k], id, version, rank);
    match op
    case Save(p, steps) => SaveKeepsReached(w, p, steps, id, version, rank);
    case RecordAttempt(_) => assert AtLeast(Next(w, op).mail.value.notifications[k], id, version, rank);
    case Mark(p, expected, target) =>
      MarkedAt(ns, p, expected, target);
      assert AtLeast(Next(w, op).mail.value.notifications[k], id, version, rank);
  }

  predicate VersionThroughout(w: World, ops: seq<Op>, id: string, version: nat)
    decreases |ops|
  {
    HasVersion(w, id, version) && (ops == [] || VersionThroughout(Next(w, ops[0]), ops[1..], id, version))
  }

  /** While a version is the mail's current one, what its notification has reached is never lost. */
  lemma {:induction false} NoStatusIsLost(w: World, ops: seq<Op>, id: string, version: nat, rank: nat)
    requires ValidWorld(w) && (forall i :: 0 <= i < |ops| ==> Forward(ops[i]))
    requires VersionThroughout(w, ops, id, version) && Reached(w, id, version, rank)
    ensures Reached(Run(w, ops), id, version, rank)
    decreases |ops|
  {
    if ops != [] {
      NextKeepsReached(w, ops[0], id, version, rank);
      NextIsValid(w, ops[0]);
      NoStatusIsLost(Next(w, ops[0]), ops[1..], id, version, rank);
    }
  }

  lemma NextKeepsAttempt(w: World, op: Op, a: Attempt)
    requires ValidWorld(w) && w.mail.Some? && a in w.mail.value.attempts
    ensures Next(w, op).mail.Some? && a in Next(w, op).mail.value.attempts
  {
    var attempts := w.mail.value.attempts;
    match op
    case Save(p, steps) =>
      AttemptsStayUnique(attempts, p, false);
      assert Next(w, op).mail == if steps >= 3 then Some(Projected(w.mail.value, p)) else w.mail;
    case RecordAttempt(p) => AttemptsStayUnique(attempts, p, true);
    case Mark(_, _, _) =>
  }

  /** A recorded write attempt is never lost and never doubled. */
  lemma {:induction false} AttemptIsForever(w: World, ops: seq<Op>, a: Attempt)
    requires ValidWorld(w) && w.mail.Some? && a in w.mail.value.attempts
    ensures Run(w, ops).mail.Some? && a in Run(w, ops).mail.value.attempts
    ensures UniqueAttempts(Run(w, ops).mail.value.attempts)
    decreases |ops|
  {
    RunIsValid(w, ops);
    if ops != [] {
      NextKeepsAttempt(w, ops[0], a);
      NextIsValid(w, ops[0]);
      AttemptIsForever(Next(w, ops[0]), ops[1..], a);
    }
  }

  // -------------------------------------------- when the projection is valid

  /** The proposal gets a notification in the projection. */
  predicate Shown(item: Proposal, ns: seq<Notification>, p: Proposal) {
    Previous(ns, item).Some? || item.id == p.id
  }

  predicate SameVersion(a: Proposal, b: Proposal) {
    a.id == b.id && a.version == b.version
  }

  /** No two proposals that are shown are of one id and version. */
  predicate OnceShown(ps: seq<Proposal>, ns: seq<Notification>, p: Proposal) {
    forall i, j :: 0 <= i < j < |ps| ==> !(SameVersion(ps[i], ps[j]) && Shown(ps[i], ns, p) && Shown(ps[j], ns, p))
  }

  /** Some proposal of the version of `item` is shown. */
  predicate ShownAs(ps: seq<Proposal>, ns: seq<Notification>, p: Proposal, item: Proposal) {
    exists i :: 0 <= i < |ps| && SameVersion(ps[i], item) && Shown(ps[i], ns, p)
  }

  lemma RenewedIs(ns: seq<Notification>, item: Proposal, p: Proposal)
    ensures |Renewed(ns, item, p)| == if Shown(item, ns, p) then 1 else 0
    ensures Shown(item, ns, p) ==>
      Renewed(ns, item, p)[0].id == item.id && Renewed(ns, item, p)[0].version == item.version
  {
    PreviousIs(ns, item);
  }

  predicate Among(ns: seq<Notification>, item: Proposal) {
    exists k :: 0 <= k < |ns| && ns[k].id == item.id && ns[k].version == item.version
  }

  /** A version is in the projection exactly if some proposal of it is shown. */
  lemma {:induction false} AmongProjection(ps: seq<Proposal>, ns: seq<Notification>, p: Proposal, item: Proposal)
    ensures Among(Projection(ps, ns, p), item) <==> ShownAs(ps, ns, p, item)
  {
    if ps != [] {
      var rest := ps[1..];
      AmongProjection(rest, ns, p, item);
      RenewedIs(ns, ps[0], p);
      AmongConcat(Renewed(ns, ps[0], p), Projection(rest, ns, p), item);
      if i :| 0 <= i < |rest| && SameVersion(rest[i], item) && Shown(rest[i], ns, p) {
        assert ps[i + 1] == rest[i];
      }
      if i :| 0 <= i < |ps| && SameVersion(ps[i], item) && Shown(ps[i], ns, p) {
        if i > 0 { assert rest[i - 1] == ps[i]; }
      }
    }
  }

  lemma AmongConcat(a: seq<Notification>, b: seq<Notification>, item: Proposal)
    ensures Among(a + b, item) <==> Among(a, item) || Among(b, item)
  {
    if k :| 0 <= k < |a| && a[k].id == item.id && a[k].version == item.version {
      assert (a + b)[k] == a[k];
    }
    if k :| 0 <= k < |b| && b[k].id == item.id && b[k].version == item.version {
      assert (a + b)[|a| + k] == b[k];
    }
  }

  lemma UniqueCons(ns: seq<Notification>, item: Proposal, n: Notification)
    requires n.id == item.id && n.version == item.version
    ensures UniqueNotifications([n] + ns) <==> UniqueNotifications(ns) && !Among(ns, item)
  {
    var all := [n] + ns;
    if UniqueNotifications(all) {
      forall i, j | 0 <= i < j < |ns| ensures (ns[i].id, ns[i].version) != (ns[j].id, ns[j].version) {
        assert ns[i] == all[i + 1] && ns[j] == all[j + 1];
      }
      forall k | 0 <= k < |ns| ensures !(ns[k].id == item.id && ns[k].version == item.version) {
        assert (all[0].id, all[0].version) != (all[k + 1].id, all[k + 1].version) && all[k + 1] == ns[k];
      }
    }
  }

  lemma {:induction false} UniqueExactly(ps: seq<Proposal>, ns: seq<Notification>, p: Proposal)
    ensures UniqueNotifications(Projection(ps, ns, p)) <==> OnceShown(ps, ns, p)
  {
    if ps != [] {
      var rest := ps[1..];
      UniqueExactly(rest, ns, p);
      RenewedIs(ns, ps[0], p);
      AmongProjection(rest, ns, p, ps[0]);
      OnceShownCons(ps, ns, p);
      var renewed := Renewed(ns, ps[0], p);
      if Shown(ps[0], ns, p) {
        assert renewed == [renewed[0]];
        UniqueCons(Projection(rest, ns, p), ps[0], renewed[0]);
      } else {
        assert Projection(ps, ns, p) == Projection(rest, ns, p);
      }
    }
  }

  lemma OnceShownCons(ps: seq<Proposal>, ns: seq<Notification>, p: Proposal)
    requires ps != []
    ensures OnceShown(ps, ns, p)
      <==> (OnceShown(ps[1..], ns, p) && !(Shown(ps[0], ns, p) && ShownAs(ps[1..], ns, p, ps[0])))
  {
    var rest := ps[1..];
    if OnceShown(ps, ns, p) {
      forall i, j | 0 <= i < j < |rest|
        ensures !(SameVersion(rest[i], rest[j]) && Shown(rest[i], ns, p) && Shown(rest[j], ns, p))
      {
        assert rest[i] == ps[i + 1] && rest[j] == ps[j + 1];
      }
      forall i | 0 <= i < |rest|
        ensures !(Shown(ps[0], ns, p) && SameVersion(rest[i], ps[0]) && Shown(rest[i], ns, p))
      {
        assert rest[i] == ps[i + 1];
        assert !(SameVersion(ps[0], ps[i + 1]) && Shown(ps[0], ns, p) && Shown(ps[i + 1], ns, p));
      }
    }
    if OnceShown(rest, ns, p) && !(Shown(ps[0], ns, p) && ShownAs(rest, ns, p, ps[0])) {
      forall i, j | 0 <= i < j < |ps|
        ensures !(SameVersion(ps[i], ps[j]) && Shown(ps[i], ns, p) && Shown(ps[j], ns, p))
      {
        assert ps[j] == rest[j - 1] && (i > 0 ==> ps[i] == rest[i - 1]);
      }
    }
  }

  /**
   For every mail: the projection has one notification per id and version exactly when no two
   shown proposals of the updated list are of one version. Shown are those with a stored
   notification and those with the id of the revision.
   */
  lemma ProjectionUniqueExactly(m: Mail, p: Proposal)
    ensures UniqueNotifications(Projected(m, p).notifications) <==>
      OnceShown(Replaced(m.proposals, p), m.notifications, p)
  {
    UniqueExactly(Replaced(m.proposals, p), m.notifications, p);
  }

  /** So a mail in which the id of the revision stands twice is refused, whatever else it holds. */
  lemma OneIdTwice(m: Mail, p: Proposal, i: nat, j: nat)
    requires i < j < |m.proposals| && m.proposals[i].id == p.id && m.proposals[j].id == p.id
    ensures !UniqueNotifications(Projected(m, p).notifications)
  {
    ProjectionUniqueExactly(m, p);
    ReplacedAt(m.proposals, p);
    var ps := Replaced(m.proposals, p);
    assert ps[i] == p && ps[j] == p && SameVersion(ps[i], ps[j]);
  }

  // ------------------------------------------------- lists one item longer

  lemma {:induction false} ReplacedSnoc(a: seq<Proposal>, x: Proposal, p: Proposal)
    ensures Replaced(a + [x], p) == Replaced(a, p) + [if x.id == p.id then p else x]
  {
    if a == [] {
      assert [] + [x] == [x] && [x][1..] == [];
    } else {
      assert (a + [x])[1..] == a[1..] + [x];
      ReplacedSnoc(a[1..], x, p);
    }
  }

  lemma {:induction false} ProjectionSnoc(a: seq<Proposal>, x: Proposal, ns: seq<Notification>, p: Proposal)
    ensures Projection(a + [x], ns, p) == Projection(a, ns, p) + Renewed(ns, x, p)
  {
    if a == [] {
      assert [] + [x] == [x] && [x][1..] == [];
      assert Projection([x], ns, p) == Renewed(ns, x, p) + Projection([], ns, p);
    } else {
      assert (a + [x])[1..] == a[1..] + [x];
      ProjectionSnoc(a[1..], x, ns, p);
      assert Projection(a + [x], ns, p) == Renewed(ns, a[0], p) + (Projection(a[1..], ns, p) + Renewed(ns, x, p));
    }
  }

  lemma {:induction false} OthersSnoc(attempts: seq<Attempt>, x: Attempt, a: Attempt)
    ensures Others(attempts + [x], a) == Others(attempts, a) + (if x != a then [x] else [])
  {
    if attempts == [] {
      assert [] + [x] == [x] && [x][1..] == [];
    } else {
      assert (attempts + [x])[1..] == attempts[1..] + [x];
      OthersSnoc(attempts[1..], x, a);
    }
  }

  lemma {:induction false} MarkedSnoc(a: seq<Notification>, x: Notification, p: Proposal, expected: Delivery,
                                      target: Delivery)
    ensures Marked(a + [x], p, expected, target) == Marked(a, p, expected, target) + Marked([x], p, expected, target)
  {
    if a == [] {
      assert [] + [x] == [x];
    } else {
      assert (a + [x])[1..] == a[1..] + [x];
      MarkedSnoc(a[1..], x, p, expected, target);
    }
  }

  // ---------------------------------------------------------- the repository

  class Repository {
    var snapshots: map<(string, nat), Proposal>
    var current: map<string, Proposal>
    var mail: Option<Mail>
    var run: Option<Run>

    function Now(): World
      reads this
    {
      World(snapshots, current, mail, run)
    }

    constructor (w: World)
      ensures Now() == w
    {
      snapshots, current, mail, run := w.snapshots, w.current, w.mail, w.run;
    }

    /** `save_revision`, dying before its fifth, fourth, ... or first step. */
    method SaveRevision(p: Proposal, steps: nat)
      requires ValidWorld(Now())
      modifies this
      ensures Now() == After(old(Now()), p, steps)
    {
      if steps == 0 {
        return;
      }
      if (p.id, p.version) !in snapshots {
        snapshots := snapshots[(p.id, p.version) := p];
      }
      if steps == 1 {
        return;
      }
      current := current[p.id := p];
      if steps == 2 || mail.None? {
        return;
      }
      ProjectedIsValid(mail.value, p);
      var changed := Project(mail.value, p);
      if changed != mail.value {
        mail := Some(changed);
      }
      if steps >= 4 {
        SyncRun(changed);
      }
    }

    /** The lists of the new projection, built item by item. */
    static method Project(m: Mail, p: Proposal) returns (changed: Mail)
      ensures changed == Projected(m, p)
    {
      var proposals := Proposals(m.proposals, p);
      var notifications := Notifications(proposals, m.notifications, p);
      var attempts := WriteAttempts(m.attempts, p, false);
      changed := m.(proposals := proposals, notifications := notifications, attempts := attempts);
    }

    static method Proposals(stored: seq<Proposal>, p: Proposal) returns (proposals: seq<Proposal>)
      ensures proposals == Replaced(stored, p)
    {
      proposals := [];
      for i := 0 to |stored|
        invariant proposals == Replaced(stored[..i], p)
      {
        proposals := proposals + [if stored[i].id == p.id then p else stored[i]];
        ReplacedSnoc(stored[..i], stored[i], p);
        assert stored[..i + 1] == stored[..i] + [stored[i]];
      }
      assert stored[..|stored|] == stored;
    }

    static method Notifications(ps: seq<Proposal>, stored: seq<Notification>, p: Proposal)
      returns (notifications: seq<Notification>)
      ensures notifications == Projection(ps, stored, p)
    {
      notifications := [];
      for i := 0 to |ps|
        invariant notifications == Projection(ps[..i], stored, p)
      {
        var previous := Previous(stored, ps[i]);
        ProjectionSnoc(ps[..i], ps[i], stored, p);
        assert ps[..i + 1] == ps[..i] + [ps[i]];
        if previous.Some? {
          notifications := notifications + [previous.value];
        } else if ps[i].id == p.id {
          notifications := notifications + [Notification(ps[i].id, ps[i].version, FirstDelivery(ps[i]))];
        }
      }
      assert ps[..|ps|] == ps;
    }

    static method WriteAttempts(stored: seq<Attempt>, p: Proposal, force: bool) returns (attempts: seq<Attempt>)
      ensures attempts == WithAttempt(stored, p, force)
    {
      if !Tracked(p.status) && !force {
        return stored;
      }
      var reference := AttemptOf(p);
      attempts := [];
      for i := 0 to |stored|
        invariant attempts == Others(stored[..i], reference)
      {
        OthersSnoc(stored[..i], stored[i], reference);
        assert stored[..i + 1] == stored[..i] + [stored[i]];
        if stored[i] != reference {
          attempts := attempts + [stored[i]];
        }
      }
      assert stored[..|stored|] == stored;
      attempts := attempts + [reference];
    }

    /** `_sync_run`. */
    method SyncRun(m: Mail)
      requires run.Some? ==> ValidRun(run.value)
      modifies this`run
      ensures run == SyncedRun(old(run), m)
    {
      if run.None? {
        return;
      }
      var entries := run.value.entries;
      for i := 0 to |entries|
        invariant run == old(run)
        invariant forall j :: 0 <= j < i ==>
          !(entries[j].key == m.key && (entries[j].status.Completed? || entries[j].status.WaitingForUser?))
      {
        if entries[i].key == m.key && (entries[i].status.Completed? || entries[i].status.WaitingForUser?) {
          PositionUnique(entries, m.key, i);
          var pending := OpenDecision(m.proposals);
          if entries[i].userActionOpen == pending {
            assert entries[i := entries[i]] == entries;
            return;
          }
          var changed := entries[i := entries[i].(userActionOpen := pending,
                                                  status := if pending then WaitingForUser else Completed)];
          var counters := RunCounters(changed);
          run := Some(run.value.(entries := changed, counters := counters));
          return;
        }
      }
      var i := Position(entries, m.key);
      if i < |entries| {
        assert entries[i := entries[i]] == entries;
      }
    }

    method RecordWriteAttempt(p: Proposal)
      modifies this`mail
      ensures Now() == Next(old(Now()), RecordAttempt(p))
    {
      if mail.Some? {
        var attempts := WriteAttempts(mail.value.attempts, p, true);
        mail := Some(mail.value.(attempts := attempts));
      }
    }

    /** `_mark_notification`; the result tells the caller whether it may go on. */
    method MarkNotification(p: Proposal, expected: Delivery, target: Delivery) returns (changed: bool)
      modifies this`mail
      ensures Now() == Next(old(Now()), Mark(p, expected, target))
      ensures changed <==> old(mail).Some? && Notification(p.id, p.version, expected) in old(mail).value.notifications
    {
      if mail.None? {
        return false;
      }
      var notifications;
      notifications, changed := MarkedList(mail.value.notifications, p, expected, target);
      MarkedNone(mail.value.notifications, p, expected, target);
      if changed {
        mail := Some(mail.value.(notifications := notifications));
      }
    }

    static method MarkedList(stored: seq<Notification>, p: Proposal, expected: Delivery, target: Delivery)
      returns (notifications: seq<Notification>, changed: bool)
      ensures notifications == Marked(stored, p, expected, target)
      ensures changed <==> Notification(p.id, p.version, expected) in stored
    {
      notifications, changed := [], false;
      for i := 0 to |stored|
        invariant notifications == Marked(stored[..i], p, expected, target)
        invariant changed <==> Notification(p.id, p.version, expected) in stored[..i]
      {
        MarkedSnoc(stored[..i], stored[i], p, expected, target);
        assert stored[..i + 1] == stored[..i] + [stored[i]];
        var item := stored[i];
        if item.id == p.id && item.version == p.version && item.delivery == expected {
          item := item.(delivery := target);
          changed := true;
        }
        notifications := notifications + [item];
      }
      assert stored[..|stored|] == stored;
    }
  }
}
