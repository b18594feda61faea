/**
 The notification queue: a delivery is handed over only after `sending` is durable,
 and an interrupted or unclear one is never sent again
 (src/mailhelp/notifications/notifications.py).
 */
module Notifications {
  import opened PyText

  datatype Status = Pending | Deferred | Sending | Sent | Failed | Uncertain | Cancelled
  datatype Error = NoError | Retryable | Refused | Unknown | Interrupted | Obsolete

  /** What the identity of a delivery is hashed from. */
  datatype Id = Id(category: string, reference: string, version: nat, channel: string, device: string, mailbox: nat)

  datatype Delivery = Delivery(status: Status, attempts: nat, error: Error, dueAt: int, updatedAt: int)

  /** Deliveries of one group leave as one message. */
  datatype Group = Group(category: string, channel: string, device: string, mailbox: nat)

  function GroupOf(id: Id): Group {
    Group(id.category, id.channel, id.device, id.mailbox)
  }

  predicate IsPending(s: Status) {
    s.Pending? || s.Deferred? || s.Failed?
  }

  predicate FinalError(e: Error) {
    e.Refused? || e.Unknown? || e.Interrupted?
  }

  predicate Waiting(d: Delivery, maxAttempts: nat) {
    IsPending(d.status) && d.attempts < maxAttempts && !FinalError(d.error)
  }

  /** Nothing is ever sent for it again. */
  predicate Closed(d: Delivery) {
    d.status.Sent? || d.status.Uncertain? || d.status.Cancelled? || (d.status.Failed? && FinalError(d.error))
  }

  // ----------------------------------------------------------- quiet hours

  /** Times of day are minutes; equal-length `HH:MM` strings compare the same way. */
  datatype QuietHours = QuietHours(enabled: bool, start: nat, end: nat, allowSystemErrors: bool)

  predicate QuietNow(q: QuietHours, minute: nat, category: string) {
    if !q.enabled || (category == "system_errors" && q.allowSystemErrors) then false
    else if q.start < q.end then q.start <= minute < q.end
    else minute >= q.start || minute < q.end
  }

  const DAY: nat := 1440

  /** Length of the quiet time; equal bounds mean the whole day. */
  function QuietMinutes(q: QuietHours): int {
    if q.start < q.end then q.end - q.start else DAY - q.start + q.end
  }

  /** It is quiet exactly during the `QuietMinutes` that follow `start`, across midnight too. */
  lemma QuietIsOneInterval(q: QuietHours, minute: nat, category: string)
    requires q.start < 1440 && q.end < 1440 && minute < 1440
    ensures QuietNow(q, minute, category) <==>
      && q.enabled && !(category == "system_errors" && q.allowSystemErrors)
      && (minute - q.start) % 1440 < QuietMinutes(q)
  {
    if minute < q.start {
      assert (minute - q.start) % 1440 == minute - q.start + 1440;
    }
  }

  // -------------------------------------------------------- single delivery

  /** What the settings, the clock and the callbacks say about one delivery. */
  datatype Look = Look(now: int, maxAttempts: nat, history: nat, relevant: bool, reachable: bool, quiet: bool)

  datatype Scan = Drop | Keep(delivery: Delivery, ready: bool)

  function Interrupt(d: Delivery, now: int): Delivery {
    if d.status.Sending? then d.(status := Uncertain, error := Interrupted, updatedAt := now) else d
  }

  /** One delivery in the scan of `_tick`. */
  function Scanned(d: Delivery, l: Look): Scan {
    var d := Interrupt(d, l.now);
    if !Waiting(d, l.maxAttempts) then
      if d.updatedAt < l.now - l.history && !l.relevant then Drop
      else Keep(if IsPending(d.status) then d.(status := Failed) else d, false)
    else if !l.reachable || !l.relevant then
      Keep(d.(status := Cancelled, error := Obsolete, updatedAt := l.now), false)
    else if l.quiet then Keep(d.(status := Deferred, updatedAt := l.now), false)
    else Keep(d, d.status.Deferred? || d.dueAt <= l.now)
  }

  /** One candidate at the start of `_deliver`; it leaves if its status becomes `Sending`. */
  function Started(d: Delivery, l: Look): Delivery {
    if !Waiting(d, l.maxAttempts) then d.(status := Failed)
    else if !l.reachable || !l.relevant then d.(status := Cancelled, error := Obsolete, updatedAt := l.now)
    else if l.quiet then d.(status := Deferred, updatedAt := l.now)
    else d.(status := Sending, updatedAt := l.now, attempts := d.attempts + 1)
  }

  datatype Outcome = Delivered | AskedToRetry | Rejected | Unclear

  datatype Backoff = Backoff(initial: nat, limit: nat)

  function Power2(n: nat): nat {
    if n == 0 then 1 else 2 * Power2(n - 1)
  }

  function Delay(b: Backoff, attempts: nat): nat {
    var d := b.initial * Power2(if attempts == 0 then 0 else attempts - 1);
    if b.limit < d then b.limit else d
  }

  /** The answer of the sender, for each delivery of the group. */
  function Answered(d: Delivery, o: Outcome, maxAttempts: nat, now: int, b: Backoff): Delivery {
    var attempts := if o.Rejected? then maxAttempts else d.attempts;
    var status := match o case Delivered => Sent case Unclear => Uncertain case _ => Failed;
    var error := match o
      case Delivered => NoError
      case AskedToRetry => Retryable
      case Rejected => Refused
      case Unclear => Unknown;
    Delivery(status, attempts, error, now + Delay(b, attempts), now)
  }

  // --------------------------------------------------------------- machine

  datatype World = World(
    entries: map<Id, Delivery>,   // durable
    ready: set<Id>,               // memory of a tick: scanned, not yet delivered
    flight: set<Id>,              // memory: the group being delivered
    over: bool,                   // memory: the sender has been called with it
    limit: nat,                   // memory: the attempt limit this delivery reads
    handed: map<Id, nat>)         // history: how often an existing entry was handed over

  datatype Event =
    | Enqueue(additions: map<Id, Delivery>)
    | ScanAll(look: Id -> Look)
    | Start(group: Group, look: Id -> Look, limit: nat)
    | HandOver
    | Finish(outcome: Outcome, now: int, backoff: Backoff)
    | Crash

  predicate FreshDelivery(d: Delivery) {
    d.attempts == 0 && d.error.NoError? && (d.status.Pending? || d.status.Sent? || d.status.Uncertain?)
  }

  /** Every attempt limit ever read is at most `m`. */
  ghost predicate Enabled(w: World, e: Event, m: nat) {
    match e
    case Enqueue(additions) =>
      additions.Keys !! w.entries.Keys && forall id :: id in additions ==> FreshDelivery(additions[id])
    case ScanAll(look) => w.flight == {} && forall id :: id in w.entries ==> look(id).maxAttempts <= m
    case Start(g, look, limit) =>
      w.flight == {} && limit <= m && forall id :: id in OfGroup(w.ready, g) ==> look(id).maxAttempts == limit
    case HandOver => w.flight != {} && !w.over
    case Finish(_, _, _) => w.flight != {} && w.over
    case Crash => true
  }

  function ScannedEntries(entries: map<Id, Delivery>, look: Id -> Look): map<Id, Delivery> {
    map id | id in entries && Scanned(entries[id], look(id)).Keep? :: Scanned(entries[id], look(id)).delivery
  }

  function ReadyIds(entries: map<Id, Delivery>, look: Id -> Look): set<Id> {
    set id | id in entries && Scanned(entries[id], look(id)).Keep? && Scanned(entries[id], look(id)).ready
  }

  function OfGroup(ids: set<Id>, g: Group): set<Id> {
    set id | id in ids && GroupOf(id) == g
  }

  function StartedEntries(entries: map<Id, Delivery>, ids: set<Id>, look: Id -> Look): map<Id, Delivery> {
    map id | id in entries :: if id in ids then Started(entries[id], look(id)) else entries[id]
  }

  function AnsweredEntries(entries: map<Id, Delivery>, ids: set<Id>, o: Outcome, limit: nat, now: int, b: Backoff)
    : map<Id, Delivery>
  {
    map id | id in entries :: if id in ids then Answered(entries[id], o, limit, now, b) else entries[id]
  }

  function Handed(w: World, id: Id): nat {
    if id in w.handed then w.handed[id] else 0
  }

  function Apply(w: World, e: Event): World {
    match e
    case Enqueue(additions) => w.(entries := w.entries + additions)
    case ScanAll(look) =>
      var kept := ScannedEntries(w.entries, look);
      w.(entries := kept, ready := ReadyIds(w.entries, look), handed := w.handed - (w.handed.Keys - kept.Keys))
    case Start(g, look, limit) =>
      var ids := OfGroup(w.ready, g);
      var entries := StartedEntries(w.entries, ids, look);
      w.(entries := entries, ready := w.ready - ids, over := false, limit := limit,
         flight := set id | id in ids && id in entries && entries[id].status.Sending?)
    case HandOver =>
      w.(over := true, handed := map id | id in w.entries :: Handed(w, id) + (if id in w.flight then 1 else 0))
    case Finish(o, now, b) =>
      w.(entries := AnsweredEntries(w.entries, w.flight, o, w.limit, now, b), flight := {}, over := false)
    case Crash => w.(ready := {}, flight := {}, over := false)
  }

  ghost predicate Allowed(w: World, es: seq<Event>, m: nat)
    decreases |es|
  {
    es == [] || (Enabled(w, es[0], m) && Allowed(Apply(w, es[0]), es[1..], m))
  }

  function Execute(w: World, es: seq<Event>): World
    decreases |es|
  {
    if es == [] then w else Execute(Apply(w, es[0]), es[1..])
  }

  const EMPTY: World := World(map[], {}, {}, false, 0, map[])

  // ------------------------------------------------------------- invariant

  predicate Fits(w: World, id: Id, m: nat)
    requires id in w.entries
  {
    var d := w.entries[id];
    && Handed(w, id) <= d.attempts <= m
    && (id in w.flight ==>
          d.status.Sending? && d.attempts <= w.limit && Handed(w, id) + (if w.over then 0 else 1) <= d.attempts)
    && (id in w.ready ==> IsPending(d.status) && !FinalError(d.error))
  }

  ghost predicate Inv(w: World, m: nat) {
    && w.ready <= w.entries.Keys && w.flight <= w.entries.Keys && w.ready !! w.flight && w.limit <= m
    && w.handed.Keys <= w.entries.Keys
    && forall id :: id in w.entries ==> Fits(w, id, m)
  }

  lemma EnqueueKeepsInv(w: World, e: Event, m: nat)
    requires Inv(w, m) && Enabled(w, e, m) && e.Enqueue?
    ensures Inv(Apply(w, e), m)
  {
    var t := Apply(w, e);
    forall id | id in t.entries ensures Fits(t, id, m) {
      if id in w.entries { assert Fits(w, id, m); }
    }
  }

  lemma ScanKeepsInv(w: World, e: Event, m: nat)
    requires Inv(w, m) && Enabled(w, e, m) && e.ScanAll?
    ensures Inv(Apply(w, e), m)
  {
    var t := Apply(w, e);
    forall id | id in t.entries ensures Fits(t, id, m) {
      assert Fits(w, id, m);
    }
  }

  lemma StartKeepsInv(w: World, e: Event, m: nat)
    requires Inv(w, m) && Enabled(w, e, m) && e.Start?
    ensures Inv(Apply(w, e), m)
  {
    var t := Apply(w, e);
    forall id | id in t.entries ensures Fits(t, id, m) {
      assert Fits(w, id, m);
    }
  }

  lemma FlightKeepsInv(w: World, e: Event, m: nat)
    requires Inv(w, m) && Enabled(w, e, m) && (e.HandOver? || e.Finish? || e.Crash?)
    ensures Inv(Apply(w, e), m)
  {
    var t := Apply(w, e);
    forall id | id in t.entries ensures Fits(t, id, m) {
      assert Fits(w, id, m);
    }
  }

  lemma StepKeepsInv(w: World, e: Event, m: nat)
    requires Inv(w, m) && Enabled(w, e, m)
    ensures Inv(Apply(w, e), m)
  {
    match e
    case Enqueue(_) => EnqueueKeepsInv(w, e, m);
    case ScanAll(_) => ScanKeepsInv(w, e, m);
    case Start(_, _, _) => StartKeepsInv(w, e, m);
    case HandOver => FlightKeepsInv(w, e, m);
    case Finish(_, _, _) => FlightKeepsInv(w, e, m);
    case Crash => FlightKeepsInv(w, e, m);
  }

  lemma {:induction false} RunKeepsInv(w: World, es: seq<Event>, m: nat)
    requires Inv(w, m) && Allowed(w, es, m)
    ensures Inv(Execute(w, es), m)
    decreases |es|
  {
    if es != [] {
      StepKeepsInv(w, es[0], m);
      RunKeepsInv(Apply(w, es[0]), es[1..], m);
    }
  }

  // ------------------------------------------------------------- theorems

  /**
   Over every interleaving of producers, ticks and crashes: an existing entry was handed
   over at most `m` times, and whatever is handed over next is durably `sending`.
   */
  lemma HandedAtMost(es: seq<Event>, m: nat, id: Id)
    requires Allowed(EMPTY, es, m) && id in Execute(EMPTY, es).entries
    ensures var w := Execute(EMPTY, es);
      && Handed(w, id) <= w.entries[id].attempts <= m
      && (Enabled(w, HandOver, m) && id in w.flight ==> w.entries[id].status.Sending? && Handed(w, id) < m)
  {
    RunKeepsInv(EMPTY, es, m);
    assert Fits(Execute(EMPTY, es), id, m);
  }

  /** A closed delivery is never handed over again: it stays closed as long as its entry exists. */
  lemma ClosedStays(w: World, e: Event, m: nat, id: Id)
    requires Inv(w, m) && Enabled(w, e, m) && id in w.entries && Closed(w.entries[id])
    ensures var t := Apply(w, e);
      id in t.entries ==> Closed(t.entries[id]) && Handed(t, id) == Handed(w, id)
  {
    assert Fits(w, id, m);
  }

  /** The entry exists in every state of the run. */
  ghost predicate ExistsThroughout(w: World, es: seq<Event>, id: Id)
    decreases |es|
  {
    id in w.entries && (es == [] || ExistsThroughout(Apply(w, es[0]), es[1..], id))
  }

  lemma {:induction false} ClosedForever(w: World, es: seq<Event>, m: nat, id: Id)
    requires Inv(w, m) && Allowed(w, es, m) && ExistsThroughout(w, es, id) && Closed(w.entries[id])
    ensures var t := Execute(w, es);
      id in t.entries && Closed(t.entries[id]) && Handed(t, id) == Handed(w, id)
    decreases |es|
  {
    if es != [] {
      ClosedStays(w, es[0], m, id);
      StepKeepsInv(w, es[0], m);
      ClosedForever(Apply(w, es[0]), es[1..], m, id);
    }
  }

  /** Corollary of the invariant: after a crash during a delivery the next scan closes it as interrupted. */
  lemma InterruptedIsClosed(w: World, look: Id -> Look, m: nat, id: Id)
    requires Inv(w, m) && id in w.flight
    ensures var t := Apply(Apply(w, Crash), ScanAll(look));
      id in t.entries && Closed(t.entries[id]) && t.entries[id].status.Uncertain? && t.entries[id].error.Interrupted?
  {
    assert Fits(w, id, m);
  }

  // ------------------------------------------- what a step makes of a delivery

  /**
   What an answer makes of a delivery in flight: delivered is sent, an unclear answer is
   uncertain, a refusal final; only a request to retry leaves it waiting, while attempts are
   left, and not due before now.
   */
  lemma AnswerCloses(w: World, o: Outcome, now: int, b: Backoff, m: nat, id: Id)
    requires Inv(w, m) && Enabled(w, Finish(o, now, b), m) && id in w.flight
    ensures var t := Apply(w, Finish(o, now, b));
      && id in t.entries
      && (var d := t.entries[id];
          && (d.status.Sent? <==> o.Delivered?)
          && (d.status.Uncertain? && d.error.Unknown? <==> o.Unclear?)
          && (d.status.Failed? && d.error.Refused? <==> o.Rejected?)
          && (d.status.Failed? && d.error.Retryable? <==> o.AskedToRetry?)
          && (Closed(d) <==> !o.AskedToRetry?)
          && (Waiting(d, w.limit) <==> o.AskedToRetry? && w.entries[id].attempts < w.limit)
          && d.updatedAt == now && d.dueAt >= now
          && d.attempts == if o.Rejected? then w.limit else w.entries[id].attempts)
  {
    assert Fits(w, id, m);
  }

  /** The pause before the next attempt starts at the initial one and doubles up to its limit. */
  lemma PauseDoubles(b: Backoff, attempts: nat)
    requires attempts >= 1
    ensures Delay(b, 1) == if b.limit < b.initial then b.limit else b.initial
    ensures Delay(b, attempts + 1)
         == if b.limit < 2 * Delay(b, attempts) then b.limit else 2 * Delay(b, attempts)
    ensures forall d: Delivery, limit: nat, now: int {:trigger Answered(d, AskedToRetry, limit, now, b)} ::
      d.attempts == attempts ==> Answered(d, AskedToRetry, limit, now, b).dueAt == now + Delay(b, attempts)
  {
    var p := Power2(attempts - 1);
    assert Power2(attempts) == 2 * p && Power2(0) == 1;
    assert b.initial * (2 * p) == 2 * (b.initial * p);
  }

  /** Over every run: a delivery is handed over again only after the sender has asked to retry it. */
  lemma AgainOnlyWhenAsked(w: World, o: Outcome, now: int, b: Backoff, es: seq<Event>, m: nat, id: Id)
    requires Inv(w, m) && Enabled(w, Finish(o, now, b), m) && id in w.flight
    requires Allowed(Apply(w, Finish(o, now, b)), es, m) && ExistsThroughout(Apply(w, Finish(o, now, b)), es, id)
    requires Handed(Execute(Apply(w, Finish(o, now, b)), es), id) > Handed(w, id)
    ensures o.AskedToRetry?
  {
    var t := Apply(w, Finish(o, now, b));
    AnswerCloses(w, o, now, b, m, id);
    StepKeepsInv(w, Finish(o, now, b), m);
    if !o.AskedToRetry? { ClosedForever(t, es, m, id); }
  }

  /** One message is for one category, channel, device and mailbox. */
  lemma GroupIsExact(a: Id, b: Id)
    ensures GroupOf(a) == GroupOf(b)
      <==> (a.category, a.channel, a.device, a.mailbox) == (b.category, b.channel, b.device, b.mailbox)
  {
  }

  /** What the scan finds: due or deferred mail that waits, is wanted and may disturb now. */
  lemma ReadyExactly(w: World, look: Id -> Look, id: Id)
    requires id in w.entries
    ensures var d := w.entries[id]; var l := look(id);
      id in ReadyIds(w.entries, look)
      <==> (&& Waiting(d, l.maxAttempts) && l.reachable && l.relevant && !l.quiet
            && (d.status.Deferred? || d.dueAt <= l.now))
  {
  }

  /**
   What the scan leaves: nothing that still waits is dropped; what is no longer wanted is
   cancelled, what may not disturb deferred, an interrupted one uncertain, and only old
   irrelevant history is removed.
   */
  lemma ScanLeaves(w: World, look: Id -> Look, id: Id)
    requires id in w.entries
    ensures var d := w.entries[id]; var l := look(id); var after := ScannedEntries(w.entries, look);
      var touched := if d.status.Sending? then l.now else d.updatedAt;
      && (id !in after <==> !Waiting(d, l.maxAttempts) && !l.relevant && touched < l.now - l.history)
      && (id in after ==>
            && (d.status.Sending? <==> after[id].error.Interrupted? && after[id].status.Uncertain? && d != after[id])
            && (Waiting(d, l.maxAttempts) && !(l.reachable && l.relevant) ==>
                  after[id] == d.(status := Cancelled, error := Obsolete, updatedAt := l.now))
            && (Waiting(d, l.maxAttempts) && l.reachable && l.relevant && l.quiet ==>
                  after[id] == d.(status := Deferred, updatedAt := l.now))
            && (Waiting(d, l.maxAttempts) && l.reachable && l.relevant && !l.quiet ==> after[id] == d)
            && (IsPending(d.status) && !Waiting(d, l.maxAttempts) ==> after[id] == d.(status := Failed))
            && (d.status.Sent? || d.status.Uncertain? || d.status.Cancelled? ==> after[id] == d))
  {
  }

  /** What leaves at the start of a delivery, looked at again; each attempt is counted before it is made. */
  lemma StartLeaves(w: World, g: Group, look: Id -> Look, limit: nat, id: Id)
    requires id in w.entries && id in w.ready && GroupOf(id) == g && !w.entries[id].status.Sending?
    ensures var t := Apply(w, Start(g, look, limit)); var d := w.entries[id]; var l := look(id);
      var waits := Waiting(d, l.maxAttempts);
      && id in t.entries && id !in t.ready
      && (id in t.flight <==> waits && l.reachable && l.relevant && !l.quiet)
      && (id in t.flight ==>
            t.entries[id] == d.(status := Sending, updatedAt := l.now, attempts := d.attempts + 1))
      && (!waits ==> t.entries[id] == d.(status := Failed))
      && (waits && !(l.reachable && l.relevant) ==>
            t.entries[id] == d.(status := Cancelled, error := Obsolete, updatedAt := l.now))
      && (waits && l.reachable && l.relevant && l.quiet ==>
            t.entries[id] == d.(status := Deferred, updatedAt := l.now))
  {
  }

  // ------------------------------------------------------------ the service

  lemma {:induction false} ExecuteAppend(w: World, es: seq<Event>, e: Event, m: nat)
    requires Allowed(w, es, m) && Enabled(Execute(w, es), e, m)
    ensures Allowed(w, es + [e], m) && Execute(w, es + [e]) == Apply(Execute(w, es), e)
    decreases |es|
  {
    if es == [] {
      assert es + [e] == [e] && [e][1..] == [];
    } else {
      assert (es + [e])[0] == es[0] && (es + [e])[1..] == es[1..] + [e];
      ExecuteAppend(Apply(w, es[0]), es[1..], e, m);
    }
  }

  ghost predicate Reached(log: seq<Event>, w: World, m: nat) {
    Allowed(EMPTY, log, m) && Execute(EMPTY, log) == w
  }

  lemma ReachedInv(log: seq<Event>, w: World, m: nat)
    requires Reached(log, w, m)
    ensures Inv(w, m)
  {
    RunKeepsInv(EMPTY, log, m);
  }

  function WaitingIds(entries: map<Id, Delivery>, maxAttempts: nat): set<Id> {
    set id | id in entries && Waiting(entries[id], maxAttempts)
  }

  function AsMap(additions: seq<(Id, Delivery)>): map<Id, Delivery> {
    if additions == [] then map[]
    else
      var (id, delivery) := additions[|additions| - 1];
      AsMap(additions[..|additions| - 1])[id := delivery]
  }

  predicate NewFor(entries: map<Id, Delivery>, additions: seq<(Id, Delivery)>) {
    forall i :: 0 <= i < |additions| ==> additions[i].0 !in entries && FreshDelivery(additions[i].1)
  }

  lemma {:induction false} AsMapIsNew(entries: map<Id, Delivery>, additions: seq<(Id, Delivery)>)
    requires NewFor(entries, additions)
    ensures var a := AsMap(additions);
      && a.Keys !! entries.Keys && (forall id :: id in a ==> FreshDelivery(a[id]))
      && |a.Keys| <= |additions|
      && forall i :: 0 <= i < |additions| ==> additions[i].0 in a
  {
    if additions != [] {
      var n := |additions| - 1;
      AsMapIsNew(entries, additions[..n]);
      assert AsMap(additions).Keys == AsMap(additions[..n]).Keys + {additions[n].0};
      forall i | 0 <= i < |additions| ensures additions[i].0 in AsMap(additions) {
        if i < n { assert additions[..n][i] == additions[i]; }
      }
    }
  }

  lemma SubsetCount(a: set<Id>, b: set<Id>)
    requires a <= b
    ensures |a| <= |b|
  {
    assert b == a + (b - a);
  }

  /** New entries add at most their own number to the waiting ones. */
  lemma WaitingGrowth(entries: map<Id, Delivery>, additions: map<Id, Delivery>, maxAttempts: nat)
    requires additions.Keys !! entries.Keys
    ensures |WaitingIds(entries + additions, maxAttempts)| <= |WaitingIds(entries, maxAttempts)| + |additions.Keys|
  {
    var both := WaitingIds(entries, maxAttempts) + additions.Keys;
    SubsetCount(WaitingIds(entries + additions, maxAttempts), both);
  }

  /** The earliest due time of the waiting group, or a default for a new group. */
  ghost predicate IsGroupDue(entries: map<Id, Delivery>, g: Group, maxAttempts: nat, otherwise: int, due: int) {
    var group := OfGroup(WaitingIds(entries, maxAttempts), g);
    && (forall id :: id in group ==> due <= entries[id].dueAt)
    && (if group == {} then due == otherwise else exists id :: id in group && due == entries[id].dueAt)
  }

  /** What happened, as far as it identifies a delivery. */
  datatype Occasion = Occasion(category: string, reference: string, version: nat, mailbox: nat)

  function Target(e: Occasion, destination: (string, string)): Id {
    Id(e.category, e.reference, e.version, destination.0, destination.1, e.mailbox)
  }

  predicate IsTarget(e: Occasion, destinations: seq<(string, string)>, excluded: set<string>, id: Id) {
    id == Target(e, (id.channel, id.device)) && (id.channel, id.device) in destinations && id.channel !in excluded
  }

  /** A repeated daily briefing starts as what became of the earlier one. */
  predicate InheritedStatus(s: Option<Status>) {
    s.Some? ==> s.value.Sent? || s.value.Uncertain?
  }

  ghost predicate KeepsAll(a: map<Id, Delivery>, b: map<Id, Delivery>) {
    forall id :: id in a ==> id in b && b[id] == a[id]
  }

  ghost predicate AllPresent(entries: map<Id, Delivery>, e: Occasion, destinations: seq<(string, string)>,
                             excluded: set<string>) {
    forall i :: 0 <= i < |destinations| ==> destinations[i].0 in excluded || Target(e, destinations[i]) in entries
  }

  /** How many records still fit beside the waiting ones. */
  function Available(entries: map<Id, Delivery>, maxAttempts: nat, maxPending: nat): nat {
    var pending := |WaitingIds(entries, maxAttempts)|;
    if pending < maxPending then maxPending - pending else 0
  }

  /** Every destination has a record or a new one for it. */
  ghost predicate Covers(entries: map<Id, Delivery>, additions: seq<(Id, Delivery)>, e: Occasion,
                         destinations: seq<(string, string)>, excluded: set<string>) {
    forall i :: 0 <= i < |destinations| ==>
      destinations[i].0 in excluded || Target(e, destinations[i]) in entries
        || Added(additions, Target(e, destinations[i]))
  }

  predicate Added(additions: seq<(Id, Delivery)>, id: Id) {
    exists k :: 0 <= k < |additions| && additions[k].0 == id
  }

  /** The due time a delivery of the group gets. */
  method GroupDue(entries: map<Id, Delivery>, g: Group, maxAttempts: nat, otherwise: int) returns (due: int)
    ensures IsGroupDue(entries, g, maxAttempts, otherwise, due)
  {
    var ids := OfGroup(WaitingIds(entries, maxAttempts), g);
    var left := ids;
    due := otherwise;
    while left != {}
      invariant left <= ids
      invariant forall id :: id in ids - left ==> due <= entries[id].dueAt
      invariant if left == ids then due == otherwise else exists id :: id in ids && due == entries[id].dueAt
      decreases |left|
    {
      var id :| id in left;
      if left == ids || entries[id].dueAt < due {
        due := entries[id].dueAt;
      }
      left := left - {id};
    }
  }

  /** A record that was never attempted: pending, or what became of an earlier briefing. */
  predicate IsNew(d: Delivery, inherited: Option<Status>, now: int) {
    && d.status == (if inherited.Some? then inherited.value else Pending)
    && d.attempts == 0 && d.error.NoError? && d.updatedAt == now
  }

  /** One delivery for every destination that has none yet, due with its waiting group. */
  method NewDeliveries(entries: map<Id, Delivery>, e: Occasion, destinations: seq<(string, string)>,
                       excluded: set<string>, maxAttempts: nat, now: int, delay: nat, inherited: Id -> Option<Status>)
    returns (additions: seq<(Id, Delivery)>)
    requires forall id :: InheritedStatus(inherited(id))
    ensures NewFor(entries, additions) && Covers(entries, additions, e, destinations, excluded)
    ensures forall k :: 0 <= k < |additions| ==> IsTarget(e, destinations, excluded, additions[k].0)
    ensures forall k :: 0 <= k < |additions| ==> IsNew(additions[k].1, inherited(additions[k].0), now)
    ensures forall k :: 0 <= k < |additions| ==>
      IsGroupDue(entries, GroupOf(additions[k].0), maxAttempts, now + delay, additions[k].1.dueAt)
  {
    additions := [];
    for i := 0 to |destinations|
      invariant NewFor(entries, additions)
      invariant forall j :: 0 <= j < i ==>
        destinations[j].0 in excluded || Target(e, destinations[j]) in entries
          || Added(additions, Target(e, destinations[j]))
      invariant forall k :: 0 <= k < |additions| ==> IsTarget(e, destinations, excluded, additions[k].0)
      invariant forall k :: 0 <= k < |additions| ==> IsNew(additions[k].1, inherited(additions[k].0), now)
      invariant forall k :: 0 <= k < |additions| ==>
        IsGroupDue(entries, GroupOf(additions[k].0), maxAttempts, now + delay, additions[k].1.dueAt)
    {
      var id := Target(e, destinations[i]);
      if destinations[i].0 !in excluded && id !in entries {
        assert destinations[i] == (id.channel, id.device) && IsTarget(e, destinations, excluded, id);
        var due := GroupDue(entries, GroupOf(id), maxAttempts, now + delay);
        assert InheritedStatus(inherited(id));
        var status := if inherited(id).Some? then inherited(id).value else Pending;
        AddedMore(additions, (id, Delivery(status, 0, NoError, due, now)));
        additions := additions + [(id, Delivery(status, 0, NoError, due, now))];
      }
    }
  }

  lemma AddedMore(additions: seq<(Id, Delivery)>, a: (Id, Delivery))
    ensures Added(additions + [a], a.0)
    ensures forall id :: Added(additions, id) ==> Added(additions + [a], id)
  {
    var more := additions + [a];
    assert more[|additions|] == a;
    forall id | Added(additions, id) ensures Added(more, id) {
      var k :| 0 <= k < |additions| && additions[k].0 == id;
      assert more[k].0 == id;
    }
  }

  lemma PresentAfter(before: map<Id, Delivery>, after: map<Id, Delivery>, additions: seq<(Id, Delivery)>, e: Occasion,
                     destinations: seq<(string, string)>, excluded: set<string>)
    requires KeepsAll(before, after) && forall i :: 0 <= i < |additions| ==> additions[i].0 in after
    requires Covers(before, additions, e, destinations, excluded)
    ensures AllPresent(after, e, destinations, excluded)
  {
  }

  predicate ScannedWell(d: Delivery, s: Scan, entries: map<Id, Delivery>, ready: set<Id>, id: Id) {
    && (id in entries <==> s.Keep?)
    && (s.Keep? ==> entries[id] == s.delivery)
    && (id in ready <==> s.Keep? && s.ready)
  }

  /** The loop of the scan over the loaded records. */
  method ScanLoop(all: map<Id, Delivery>, look: Id -> Look) returns (entries: map<Id, Delivery>, ready: set<Id>)
    ensures entries == ScannedEntries(all, look) && ready == ReadyIds(all, look)
  {
    entries, ready := all, {};
    var left := all.Keys;
    while left != {}
      invariant left <= all.Keys && entries.Keys <= all.Keys && ready <= all.Keys - left
      invariant forall id :: id in left ==> id in entries && entries[id] == all[id]
      invariant forall id :: id in all.Keys - left ==>
        ScannedWell(all[id], Scanned(all[id], look(id)), entries, ready, id)
      decreases |left|
    {
      var id :| id in left;
      match Scanned(entries[id], look(id)) {
        case Drop =>
          entries := entries - {id};
        case Keep(d, r) =>
          entries := entries[id := d];
          ready := if r then ready + {id} else ready;
      }
      left := left - {id};
    }
    assert forall id :: id in all ==> ScannedWell(all[id], Scanned(all[id], look(id)), entries, ready, id);
  }

  /** The loop over the candidates of one group. */
  method StartLoop(all: map<Id, Delivery>, ids: set<Id>, look: Id -> Look)
    returns (entries: map<Id, Delivery>, flight: set<Id>)
    requires ids <= all.Keys
    ensures entries == StartedEntries(all, ids, look)
    ensures flight == set id | id in ids && id in entries && entries[id].status.Sending?
  {
    entries, flight := all, {};
    var left := ids;
    while left != {}
      invariant left <= ids && entries.Keys == all.Keys && flight <= ids - left
      invariant forall id :: id in all ==>
        entries[id] == if id in ids && id !in left then Started(all[id], look(id)) else all[id]
      invariant forall id :: id in ids - left ==> (id in flight <==> entries[id].status.Sending?)
      decreases |left|
    {
      var id :| id in left;
      entries := entries[id := Started(entries[id], look(id))];
      if entries[id].status.Sending? {
        flight := flight + {id};
      }
      left := left - {id};
    }
  }

  /** The loop that writes the sender's answer to each delivery. */
  method FinishLoop(all: map<Id, Delivery>, ids: set<Id>, outcome: Outcome, limit: nat, now: int, backoff: Backoff)
    returns (entries: map<Id, Delivery>)
    requires ids <= all.Keys
    ensures entries == AnsweredEntries(all, ids, outcome, limit, now, backoff)
  {
    entries := all;
    var left := ids;
    while left != {}
      invariant left <= ids && entries.Keys == all.Keys
      invariant forall id :: id in all ==>
        entries[id] == if id in ids && id !in left then Answered(all[id], outcome, limit, now, backoff) else all[id]
      decreases |left|
    {
      var id :| id in left;
      entries := entries[id := Answered(entries[id], outcome, limit, now, backoff)];
      left := left - {id};
    }
  }

  class NotificationService {
    var entries: map<Id, Delivery>
    var ready: set<Id>
    var flight: set<Id>
    var over: bool
    var limit: nat
    ghost var handed: map<Id, nat>
    ghost var log: seq<Event>
    ghost const bound: nat          // above every attempt limit ever configured

    ghost function Now(): World
      reads this
    {
      World(entries, ready, flight, over, limit, handed)
    }

    ghost predicate Valid()
      reads this
    {
      Reached(log, Now(), bound)
    }

    constructor (ghost bound: nat)
      ensures Valid() && log == [] && entries == map[] && this.bound == bound && ready == flight == {}
    {
      entries, ready, flight, over, limit := map[], {}, {}, false, 0;
      handed, log := map[], [];
      this.bound := bound;
    }

    ghost method Record(before: World, e: Event)
      requires Reached(log, before, bound) && Enabled(before, e, bound) && Now() == Apply(before, e)
      modifies this`log
      ensures Valid() && log == old(log) + [e]
    {
      ExecuteAppend(EMPTY, log, e, bound);
      log := log + [e];
    }

    /** `enqueue`: existing records are never touched, and the queue stays within its limit. */
    method Enqueue(event: Occasion, destinations: seq<(string, string)>, excluded: set<string>, maxAttempts: nat,
                   maxPending: nat, now: int, delay: nat, inherited: Id -> Option<Status>)
      returns (full: bool, ghost additions: seq<(Id, Delivery)>)
      requires Valid() && forall id :: InheritedStatus(inherited(id))
      modifies this`entries, this`log
      ensures NewFor(old(entries), additions) && Covers(old(entries), additions, event, destinations, excluded)
      ensures forall k :: 0 <= k < |additions| ==> IsTarget(event, destinations, excluded, additions[k].0)
      ensures forall k :: 0 <= k < |additions| ==> IsNew(additions[k].1, inherited(additions[k].0), now)
      ensures full <==> |additions| > 0 && |WaitingIds(old(entries), maxAttempts)| + |additions| > maxPending
      ensures full <==> |additions| > Available(old(entries), maxAttempts, maxPending)
      ensures full && |WaitingIds(old(entries), maxAttempts)| < maxPending ==>
        Available(old(entries), maxAttempts, maxPending) == maxPending - |WaitingIds(old(entries), maxAttempts)|
      ensures entries == old(entries)
        + AsMap(if full then additions[..Available(old(entries), maxAttempts, maxPending)] else additions)
      ensures Valid() && KeepsAll(old(entries), entries)
      ensures |WaitingIds(entries, maxAttempts)| <= Max(|WaitingIds(old(entries), maxAttempts)|, maxPending)
      ensures !full ==> AllPresent(entries, event, destinations, excluded)
    {
      var found := NewDeliveries(entries, event, destinations, excluded, maxAttempts, now, delay, inherited);
      var available := Available(entries, maxAttempts, maxPending);
      full := |found| > available;
      ghost var before := entries;
      additions := found;
      if full {
        Add(found[..available], maxAttempts);
        return;
      }
      Add(found, maxAttempts);
      PresentAfter(before, entries, found, event, destinations, excluded);
    }

    method Add(additions: seq<(Id, Delivery)>, ghost maxAttempts: nat)
      requires Valid() && NewFor(entries, additions)
      modifies this`entries, this`log
      ensures Valid() && log == old(log) + [Event.Enqueue(AsMap(additions))]
      ensures entries == old(entries) + AsMap(additions)
      ensures forall id :: id in old(entries) ==> id in entries && entries[id] == old(entries)[id]
      ensures forall i :: 0 <= i < |additions| ==> additions[i].0 in entries
      ensures |WaitingIds(entries, maxAttempts)| <= |WaitingIds(old(entries), maxAttempts)| + |additions|
    {
      ghost var before := Now();
      AsMapIsNew(entries, additions);
      WaitingGrowth(entries, AsMap(additions), maxAttempts);
      entries := entries + AsMap(additions);
      Record(before, Event.Enqueue(AsMap(additions)));
    }

    /** The scan of `_tick`: every record is looked at once, then all of them are saved. */
    method ScanEntries(look: Id -> Look)
      requires Valid() && flight == {} && forall id :: id in entries ==> look(id).maxAttempts <= bound
      modifies this`entries, this`ready, this`handed, this`log
      ensures Valid() && log == old(log) + [ScanAll(look)]
      ensures ready <= entries.Keys
    {
      ghost var before := Now();
      entries, ready := ScanLoop(entries, look);
      handed := handed - (handed.Keys - entries.Keys);
      Record(before, ScanAll(look));
    }

    /** The first half of `_deliver`: what leaves is durably `sending` before the sender is called. */
    method StartGroup(g: Group, look: Id -> Look, maxAttempts: nat)
      requires Valid() && flight == {} && maxAttempts <= bound
      requires forall id :: id in OfGroup(ready, g) ==> id in entries && look(id).maxAttempts == maxAttempts
      modifies this`entries, this`ready, this`flight, this`over, this`limit, this`log
      ensures Valid() && log == old(log) + [Start(g, look, maxAttempts)]
      ensures ready == old(ready) - OfGroup(old(ready), g) && entries.Keys == old(entries).Keys && !over
    {
      ghost var before := Now();
      var ids := OfGroup(ready, g);
      entries, flight := StartLoop(entries, ids, look);
      ready, over, limit := ready - ids, false, maxAttempts;
      Record(before, Start(g, look, maxAttempts));
    }

    /** The call of the sender. */
    method HandFlight()
      requires Valid() && flight != {} && !over
      modifies this`over, this`handed, this`log
      ensures Valid() && log == old(log) + [HandOver] && over
    {
      ghost var before := Now();
      over := true;
      handed := map id | id in entries :: Handed(before, id) + (if id in flight then 1 else 0);
      Record(before, HandOver);
    }

    /** The second half of `_deliver`. */
    method FinishFlight(outcome: Outcome, now: int, backoff: Backoff)
      requires Valid() && flight != {} && over && flight <= entries.Keys
      modifies this`entries, this`flight, this`over, this`log
      ensures Valid() && log == old(log) + [Finish(outcome, now, backoff)]
      ensures flight == {} && entries.Keys == old(entries).Keys
    {
      ghost var before := Now();
      entries := FinishLoop(entries, flight, outcome, limit, now, backoff);
      flight, over := {}, false;
      Record(before, Finish(outcome, now, backoff));
    }

    /** `_deliver`. */
    method Deliver(g: Group, r: Round)
      requires Valid() && flight == {} && r.maxAttempts(g) <= bound && ready <= entries.Keys
      requires forall id :: id in OfGroup(ready, g) ==> r.look(id).maxAttempts == r.maxAttempts(g)
      modifies this`entries, this`ready, this`flight, this`over, this`limit, this`handed, this`log
      ensures Valid() && flight == {} && entries.Keys == old(entries).Keys
      ensures ready == old(ready) - OfGroup(old(ready), g)
      ensures log == old(log) + DeliverEvents(old(Now()), g, r)
    {
      ghost var first := Now();
      StartGroup(g, r.look, r.maxAttempts(g));
      StartedIs(old(log), first, Start(g, r.look, r.maxAttempts(g)), log, Now(), bound);
      if flight == {} {
        return;
      }
      FlightExists(log, Now(), bound);
      HandFlight();
      FinishFlight(r.outcome(g), r.now, r.backoff);
    }

    /**
     `_tick`: one scan, then every group of what it found ready, each once. `groups` is the
     order in which they were delivered, which is left to the dictionary.
     */
    method Tick(scanLook: Id -> Look, r: Round) returns (ghost groups: seq<Group>)
      requires Valid() && flight == {} && ready == {}
      requires forall id :: scanLook(id).maxAttempts <= bound
      requires forall id :: r.look(id).maxAttempts == r.maxAttempts(GroupOf(id)) <= bound
      modifies this`entries, this`ready, this`flight, this`over, this`limit, this`handed, this`log
      ensures Valid() && flight == {} && ready == {}
      ensures DistinctGroups(groups)
      ensures forall g :: g in groups <==> OfGroup(ReadyIds(old(entries), scanLook), g) != {}
      ensures log == old(log) + [ScanAll(scanLook)] + TickEvents(Apply(old(Now()), ScanAll(scanLook)), groups, r)
    {
      ghost var before := Now();
      ScanEntries(scanLook);
      ghost var scanned, base := Now(), log;
      StartedIs(old(log), before, ScanAll(scanLook), base, scanned, bound);
      groups := DeliverAll(r);
    }

    /** The groups of the scan, until none is left. */
    method DeliverAll(r: Round) returns (ghost groups: seq<Group>)
      requires Valid() && flight == {} && ready <= entries.Keys
      requires forall id :: r.look(id).maxAttempts == r.maxAttempts(GroupOf(id)) <= bound
      modifies this`entries, this`ready, this`flight, this`over, this`limit, this`handed, this`log
      ensures Valid() && flight == {} && ready == {}
      ensures DistinctGroups(groups) && forall g :: g in groups <==> OfGroup(old(ready), g) != {}
      ensures log == old(log) + TickEvents(old(Now()), groups, r)
    {
      ghost var scanned, base := Now(), log;
      groups := [];
      assert base + [] == base;
      while ready != {}
        invariant Valid() && flight == {} && ready <= entries.Keys
        invariant Delivering(scanned, base, r, groups, log, Now())
        decreases |ready|
      {
        ghost var g := DeliverNext(r, scanned, base, groups);
        groups := groups + [g];
      }
      AllDelivered(scanned, base, r, groups, log, Now());
    }

    /** The group of some ready delivery. */
    method DeliverNext(r: Round, ghost scanned: World, ghost base: seq<Event>, ghost groups: seq<Group>)
      returns (ghost delivered: Group)
      requires Valid() && flight == {} && ready <= entries.Keys && ready != {}
      requires forall id :: r.look(id).maxAttempts == r.maxAttempts(GroupOf(id)) <= bound
      requires Delivering(scanned, base, r, groups, log, Now())
      modifies this`entries, this`ready, this`flight, this`over, this`limit, this`handed, this`log
      ensures Valid() && flight == {} && ready <= entries.Keys && |ready| < |old(ready)|
      ensures Delivering(scanned, base, r, groups + [delivered], log, Now())
    {
      var id :| id in ready;
      var g := GroupOf(id);
      assert r.look(id).maxAttempts == r.maxAttempts(g) && id in OfGroup(ready, g);
      ghost var was, wasLog := Now(), log;
      Deliver(g, r);
      DeliveringMore(scanned, base, r, groups, wasLog, was, g, log, Now(), bound);
      Shrinks(ready, was.ready, id);
      delivered := g;
    }
  }

  predicate DistinctGroups(groups: seq<Group>) {
    forall i, j :: 0 <= i < j < |groups| ==> groups[i] != groups[j]
  }

  /** What the deliveries of one tick meet. */
  datatype Round = Round(look: Id -> Look, maxAttempts: Group -> nat, outcome: Group -> Outcome, now: int,
                         backoff: Backoff)

  /** What one delivery saves: the start, and if anything leaves, the hand-over and its result. */
  function DeliverEvents(w: World, g: Group, r: Round): seq<Event> {
    [Start(g, r.look, r.maxAttempts(g))]
    + (if Apply(w, Start(g, r.look, r.maxAttempts(g))).flight == {} then []
       else [HandOver, Finish(r.outcome(g), r.now, r.backoff)])
  }

  /** Group after group, each from the state the one before left. */
  function TickEvents(w: World, groups: seq<Group>, r: Round): seq<Event> {
    if groups == [] then []
    else
      var earlier := TickEvents(w, groups[..|groups| - 1], r);
      earlier + DeliverEvents(Execute(w, earlier), groups[|groups| - 1], r)
  }

  /** These groups are done, the others are still ready. */
  ghost predicate GroupsLeft(scanned: set<Id>, groups: seq<Group>, ready: set<Id>) {
    && DistinctGroups(groups) && (forall g :: g in groups ==> OfGroup(scanned, g) != {})
    && forall id :: id in ready <==> id in scanned && GroupOf(id) !in groups
  }

  /** In the middle of a tick: what the groups done so far have logged and made of the state. */
  ghost predicate Delivering(scanned: World, base: seq<Event>, r: Round, groups: seq<Group>, log: seq<Event>,
                             w: World) {
    && GroupsLeft(scanned.ready, groups, w.ready)
    && log == base + TickEvents(scanned, groups, r) && w == Execute(scanned, TickEvents(scanned, groups, r))
  }

  lemma GroupsLeftNext(scanned: set<Id>, groups: seq<Group>, ready: set<Id>, g: Group)
    requires GroupsLeft(scanned, groups, ready) && OfGroup(ready, g) != {}
    ensures GroupsLeft(scanned, groups + [g], ready - OfGroup(ready, g))
  {
    var id :| id in OfGroup(ready, g);
    assert id in OfGroup(scanned, g) && g !in groups;
  }

  lemma TickMore(scanned: World, groups: seq<Group>, g: Group, r: Round)
    ensures TickEvents(scanned, groups + [g], r)
         == TickEvents(scanned, groups, r) + DeliverEvents(Execute(scanned, TickEvents(scanned, groups, r)), g, r)
  {
    assert (groups + [g])[..|groups|] == groups;
  }

  lemma LoggedMore(scanned: World, base: seq<Event>, earlier: seq<Event>, more: seq<Event>, log: seq<Event>, w: World,
                   longer: seq<Event>, next: World, m: nat)
    requires log == base + earlier && w == Execute(scanned, earlier) && longer == log + more
    requires Reached(log, w, m) && Reached(longer, next, m)
    ensures longer == base + (earlier + more) && next == Execute(scanned, earlier + more)
  {
    DeliveredIs(log, w, more, longer, next, m);
    ExecuteConcat(scanned, earlier, more);
  }

  lemma DeliveringMore(scanned: World, base: seq<Event>, r: Round, groups: seq<Group>, log: seq<Event>, w: World,
                       g: Group, longer: seq<Event>, next: World, m: nat)
    requires Delivering(scanned, base, r, groups, log, w) && Reached(log, w, m) && Reached(longer, next, m)
    requires longer == log + DeliverEvents(w, g, r)
    requires OfGroup(w.ready, g) != {} && next.ready == w.ready - OfGroup(w.ready, g)
    ensures Delivering(scanned, base, r, groups + [g], longer, next)
  {
    GroupsLeftNext(scanned.ready, groups, w.ready, g);
    TickMore(scanned, groups, g, r);
    LoggedMore(scanned, base, TickEvents(scanned, groups, r), DeliverEvents(w, g, r), log, w, longer, next, m);
  }

  lemma AllDelivered(scanned: World, base: seq<Event>, r: Round, groups: seq<Group>, log: seq<Event>, w: World)
    requires Delivering(scanned, base, r, groups, log, w) && w.ready == {}
    ensures forall g :: g in groups <==> OfGroup(scanned.ready, g) != {}
  {
    forall g | OfGroup(scanned.ready, g) != {} ensures g in groups {
      var id :| id in OfGroup(scanned.ready, g);
      assert id !in w.ready;
    }
  }

  lemma {:induction false} ExecuteConcat(w: World, a: seq<Event>, b: seq<Event>)
    ensures Execute(w, a + b) == Execute(Execute(w, a), b)
    decreases |a|
  {
    if a == [] {
      assert a + b == b;
    } else {
      assert (a + b)[0] == a[0] && (a + b)[1..] == a[1..] + b;
      ExecuteConcat(Apply(w, a[0]), a[1..], b);
    }
  }

  /** The log says where the service is. */
  lemma DeliveredIs(log: seq<Event>, w: World, es: seq<Event>, longer: seq<Event>, now: World, m: nat)
    requires Reached(log, w, m) && longer == log + es && Reached(longer, now, m)
    ensures now == Execute(w, es)
  {
    ExecuteConcat(EMPTY, log, es);
  }

  lemma StartedIs(log: seq<Event>, w: World, e: Event, longer: seq<Event>, now: World, m: nat)
    requires Reached(log, w, m) && longer == log + [e] && Reached(longer, now, m)
    ensures now == Apply(w, e)
  {
    DeliveredIs(log, w, [e], longer, now, m);
    assert [e][1..] == [];
  }

  lemma Shrinks(a: set<Id>, b: set<Id>, id: Id)
    requires a <= b - {id} && id in b
    ensures |a| < |b|
  {
    SubsetCount(a, b - {id});
  }

  lemma FlightExists(log: seq<Event>, w: World, m: nat)
    requires Reached(log, w, m)
    ensures w.flight <= w.entries.Keys
  {
    ReachedInv(log, w, m);
  }

  function Max(a: int, b: int): int {
    if a < b then b else a
  }
}
