/**
 The confirmed external write: the intent is durable before the request, an
 answer may be lost, nothing is ever sent twice (src/mailhelp/external/confirmed.py).
 */
module ConfirmedWrite {
  import opened PyText

  datatype Status =
    | NeedsClarification | PendingConfirmation | AlreadyExists | Confirmed | Writing | Created
    | Simulated | Rejected | Failed | Uncertain | Merged

  /** The stored proposal version, as far as the write depends on it. */
  datatype Record = Record(writable: bool, openQuestions: bool, status: Status, externalId: Option<string>)

  /** The `id` of an answer: missing, a boolean, or anything with a text form. */
  datatype RawId = Missing | Boolean(value: bool) | Text(text: string)

  datatype Reconciled = ReconcileRaises | NotFound | Found(found: RawId)

  datatype Outcome = Answered(id: RawId) | NoAnswer | Refused | OtherError

  /** Everything one call meets outside; what it does not reach has no influence. */
  datatype Script = Script(mismatch: bool, testMode: bool, reconciled: Reconciled, prepareRaises: bool,
                           requiresWrite: bool, authorized: bool, outcome: Outcome)

  datatype Effect =
    | Reconcile(answer: Reconciled)
    | Save(record: Record)
    | Operate(write: bool)        // the operation is started
    | Receive(outcome: Outcome)   // its answer arrives

  predicate ValidId(id: RawId) {
    id.Text? && id.text != ""
  }

  /** `_with_external_result`. */
  function WithResult(r: Record, id: RawId): Record
    requires ValidId(id)
  {
    r.(status := Created, externalId := Some(id.text))
  }

  function SavedIfValid(r: Record, id: RawId): seq<Effect> {
    if ValidId(id) then [Save(WithResult(r, id))] else []
  }

  /** When a call ends in an exception: the version may not be written, or something outside raises. */
  predicate Raises(r: Record, s: Script) {
    if !r.writable then true
    else if r.status.Simulated? then false
    else if !Eligible(r.status) || r.openQuestions then true
    else !s.mismatch && !s.testMode && ReactionRaises(r.status, s)
  }

  predicate ReactionRaises(status: Status, s: Script) {
    match s.reconciled
    case ReconcileRaises => true
    case Found(id) => !ValidId(id)
    case NotFound => status.Confirmed? && (s.prepareRaises || (s.authorized && OutcomeRaises(s.outcome)))
  }

  predicate OutcomeRaises(o: Outcome) {
    o.OtherError? || (o.Answered? && !ValidId(o.id))
  }

  // ------------------------------------------------------------ one call

  /** The effects of one uninterrupted call, in order. */
  function Trace(r: Record, s: Script): seq<Effect> {
    if !r.writable || !Eligible(r.status) || r.openQuestions || s.mismatch then []
    else if s.testMode then [Save(r.(status := Simulated, externalId := None))]
    else [Reconcile(s.reconciled)] + Reaction(r, s)
  }

  function Reaction(r: Record, s: Script): seq<Effect> {
    match s.reconciled
    case ReconcileRaises => []
    case Found(id) => SavedIfValid(r, id)
    case NotFound =>
      if !r.status.Confirmed? then [Save(r.(status := Uncertain))]
      else if s.prepareRaises || !s.authorized then []
      else WriteTrace(r.(status := Writing), s)
  }

  predicate Eligible(s: Status) {
    s.Confirmed? || s.Writing? || s.Uncertain?
  }

  function WriteTrace(writing: Record, s: Script): seq<Effect> {
    (if s.requiresWrite then [Save(writing)] else []) + [Operate(s.requiresWrite), Receive(s.outcome)]
    + Concluded(writing, s.outcome)
  }

  function Concluded(writing: Record, outcome: Outcome): seq<Effect> {
    match outcome
    case Answered(id) => SavedIfValid(writing, id)
    case NoAnswer => [Save(writing.(status := Uncertain))]
    case Refused => [Save(writing.(status := Failed))]
    case OtherError => []
  }

  /** The record found after a restart: the last one saved. */
  function Stored(r: Record, es: seq<Effect>): Record {
    if es == [] then r
    else if es[|es| - 1].Save? then es[|es| - 1].record
    else Stored(r, es[..|es| - 1])
  }

  lemma {:induction false} StoredConcat(r: Record, a: seq<Effect>, b: seq<Effect>)
    ensures Stored(r, a + b) == Stored(Stored(r, a), b)
  {
    if b == [] {
      assert a + b == a;
    } else {
      assert (a + b)[..|a + b| - 1] == a + b[..|b| - 1];
      StoredConcat(r, a, b[..|b| - 1]);
    }
  }

  // ---------------------------------------------------------- the program

  datatype Result = Raised | Returned(record: Record)

  class Execution {
    var record: Record              // what is stored
    ghost var first: Record
    ghost var history: seq<Effect>

    ghost predicate Valid()
      reads this
    {
      record == Stored(first, history)
    }

    constructor (r: Record)
      ensures Valid() && record == first == r && history == []
    {
      record, first, history := r, r, [];
    }

    ghost method Note(e: Effect)
      requires Valid() && !e.Save?
      modifies this`history
      ensures Valid() && history == old(history) + [e]
    {
      assert (history + [e])[..|history|] == history;
      history := history + [e];
    }

    method Persist(r: Record)
      modifies this`record, this`history
      ensures Valid() && record == r && history == old(history) + [Save(r)]
    {
      record := r;
      history := history + [Save(r)];
    }

    /** The id of an answer is checked before anything is saved. */
    method PersistResult(r: Record, id: RawId) returns (result: Result)
      requires Valid()
      modifies this`record, this`history
      ensures Valid() && history == old(history) + SavedIfValid(r, id)
      ensures result == if ValidId(id) then Returned(record) else Raised
    {
      if !ValidId(id) {
        return Raised;
      }
      Persist(WithResult(r, id));
      result := Returned(record);
    }

    /** `execute_confirmed`. */
    method Execute(s: Script) returns (result: Result)
      requires Valid()
      modifies this`record, this`history
      ensures Valid() && history == old(history) + Trace(old(record), s)
      ensures if Raises(old(record), s) then result.Raised? else result == Returned(record)
    {
      var r := record;
      if !r.writable {
        return Raised;
      }
      if r.status.Simulated? {
        return Returned(r);
      }
      if !Eligible(r.status) || r.openQuestions {
        return Raised;
      }
      if s.mismatch {
        return Returned(r);
      }
      if s.testMode {
        var simulated := r.(status := Simulated, externalId := None);
        Persist(simulated);
        return Returned(simulated);
      }
      result := Contact(s);
    }

    /** The target is searched before anything else. */
    method Contact(s: Script) returns (result: Result)
      requires Valid() && Eligible(record.status)
      modifies this`record, this`history
      ensures Valid() && history == old(history) + ([Reconcile(s.reconciled)] + Reaction(old(record), s))
      ensures if ReactionRaises(old(record).status, s) then result.Raised? else result == Returned(record)
    {
      ghost var before := history;
      Note(Reconcile(s.reconciled));
      ghost var found := record;
      result := React(s);
      assert before + [Reconcile(s.reconciled)] + Reaction(found, s)
             == before + ([Reconcile(s.reconciled)] + Reaction(found, s));
    }

    /** What follows the reconciliation; only a confirmed version goes on to the write. */
    method React(s: Script) returns (result: Result)
      requires Valid() && Eligible(record.status)
      modifies this`record, this`history
      ensures Valid() && history == old(history) + Reaction(old(record), s)
      ensures if ReactionRaises(old(record).status, s) then result.Raised? else result == Returned(record)
    {
      var r := record;
      if s.reconciled.ReconcileRaises? {
        return Raised;
      }
      if s.reconciled.Found? {
        result := PersistResult(r, s.reconciled.found);
        return;
      }
      if !r.status.Confirmed? {
        var uncertain := r.(status := Uncertain);
        Persist(uncertain);
        return Returned(uncertain);
      }
      if s.prepareRaises {
        return Raised;
      }
      if !s.authorized {
        return Returned(r);
      }
      result := Write(r.(status := Writing), s);
    }

    method Write(writing: Record, s: Script) returns (result: Result)
      requires Valid()
      modifies this`record, this`history
      ensures Valid() && history == old(history) + WriteTrace(writing, s)
      ensures if OutcomeRaises(s.outcome) then result.Raised? else result == Returned(record)
    {
      if s.requiresWrite {
        Persist(writing);
      }
      Note(Operate(s.requiresWrite));
      Note(Receive(s.outcome));
      result := Conclude(writing, s.outcome);
    }

    /** What the answer of the operation makes of the record. */
    method Conclude(writing: Record, outcome: Outcome) returns (result: Result)
      requires Valid()
      modifies this`record, this`history
      ensures Valid() && history == old(history) + Concluded(writing, outcome)
      ensures if OutcomeRaises(outcome) then result.Raised? else result == Returned(record)
    {
      match outcome {
        case Answered(id) =>
          result := PersistResult(writing, id);
        case NoAnswer =>
          Persist(writing.(status := Uncertain));
          result := Returned(record);
        case Refused =>
          Persist(writing.(status := Failed));
          result := Returned(record);
        case OtherError =>
          result := Raised;
      }
    }
  }

  // ------------------------------------------------------------- all runs

  /** A call that dies after `cut` of its effects, or runs to its end. */
  datatype Call = Call(script: Script, cut: nat)

  function Made(r: Record, c: Call): seq<Effect> {
    var t := Trace(r, c.script);
    if c.cut <= |t| then t[..c.cut] else t
  }

  /** Every call starts from the last stored record. */
  function History(r: Record, calls: seq<Call>): seq<Effect>
    decreases |calls|
  {
    if calls == [] then []
    else
      var t := Made(r, calls[0]);
      t + History(Stored(r, t), calls[1..])
  }

  function Writes(es: seq<Effect>): nat {
    if es == [] then 0 else (if es[0] == Operate(true) then 1 else 0) + Writes(es[1..])
  }

  lemma {:induction false} WritesConcat(a: seq<Effect>, b: seq<Effect>)
    ensures Writes(a + b) == Writes(a) + Writes(b)
  {
    if a == [] {
      assert a + b == b;
    } else {
      assert (a + b)[1..] == a[1..] + b;
      WritesConcat(a[1..], b);
    }
  }

  /** Only the third effect of a call can start a write, and only of a confirmed version with its intent saved. */
  lemma TraceIsOrderly(r: Record, s: Script, i: nat)
    requires i < |Trace(r, s)|
    ensures var t := Trace(r, s);
      && (t[i].Save? ==> !t[i].record.status.Confirmed? && SameVersion(r, t[i].record))
      && (t[i] == Operate(true) ==> i == 2 && r.status.Confirmed? && t[1] == Save(r.(status := Writing)))
  {
  }

  predicate SameVersion(a: Record, b: Record) {
    a.writable == b.writable && a.openQuestions == b.openQuestions
  }

  lemma {:induction false} OnlyOnce(es: seq<Effect>, n: nat)
    requires forall i :: 0 <= i < |es| && es[i] == Operate(true) ==> i == n
    ensures Writes(es) == if n < |es| && es[n] == Operate(true) then 1 else 0
  {
    if es == [] {
    } else if n == 0 {
      NoWrites(es[1..]);
    } else {
      OnlyOnce(es[1..], n - 1);
    }
  }

  lemma {:induction false} NoWrites(es: seq<Effect>)
    requires forall i :: 0 <= i < |es| ==> es[i] != Operate(true)
    ensures Writes(es) == 0
  {
    if es != [] { NoWrites(es[1..]); }
  }

  /** The stored record is the last one saved. */
  lemma {:induction false} StoredIsSaved(r: Record, es: seq<Effect>)
    ensures Stored(r, es) == r || Save(Stored(r, es)) in es
    ensures (exists i :: 0 <= i < |es| && es[i].Save?) ==> Save(Stored(r, es)) in es
    decreases |es|
  {
    if es != [] {
      StoredIsSaved(r, es[..|es| - 1]);
      assert es == es[..|es| - 1] + [es[|es| - 1]];
    }
  }

  /** One call, wherever it dies: a write is started only from `Confirmed`, and then that is gone for good. */
  lemma MadeWrites(r: Record, c: Call)
    ensures Writes(Made(r, c)) <= 1
    ensures Writes(Made(r, c)) == 1 ==> r.status.Confirmed? && !Stored(r, Made(r, c)).status.Confirmed?
    ensures !r.status.Confirmed? ==> !Stored(r, Made(r, c)).status.Confirmed?
  {
    var full, t := Trace(r, c.script), Made(r, c);
    forall i | 0 <= i < |t|
      ensures t[i] == full[i] && (t[i].Save? ==> !t[i].record.status.Confirmed?) && (t[i] == Operate(true) ==> i == 2)
    {
      TraceIsOrderly(r, c.script, i);
    }
    OnlyOnce(t, 2);
    StoredIsSaved(r, t);
    if Writes(t) == 1 {
      TraceIsOrderly(r, c.script, 2);
      assert t[1].Save?;
    }
  }

  /**
   Over any calls on one version, each dying anywhere, with any answers: at most one write
   is ever started, and none at all unless the version was still confirmed.
   */
  lemma {:induction false} AtMostOneWrite(r: Record, calls: seq<Call>)
    ensures Writes(History(r, calls)) <= 1
    ensures !r.status.Confirmed? ==> Writes(History(r, calls)) == 0
    decreases |calls|
  {
    if calls != [] {
      var t := Made(r, calls[0]);
      MadeWrites(r, calls[0]);
      AtMostOneWrite(Stored(r, t), calls[1..]);
      WritesConcat(t, History(Stored(r, t), calls[1..]));
    }
  }

  /** What stands directly before a save of each status; no other status is ever saved. */
  predicate Grounded(es: seq<Effect>, i: nat)
    requires i < |es|
  {
    es[i].Save? ==>
      match es[i].record.status
      case Failed => i > 0 && es[i - 1] == Receive(Refused)
      case Uncertain => i > 0 && (es[i - 1] == Receive(NoAnswer) || es[i - 1] == Reconcile(NotFound))
      case Writing => i > 0 && es[i - 1] == Reconcile(NotFound)
      case Created => i > 0 && (es[i - 1].Receive? || es[i - 1].Reconcile?)
      case Simulated => true
      case _ => false
  }

  lemma MadeGrounded(r: Record, c: Call, i: nat)
    requires i < |Made(r, c)|
    ensures Grounded(Made(r, c), i)
  {
    var t := Trace(r, c.script);
    assert Made(r, c)[i] == t[i] && (i > 0 ==> Made(r, c)[i - 1] == t[i - 1]);
  }

  lemma GroundedBefore(t: seq<Effect>, rest: seq<Effect>, i: nat)
    requires i < |t| && Grounded(t, i)
    ensures Grounded(t + rest, i)
  {
    var es := t + rest;
    assert es[i] == t[i] && (i > 0 ==> es[i - 1] == t[i - 1]);
  }

  lemma GroundedBehind(t: seq<Effect>, rest: seq<Effect>, k: nat)
    requires k < |rest| && Grounded(rest, k)
    ensures Grounded(t + rest, |t| + k)
  {
    var es, i := t + rest, |t| + k;
    assert es[i] == rest[k] && (k > 0 ==> es[i - 1] == rest[k - 1]);
  }

  /** Over all calls and crashes: a failure is stored only for a refusal, doubt only for a lost answer or search. */
  lemma {:induction false} SavedForItsAnswer(r: Record, calls: seq<Call>, i: nat)
    requires i < |History(r, calls)|
    ensures Grounded(History(r, calls), i)
    decreases |calls|
  {
    var t := Made(r, calls[0]);
    var rest := History(Stored(r, t), calls[1..]);
    assert History(r, calls) == t + rest;
    if i < |t| {
      MadeGrounded(r, calls[0], i);
      GroundedBefore(t, rest, i);
    } else {
      SavedForItsAnswer(Stored(r, t), calls[1..], i - |t|);
      GroundedBehind(t, rest, i - |t|);
    }
  }

  lemma StoredSnoc(r: Record, es: seq<Effect>, e: Effect)
    ensures Stored(r, es + [e]) == if e.Save? then e.record else Stored(r, es)
  {
    assert (es + [e])[..|es|] == es;
  }

  /** Everything of a writing call up to the answer. */
  function UpToAnswer(r: Record, s: Script): seq<Effect> {
    [Reconcile(NotFound)] + (if s.requiresWrite then [Save(r.(status := Writing))] else [])
    + [Operate(s.requiresWrite)] + [Receive(s.outcome)]
  }

  lemma WritesWhole(r: Record, s: Script, i: nat)
    requires i < |Trace(r, s)| && Trace(r, s)[i].Receive?
    ensures r.status.Confirmed? && Trace(r, s) == UpToAnswer(r, s) + Concluded(r.(status := Writing), s.outcome)
    ensures Trace(r, s)[i].outcome == s.outcome
  {
  }

  lemma StoredUpToAnswer(r: Record, s: Script)
    ensures Stored(r, UpToAnswer(r, s)) == if s.requiresWrite then r.(status := Writing) else r
  {
    var search, intent := [Reconcile(NotFound)], [Save(r.(status := Writing))];
    var start := search + (if s.requiresWrite then intent else []);
    StoredSnoc(r, [], search[0]);
    assert [] + [search[0]] == search && search + [] == search;
    StoredSnoc(r, search, intent[0]);
    StoredSnoc(r, start, Operate(s.requiresWrite));
    StoredSnoc(r, start + [Operate(s.requiresWrite)], Receive(s.outcome));
  }

  lemma ConclusionIsStored(writing: Record, o: Outcome)
    ensures Stored(writing, Concluded(writing, o)) ==
      match o
      case Answered(id) => if ValidId(id) then writing.(status := Created, externalId := Some(id.text)) else writing
      case NoAnswer => writing.(status := Uncertain)
      case Refused => writing.(status := Failed)
      case OtherError => writing
  {
    var es := Concluded(writing, o);
    if es != [] {
      assert [] + [es[0]] == es;
      StoredSnoc(writing, [], es[0]);
    }
  }

  /** What an uninterrupted call stores for the answer of its operation. */
  lemma AnswerIsStored(r: Record, s: Script, i: nat)
    requires i < |Trace(r, s)| && Trace(r, s)[i].Receive?
    ensures Trace(r, s)[i].outcome == s.outcome
    ensures var last := Stored(r, Trace(r, s));
      match s.outcome
      case Answered(id) =>
        if ValidId(id) then last == r.(status := Created, externalId := Some(id.text))
        else last == r.(status := if s.requiresWrite then Writing else Confirmed)
      case NoAnswer => last == r.(status := Uncertain)
      case Refused => last == r.(status := Failed)
      case OtherError => last == r.(status := if s.requiresWrite then Writing else Confirmed)
  {
    WritesWhole(r, s, i);
    var writing, end := r.(status := Writing), Concluded(r.(status := Writing), s.outcome);
    StoredConcat(r, UpToAnswer(r, s), end);
    StoredUpToAnswer(r, s);
    if end == [] {
      assert Stored(Stored(r, UpToAnswer(r, s)), end) == Stored(r, UpToAnswer(r, s));
    } else {
      ConclusionIsStored(writing, s.outcome);
      assert [] + [end[0]] == end;
      StoredSnoc(Stored(r, UpToAnswer(r, s)), [], end[0]);
    }
  }

  /** What stands directly before a save of `Created`: the answer its id was taken from. */
  predicate Proven(es: seq<Effect>, i: nat)
    requires i < |es|
  {
    es[i].Save? && es[i].record.status.Created? ==>
      && i > 0 && es[i].record.externalId.Some? && es[i].record.externalId.value != ""
      && (var id := Text(es[i].record.externalId.value);
          es[i - 1] == Reconcile(Found(id)) || es[i - 1] == Receive(Answered(id)))
  }

  lemma MadeProven(r: Record, c: Call, i: nat)
    requires i < |Made(r, c)|
    ensures Proven(Made(r, c), i)
  {
    var t := Trace(r, c.script);
    assert Made(r, c)[i] == t[i] && (i > 0 ==> Made(r, c)[i - 1] == t[i - 1]);
  }

  /** `Created` is persisted only with a non-empty id that reconciliation or the operation has just returned. */
  lemma {:induction false} CreatedIsProven(r: Record, calls: seq<Call>, i: nat)
    requires i < |History(r, calls)|
    ensures Proven(History(r, calls), i)
    decreases |calls|
  {
    var t := Made(r, calls[0]);
    var rest := History(Stored(r, t), calls[1..]);
    assert History(r, calls) == t + rest;
    if i < |t| {
      MadeProven(r, calls[0], i);
    } else {
      CreatedIsProven(Stored(r, t), calls[1..], i - |t|);
    }
  }

  /** Every started write has its `Writing` record saved directly before it. */
  lemma {:induction false} IntentIsDurable(r: Record, calls: seq<Call>, i: nat)
    requires i < |History(r, calls)| && History(r, calls)[i] == Operate(true)
    ensures i > 0 && History(r, calls)[i - 1].Save? && History(r, calls)[i - 1].record.status.Writing?
    decreases |calls|
  {
    var t := Made(r, calls[0]);
    var rest := History(Stored(r, t), calls[1..]);
    assert History(r, calls) == t + rest;
    if i >= |t| {
      IntentIsDurable(Stored(r, t), calls[1..], i - |t|);
    } else {
      TraceIsOrderly(r, calls[0].script, i);
      assert t[1] == Trace(r, calls[0].script)[1];
    }
  }

  // ------------------------------------------------------- nothing is lost

  /** The request may have reached the service and nothing else has been learnt. */
  predicate InDoubt(r: Record) {
    r.writable && !r.openQuestions && (r.status.Writing? || r.status.Uncertain?)
  }

  /** A test-mode call for this very target that lives long enough for its one save. */
  predicate Dry(c: Call) {
    c.script.testMode && !c.script.mismatch && c.cut >= 1
  }

  /** In doubt a dry run saves the simulation; no other call saves anything but the doubt or a proven creation. */
  lemma DoubtEnds(r: Record, c: Call)
    requires InDoubt(r)
    ensures var after := Stored(r, Made(r, c));
      && (Dry(c) ==> after.status.Simulated?)
      && (!Dry(c) ==> InDoubt(after) || (after.status.Created? && c.script.reconciled.Found?))
  {
    var t := Made(r, c);
    StoredIsSaved(r, t);
    forall i | 0 <= i < |t| && t[i].Save? ensures t[i] == Trace(r, c.script)[i] {
    }
    if Dry(c) {
      assert t == [Save(r.(status := Simulated, externalId := None))];
    }
  }

  function AfterCalls(r: Record, calls: seq<Call>): Record {
    Stored(r, History(r, calls))
  }

  lemma AfterCallsStep(r: Record, calls: seq<Call>)
    requires calls != []
    ensures AfterCalls(r, calls) == AfterCalls(Stored(r, Made(r, calls[0])), calls[1..])
  {
    var t := Made(r, calls[0]);
    StoredConcat(r, t, History(Stored(r, t), calls[1..]));
  }

  lemma {:induction false} EndedStays(r: Record, calls: seq<Call>)
    requires !Eligible(r.status)
    ensures History(r, calls) == [] && AfterCalls(r, calls) == r
    decreases |calls|
  {
    if calls != [] { EndedStays(r, calls[1..]); }
  }

  /** Some dry run found the version in doubt. */
  predicate MetByDryRun(r: Record, calls: seq<Call>) {
    exists i :: 0 <= i < |calls| && Dry(calls[i]) && InDoubt(AfterCalls(r, calls[..i]))
  }

  lemma MetLater(r: Record, calls: seq<Call>)
    requires calls != [] && !Dry(calls[0])
    ensures MetByDryRun(r, calls) <==> MetByDryRun(Stored(r, Made(r, calls[0])), calls[1..])
  {
    var r1, rest := Stored(r, Made(r, calls[0])), calls[1..];
    forall i | 1 <= i < |calls| ensures AfterCalls(r, calls[..i]) == AfterCalls(r1, rest[..i - 1]) {
      AfterCallsStep(r, calls[..i]);
      assert calls[..i][1..] == rest[..i - 1] && calls[..i][0] == calls[0];
    }
    if i :| 0 <= i < |calls| && Dry(calls[i]) && InDoubt(AfterCalls(r, calls[..i])) {
      assert Dry(rest[i - 1]) && InDoubt(AfterCalls(r1, rest[..i - 1]));
    }
    if i :| 0 <= i < |rest| && Dry(rest[i]) && InDoubt(AfterCalls(r1, rest[..i])) {
      assert rest[i] == calls[i + 1] && InDoubt(AfterCalls(r, calls[..i + 1]));
    }
  }

  lemma NotMetAfterEnd(r: Record, calls: seq<Call>)
    requires r.status.Created?
    ensures !MetByDryRun(r, calls)
  {
    forall i | 0 <= i < |calls| ensures !InDoubt(AfterCalls(r, calls[..i])) {
      EndedStays(r, calls[..i]);
    }
  }

  /**
   A write in doubt is never forgotten: over all calls and crashes the version stays in doubt
   until a reconciliation finds what was created, or a dry run meets it. It ends as simulated
   exactly in the latter case.
   */
  lemma {:induction false} DoubtIsKept(r: Record, calls: seq<Call>)
    requires InDoubt(r)
    ensures var after := AfterCalls(r, calls); InDoubt(after) || after.status.Created? || after.status.Simulated?
    ensures AfterCalls(r, calls).status.Simulated? <==> MetByDryRun(r, calls)
    decreases |calls|
  {
    if calls != [] {
      var r1, rest := Stored(r, Made(r, calls[0])), calls[1..];
      DoubtEnds(r, calls[0]);
      AfterCallsStep(r, calls);
      if Dry(calls[0]) {
        EndedStays(r1, rest);
        assert calls[..0] == [] && AfterCalls(r, calls[..0]) == r;
      } else {
        MetLater(r, calls);
        if InDoubt(r1) {
          DoubtIsKept(r1, rest);
        } else {
          EndedStays(r1, rest);
          NotMetAfterEnd(r1, rest);
        }
      }
    }
  }

  /** A started write of one call leaves the version in doubt, created, or failed by refusal. */
  lemma StartedOnce(r: Record, c: Call)
    requires Operate(true) in Made(r, c)
    ensures var t := Made(r, c); var after := Stored(r, t);
      && (InDoubt(after) || after.status.Created? || (after.status.Failed? && Receive(Refused) in t))
  {
    var full, t := Trace(r, c.script), Made(r, c);
    var i :| 0 <= i < |t| && t[i] == Operate(true);
    TraceIsOrderly(r, c.script, i);
    assert t[1] == full[1] && full[1] == Save(r.(status := Writing));
    if |t| > 4 {
      assert t == full && t[4] == full[4] && t[3] == full[3] == Receive(c.script.outcome);
    } else {
      assert t[2] == Operate(true) && (|t| == 4 ==> t[3] == full[3]);
      assert Stored(r, t[..2]) == t[..2][1].record;
      assert t[..3][..2] == t[..2] && Stored(r, t[..3]) == Stored(r, t[..2]);
      if |t| == 3 {
        assert t[..3] == t;
      } else {
        assert t[..|t| - 1] == t[..3] && t[3].Receive?;
      }
    }
  }

  /**
   Over all calls and crashes: once a write has started, the version is in doubt, created or
   simulated, and failed only if the service has refused. It is never forgotten.
   */
  lemma {:induction false} StartedIsNeverForgotten(r: Record, calls: seq<Call>)
    requires Operate(true) in History(r, calls)
    ensures var after := AfterCalls(r, calls);
      || InDoubt(after) || after.status.Created? || after.status.Simulated?
      || (after.status.Failed? && Receive(Refused) in History(r, calls))
    decreases |calls|
  {
    var t := Made(r, calls[0]);
    var r1, rest := Stored(r, t), calls[1..];
    assert History(r, calls) == t + History(r1, rest);
    AfterCallsStep(r, calls);
    if Operate(true) in t {
      StartedOnce(r, calls[0]);
      if InDoubt(r1) {
        DoubtIsKept(r1, rest);
      } else {
        EndedStays(r1, rest);
      }
    } else {
      assert Operate(true) in History(r1, rest);
      StartedIsNeverForgotten(r1, rest);
    }
  }

  /** Corollary of the trace: a complete call that finds the object stores it as created, with the object's id. */
  lemma FoundResolves(r: Record, s: Script, id: string)
    requires r.writable && Eligible(r.status) && !r.openQuestions && !s.mismatch && !s.testMode
    requires s.reconciled == Found(Text(id)) && id != ""
    ensures Stored(r, Trace(r, s)) == r.(status := Created, externalId := Some(id))
  {
    var done := WithResult(r, Text(id));
    assert Trace(r, s) == [Reconcile(s.reconciled), Save(done)];
  }

  /** What the other calls store: a dry run its simulation, a vain search of a doubtful version the doubt. */
  lemma WithoutAnswer(r: Record, s: Script)
    requires !s.reconciled.Found? && (r.status.Confirmed? ==> s.prepareRaises || !s.authorized)
    ensures var after := Stored(r, Trace(r, s));
      if !r.writable || !Eligible(r.status) || r.openQuestions || s.mismatch then after == r
      else if s.testMode then after == r.(status := Simulated, externalId := None)
      else if s.reconciled.NotFound? && !r.status.Confirmed? then after == r.(status := Uncertain)
      else after == r
  {
    var t := Trace(r, s);
    if |t| == 2 {
      StoredSnoc(r, t[..1], t[1]);
      assert t == t[..1] + [t[1]];
    } else if |t| == 1 {
      StoredSnoc(r, [], t[0]);
      assert t == [] + [t[0]];
    }
  }

  /** Exactly when a call starts a write. */
  lemma WriteExactlyWhen(r: Record, s: Script)
    ensures Writes(Trace(r, s)) == 1 <==>
      && r.writable && r.status.Confirmed? && !r.openQuestions && !s.mismatch && !s.testMode
      && s.reconciled.NotFound? && !s.prepareRaises && s.authorized && s.requiresWrite
  {
    var t := Trace(r, s);
    forall i | 0 <= i < |t| ensures t[i] == Operate(true) ==> i == 2 {
      TraceIsOrderly(r, s, i);
    }
    OnlyOnce(t, 2);
  }
}
