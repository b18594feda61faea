/**
 Proposals and their revisions: the stored validity rules, the derived questions,
 and what any sequence of accepted revisions keeps (src/mailhelp/domain/proposal.py).
 */
module ProposalRevision {
  import opened PyText

  // ----------------------------------------------------------------- times

  const DAY: int := 1440

  /** A calendar day, or a local time with its UTC offset; without an offset it names no instant. */
  datatype When = Date(day: int) | Moment(local: int, offset: Option<int>)

  /** The local calendar day. */
  function DayOf(w: When): int {
    match w case Date(d) => d case Moment(local, _) => local / DAY
  }

  predicate Aware(w: When) {
    w.Moment? && w.offset.Some?
  }

  function Instant(w: When): int
    requires Aware(w)
  {
    w.local - w.offset.value
  }

  /** Equality of dates and datetimes: aware times by instant, different sorts never. */
  predicate Same(a: When, b: When) {
    if Aware(a) && Aware(b) then Instant(a) == Instant(b) else a == b
  }

  /** `start < end` for two values of one sort. */
  predicate Earlier(a: When, b: When) {
    if a.Date? && b.Date? then a.day < b.day else Aware(a) && Aware(b) && Instant(a) < Instant(b)
  }

  datatype Facts = Facts(date: Option<int>, start: Option<When>, startTime: Option<int>)

  predicate ValidFacts(f: Facts) {
    && (f.start.Some? ==> Aware(f.start.value))
    && (f.date.Some? || f.start.Some? || f.startTime.Some?)
    && (f.date.Some? && f.start.Some? ==> DayOf(f.start.value) == f.date.value)
    && (f.start.None? || f.startTime.None?)
  }

  // ------------------------------------------------------------- proposals

  datatype Kind = Task | Event
  datatype Responsibility = User | Someone | Unclear
  datatype Certainty = Certain | NotCertain | Contradictory
  datatype Classification = New | NonBinding | AlreadyCompleted | Change | Cancellation | Recurring | Unsupported
  datatype Status =
    | NeedsClarification | PendingConfirmation | AlreadyExists | Confirmed | Writing | Created
    | Simulated | Rejected | Failed | Uncertain | Merged

  /** The fixed questions of the derivation; every other text is `Free`. */
  datatype Question =
    | DuplicateCheckMissing | SourceUnassigned | WhenStarts | WhenEnds | IsUserResponsible | IsItCertain
    | HowContradictory | CreateNonBinding | IsCompleted | WhichIsChanged | WhichIsCancelled | IsRecurring
    | IsUnsupported | Free(text: string)

  datatype Proposal = Proposal(
    id: string, sourceMail: string, kind: Kind, version: nat, status: Status,
    responsibility: Responsibility, certainty: Certainty, classification: Classification,
    openQuestions: seq<Question>,
    due: Option<When>, start: Option<When>, end: Option<When>, allDay: bool,
    known: Option<Facts>, temporalFact: Option<Option<int>>,
    duration: Option<nat>, durationIsUpperBound: bool, defaultDuration: Option<nat>, endIsStandard: bool,
    targetEvent: Option<string>, isCancellation: bool,
    fallbackConfirmed: bool, nonBindingConfirmed: bool, duplicateConfirmed: Option<nat>, webActor: Option<string>,
    alreadyDone: bool, duplicateCheckFailed: bool, pendingSources: bool, matchingCandidates: bool,
    canonicalRef: Option<(string, string)>, mergeReview: bool, duplicateMatch: bool,
    externalResult: bool, simulationNotified: bool,
    content: string)     // title, description, location, video link, target, time changes

  predicate ClassificationAllowed(p: Proposal) {
    || p.classification.New?
    || (p.classification.Change? && (p.fallbackConfirmed || p.targetEvent.Some?))
    || (p.classification.Cancellation? && p.targetEvent.Some?)
    || (p.classification.NonBinding? && p.nonBindingConfirmed)
  }

  predicate IsCreatable(p: Proposal) {
    && !p.alreadyDone && !p.duplicateCheckFailed
    && !p.status.Merged? && !p.pendingSources && !p.matchingCandidates && ClassificationAllowed(p)
    && p.responsibility.User? && p.certainty.Certain?
  }

  // ---------------------------------------------------- stored consistency

  predicate MergeAndDefaultsOk(p: Proposal) {
    && (p.mergeReview ==> p.canonicalRef.Some?)
    && (p.defaultDuration.Some? ==>
          p.endIsStandard && p.kind.Event? && p.start.Some? && p.end.Some? && !p.allDay)
    && (p.status.Merged? <==> p.canonicalRef.Some?)
    && p.canonicalRef != Some((p.sourceMail, p.id))
  }

  predicate ResultsOk(p: Proposal) {
    && (p.status.Simulated? ==> !p.externalResult)
    && (p.simulationNotified ==> p.status.Simulated?)
    && (p.kind.Task? ==> p.targetEvent.None?)
    && (p.isCancellation ==> p.targetEvent.Some?)
    && (p.status.AlreadyExists? ==> p.openQuestions == [] && p.duplicateMatch)
    && (p.status.PendingConfirmation? ==> IsCreatable(p) && p.openQuestions == [])
  }

  predicate KindFieldsOk(p: Proposal) {
    && (p.kind.Task? ==> p.start.None? && p.end.None? && !p.allDay)
    && (p.duration.Some? || p.durationIsUpperBound ==> p.kind.Event?)
    && (p.durationIsUpperBound ==> p.duration.Some?)
    && (p.kind.Task? && p.due.Some? && p.due.value.Moment? ==> Aware(p.due.value))
    && (p.kind.Event? ==> p.due.None?)
    && (p.known.Some? ==> p.kind.Event? && ValidFacts(p.known.value))
  }

  predicate ValueOk(p: Proposal, w: When) {
    if p.allDay then w.Date? else Aware(w)
  }

  /** The interval rules proper. */
  predicate IntervalOk(p: Proposal) {
    && (p.known.Some? ==> p.start.None? && p.end.None?)
    && (p.start.Some? ==> ValueOk(p, p.start.value))
    && (p.end.Some? ==> ValueOk(p, p.end.value))
    && (p.start.Some? && p.end.Some? ==> Earlier(p.start.value, p.end.value))
  }

  predicate EventIntervalOk(p: Proposal) {
    && (p.openQuestions == [] ==> p.start.Some? && p.end.Some?)
    && IntervalOk(p)
  }

  predicate Valid(p: Proposal) {
    && (p.alreadyDone ==> p.status.Rejected?)
    && MergeAndDefaultsOk(p) && ResultsOk(p) && KindFieldsOk(p)
    && (p.kind.Event? ==> EventIntervalOk(p))
  }

  // ------------------------------------------------------ derived questions

  function ClassificationQuestion(p: Proposal): Option<Question> {
    match p.classification
    case New => None
    case NonBinding => if p.nonBindingConfirmed then None else Some(CreateNonBinding)
    case AlreadyCompleted => Some(IsCompleted)
    case Change => if p.fallbackConfirmed || p.targetEvent.Some? then None else Some(WhichIsChanged)
    case Cancellation => if p.targetEvent.Some? then None else Some(WhichIsCancelled)
    case Recurring => Some(IsRecurring)
    case Unsupported => Some(IsUnsupported)
  }

  function KnownStart(p: Proposal): Option<When> {
    if p.known.Some? then p.known.value.start else None
  }

  function Ask(questions: seq<Question>, condition: bool, q: Question): seq<Question> {
    if condition then questions + [q] else questions
  }

  /** Questions about the assignment and the times. */
  function OpenFacts(p: Proposal): seq<Question> {
    var qs := Ask([], p.duplicateCheckFailed, DuplicateCheckMissing);
    var qs := Ask(qs, p.pendingSources || p.matchingCandidates, SourceUnassigned);
    var qs := Ask(qs, p.kind.Event? && p.start.None? && KnownStart(p).None?, WhenStarts);
    Ask(qs, p.kind.Event? && p.end.None?, WhenEnds)
  }

  function RequiredQuestions(p: Proposal): seq<Question> {
    var qs := Ask(OpenFacts(p), !p.responsibility.User?, IsUserResponsible);
    var qs := Ask(qs, p.certainty.NotCertain?, IsItCertain);
    var qs := Ask(qs, p.certainty.Contradictory?, HowContradictory);
    var q := ClassificationQuestion(p);
    if q.Some? then qs + [q.value] else qs
  }

  /** `required_revision_questions`: the list as it is built. */
  method RequiredRevisionQuestions(p: Proposal) returns (questions: seq<Question>)
    ensures questions == RequiredQuestions(p)
  {
    questions := [];
    if p.duplicateCheckFailed {
      questions := questions + [DuplicateCheckMissing];
    }
    if p.pendingSources || p.matchingCandidates {
      questions := questions + [SourceUnassigned];
    }
    if p.kind.Event? {
      if p.start.None? && KnownStart(p).None? {
        questions := questions + [WhenStarts];
      }
      if p.end.None? {
        questions := questions + [WhenEnds];
      }
    }
    assert questions == OpenFacts(p);
    if !p.responsibility.User? {
      questions := questions + [IsUserResponsible];
    }
    if p.certainty.NotCertain? {
      questions := questions + [IsItCertain];
    } else if p.certainty.Contradictory? {
      questions := questions + [HowContradictory];
    }
    var q := ClassificationQuestion(p);
    if q.Some? {
      questions := questions + [q.value];
    }
  }

  /**
   The derived questions are complete: if none is left, an unmerged, unresolved proposal
   that keeps the interval rules is creatable, and an event has both of its times.
   Conversely a creatable proposal with its times raises no question.
   */
  lemma QuestionsAreComplete(p: Proposal)
    requires !p.status.Merged? && !p.alreadyDone && (p.kind.Event? ==> IntervalOk(p))
    ensures RequiredQuestions(p) == [] <==> IsCreatable(p) && (p.kind.Event? ==> p.start.Some? && p.end.Some?)
  {
    var q := ClassificationQuestion(p);
    assert q.None? <==> ClassificationAllowed(p);
  }

  // --------------------------------------------------- permission reset

  function WithoutPermissions(p: Proposal): Proposal {
    p.(fallbackConfirmed := false, nonBindingConfirmed := false, duplicateConfirmed := None, webActor := None)
  }

  /** First occurrences only, in order. */
  function Unique(qs: seq<Question>): seq<Question> {
    if qs == [] then []
    else
      var rest := Unique(qs[..|qs| - 1]);
      if qs[|qs| - 1] in rest then rest else rest + [qs[|qs| - 1]]
  }

  lemma {:induction false} UniqueMembers(qs: seq<Question>)
    ensures forall q :: q in Unique(qs) <==> q in qs
    ensures forall i, j :: 0 <= i < j < |Unique(qs)| ==> Unique(qs)[i] != Unique(qs)[j]
  {
    if qs != [] {
      UniqueMembers(qs[..|qs| - 1]);
      assert qs == qs[..|qs| - 1] + [qs[|qs| - 1]];
    }
  }

  /** `invalidate_creation_permissions` before its final validation. */
  function Invalidated(p: Proposal): Proposal {
    var c := WithoutPermissions(p);
    if !c.status.PendingConfirmation? && !c.status.NeedsClarification? then c
    else
      WithQuestions(c, Unique(c.openQuestions + RequiredQuestions(c)))
  }

  /** Everything the stored rules demand apart from status and open questions. */
  predicate FactsOk(p: Proposal) {
    && !p.alreadyDone && !p.mergeReview && p.canonicalRef.None? && !p.simulationNotified
    && (p.defaultDuration.Some? ==> p.endIsStandard && p.kind.Event? && p.start.Some? && p.end.Some? && !p.allDay)
    && (p.kind.Task? ==> p.targetEvent.None?) && (p.isCancellation ==> p.targetEvent.Some?)
    && KindFieldsOk(p) && (p.kind.Event? ==> IntervalOk(p))
  }

  function WithQuestions(p: Proposal, questions: seq<Question>): Proposal {
    p.(openQuestions := questions, status := if questions == [] then PendingConfirmation else NeedsClarification)
  }

  lemma FactsOfWithQuestions(p: Proposal, questions: seq<Question>)
    ensures FactsOk(WithQuestions(p, questions)) == FactsOk(p)
    ensures RequiredQuestions(WithQuestions(p, questions)) == RequiredQuestions(p)
  {
  }

  /** Whoever runs out of questions, with none of the required ones missing, is a valid confirmation. */
  lemma ReadyIsValid(p: Proposal)
    requires FactsOk(p) && (p.status.PendingConfirmation? || p.status.NeedsClarification?)
    requires p.openQuestions == [] <==> p.status.PendingConfirmation?
    requires p.openQuestions == [] ==> RequiredQuestions(p) == []
    ensures Valid(p)
  {
    QuestionsAreComplete(p);
  }

  lemma FactsOfValid(p: Proposal)
    requires Valid(p) && (p.status.PendingConfirmation? || p.status.NeedsClarification?)
    ensures FactsOk(p)
  {
  }

  lemma WithoutPermissionsOk(p: Proposal)
    ensures FactsOk(WithoutPermissions(p)) == FactsOk(p)
    ensures Valid(p) && !p.status.PendingConfirmation? ==> Valid(WithoutPermissions(p))
  {
  }

  lemma PendingNeedsTarget(p: Proposal)
    requires Valid(p) && p.status.PendingConfirmation? && !p.fallbackConfirmed && !p.nonBindingConfirmed
    ensures p.classification.New? || p.targetEvent.Some?
  {
  }

  /** The reset never fails: from any valid proposal it gives a valid one. */
  lemma InvalidationIsValid(p: Proposal)
    requires Valid(p)
    ensures Valid(Invalidated(p))
  {
    var c := WithoutPermissions(p);
    WithoutPermissionsOk(p);
    if c.status.PendingConfirmation? || c.status.NeedsClarification? {
      var questions := Unique(c.openQuestions + RequiredQuestions(c));
      FactsOfValid(p);
      NoneLeft(c.openQuestions, RequiredQuestions(c));
      FactsOfWithQuestions(c, questions);
      ReadyIsValid(WithQuestions(c, questions));
      assert Invalidated(p) == WithQuestions(c, questions);
    }
  }

  lemma InvalidationFields(p: Proposal)
    ensures var r := Invalidated(p);
      && r.version == p.version && r.id == p.id
      && !r.fallbackConfirmed && !r.nonBindingConfirmed && r.duplicateConfirmed.None? && r.webActor.None?
  {
  }

  lemma InvalidationKeepsQuestion(p: Proposal, q: Question)
    requires q in p.openQuestions
    ensures q in Invalidated(p).openQuestions
  {
    UniqueMembers(WithoutPermissions(p).openQuestions + RequiredQuestions(WithoutPermissions(p)));
  }

  /** After a reset no special permission is left, no question is lost, and only what needs none may be confirmed. */
  lemma InvalidationWithdraws(p: Proposal)
    requires Valid(p)
    ensures var r := Invalidated(p);
      && r.version == p.version && r.id == p.id
      && !r.fallbackConfirmed && !r.nonBindingConfirmed && r.duplicateConfirmed.None? && r.webActor.None?
      && (forall q :: q in p.openQuestions ==> q in r.openQuestions)
      && (r.status.PendingConfirmation? ==> r.classification.New? || r.targetEvent.Some?)
  {
    InvalidationIsValid(p);
    InvalidationFields(p);
    forall q | q in p.openQuestions ensures q in Invalidated(p).openQuestions { InvalidationKeepsQuestion(p, q); }
    if Invalidated(p).status.PendingConfirmation? {
      PendingNeedsTarget(Invalidated(p));
    }
  }

  lemma NoneLeft(a: seq<Question>, b: seq<Question>)
    ensures Unique(a + b) == [] <==> a == [] && b == []
  {
    UniqueMembers(a + b);
    if a + b != [] { assert (a + b)[0] in Unique(a + b); }
  }

  // ------------------------------------------------------------- revisions

  /** A field of a delta: not given, given as null, or given. */
  datatype Field<T> = Unset | Null | Set(value: T)

  datatype Changes = Changes(
    responsibility: Field<Responsibility>, certainty: Field<Certainty>, classification: Field<Classification>,
    content: Field<string>, due: Field<When>, start: Field<When>, end: Field<When>, temporalDate: Field<int>,
    allDay: Field<bool>, fallbackConfirmed: Field<bool>, nonBindingConfirmed: Field<bool>,
    targetEvent: Field<string>, isCancellation: Field<bool>,
    known: Field<Facts>)   // set by the application only

  datatype Outcome<T> = Refused | Accepted(value: T)

  predicate PermissionsOk(p: Proposal, ch: Changes, allowFallback: bool) {
    && (allowFallback || (ch.fallbackConfirmed.Unset? && ch.nonBindingConfirmed.Unset?))
    && !(p.classification.Change? && ch.classification == Set(New))
  }

  /** The day that is already validated. */
  function ResolvedDay(p: Proposal): Option<int> {
    if p.known.Some? && p.known.value.date.Some? then p.known.value.date
    else if p.temporalFact.Some? then p.temporalFact.value else None
  }

  predicate FitsDay(field: Field<When>, day: Option<int>) {
    field.Set? && day.Some? ==> DayOf(field.value) == day.value
  }

  predicate EndFitsDay(p: Proposal, end: Field<When>, day: Option<int>) {
    end.Set? && day.Some? ==>
      DayOf(end.value) == day.value || (!p.allDay && end.value.Moment? && DayOf(end.value) == day.value + 1)
  }

  function ConfirmedStart(p: Proposal, known: Option<Facts>): Option<When> {
    var start := if known.Some? then known.value.start else p.start;
    if p.allDay && start.Some? && start.value.Date? then None else start
  }

  /** The dictionary of changes, edited in place. */
  class Revision {
    var changes: Changes

    constructor (changes: Changes)
      ensures this.changes == changes
    {
      this.changes := changes;
    }

    /** `_revision_day`: the day is fixed and every changed date is checked against it. */
    method FixDay(p: Proposal) returns (ok: bool, known: Option<Facts>)
      modifies this
      ensures ok == DayFixed(p, old(changes)).Accepted?
      ensures ok ==> (known, changes) == DayFixed(p, old(changes)).value
    {
      var temporalDate := changes.temporalDate;
      changes := changes.(temporalDate := Unset);
      var day := ResolvedDay(p);
      known := p.known;
      if temporalDate.Set? {
        if day.Some? && temporalDate.value != day.value {
          return false, known;
        }
        day := Some(temporalDate.value);
        if known.Some? && known.value.date.None? {
          known := Some(known.value.(date := day));
          changes := changes.(known := Set(known.value));
        } else if known.None? && p.temporalFact.None? && p.start.None? {
          known := Some(Facts(day, None, None));
          changes := changes.(known := Set(known.value));
        }
      }
      ok := FitsDay(changes.due, day) && FitsDay(changes.start, day) && EndFitsDay(p, changes.end, day);
    }

    /** `_revision_interval`: a confirmed start stays, half intervals stay in the known facts. */
    method FixInterval(p: Proposal, known: Option<Facts>) returns (ok: bool)
      modifies this
      ensures ok == IntervalFixed(p, old(changes), known).Accepted?
      ensures ok ==> changes == IntervalFixed(p, old(changes), known).value
    {
      var confirmed := ConfirmedStart(p, known);
      if !changes.start.Unset? && confirmed.Some?
        && !(changes.start.Set? && Same(changes.start.value, confirmed.value)) {
        return false;
      }
      if known.Some? {
        var start := if changes.start.Unset? then known.value.start
                     else if changes.start.Set? then Some(changes.start.value) else None;
        if start.Some? && changes.end.Set? {
          changes := changes.(start := Set(start.value), known := Null);
        } else if changes.allDay == Set(true) && start.Some? && start.value.Date? {
          changes := changes.(start := Set(start.value), known := Null);
        } else if !changes.start.Unset? {
          changes := changes.(start := Unset, known := Set(known.value.(start := start, startTime := None)));
        }
      }
      ok := true;
    }
  }

  function DayFixed(p: Proposal, given: Changes): Outcome<(Option<Facts>, Changes)> {
    var ch := given.(temporalDate := Unset);
    var td := given.temporalDate;
    var resolved := ResolvedDay(p);
    if td.Set? && resolved.Some? && td.value != resolved.value then Refused
    else
      var day := if td.Set? then Some(td.value) else resolved;
      if !FitsDay(ch.due, day) || !FitsDay(ch.start, day) || !EndFitsDay(p, ch.end, day) then Refused
      else if td.Set? && p.known.Some? && p.known.value.date.None? then
        var known := p.known.value.(date := day);
        Accepted((Some(known), ch.(known := Set(known))))
      else if td.Set? && p.known.None? && p.temporalFact.None? && p.start.None? then
        var known := Facts(day, None, None);
        Accepted((Some(known), ch.(known := Set(known))))
      else Accepted((p.known, ch))
  }

  function IntervalFixed(p: Proposal, ch: Changes, known: Option<Facts>): Outcome<Changes> {
    var confirmed := ConfirmedStart(p, known);
    if !ch.start.Unset? && confirmed.Some? && !(ch.start.Set? && Same(ch.start.value, confirmed.value)) then Refused
    else if known.None? then Accepted(ch)
    else
      var start := if ch.start.Unset? then known.value.start else if ch.start.Set? then Some(ch.start.value) else None;
      if start.Some? && (ch.end.Set? || (ch.allDay == Set(true) && start.value.Date?)) then
        Accepted(ch.(start := Set(start.value), known := Null))
      else if !ch.start.Unset? then
        Accepted(ch.(start := Unset, known := Set(known.value.(start := start, startTime := None))))
      else Accepted(ch)
  }

  predicate NoForbiddenNull(ch: Changes) {
    && !ch.responsibility.Null? && !ch.certainty.Null? && !ch.classification.Null? && !ch.content.Null?
    && !ch.allDay.Null? && !ch.fallbackConfirmed.Null? && !ch.nonBindingConfirmed.Null? && !ch.isCancellation.Null?
  }

  function Updated<T>(stored: T, field: Field<T>): T {
    if field.Set? then field.value else stored
  }

  function UpdatedOption<T>(stored: Option<T>, field: Field<T>): Option<T> {
    match field case Unset => stored case Null => None case Set(v) => Some(v)
  }

  function Merge(p: Proposal, ch: Changes): Proposal {
    p.(responsibility := Updated(p.responsibility, ch.responsibility), certainty := Updated(p.certainty, ch.certainty),
       classification := Updated(p.classification, ch.classification), content := Updated(p.content, ch.content),
       due := UpdatedOption(p.due, ch.due), start := UpdatedOption(p.start, ch.start),
       end := UpdatedOption(p.end, ch.end),
       allDay := Updated(p.allDay, ch.allDay), fallbackConfirmed := Updated(p.fallbackConfirmed, ch.fallbackConfirmed),
       nonBindingConfirmed := Updated(p.nonBindingConfirmed, ch.nonBindingConfirmed),
       targetEvent := UpdatedOption(p.targetEvent, ch.targetEvent),
       isCancellation := Updated(p.isCancellation, ch.isCancellation), known := UpdatedOption(p.known, ch.known))
  }

  /** `list.remove` of a question that is there. */
  function WithoutFirst(qs: seq<Question>, q: Question): seq<Question> {
    if qs == [] then [] else if qs[0] == q then qs[1..] else [qs[0]] + WithoutFirst(qs[1..], q)
  }

  function Extended(qs: seq<Question>, more: seq<Question>): seq<Question> {
    if more == [] then qs
    else
      var done := Extended(qs, more[..|more| - 1]);
      if more[|more| - 1] in done then done else done + [more[|more| - 1]]
  }

  function NextVersion(p: Proposal): Proposal {
    p.(version := p.version + 1, duplicateConfirmed := None)
  }

  /** The revised proposal before its final validation. */
  function Candidate(p: Proposal, ch: Changes, answered: Question): Proposal {
    var provisional := Merge(p, ch);
    var remaining := Extended(WithoutFirst(p.openQuestions, answered), RequiredQuestions(provisional));
    WithQuestions(NextVersion(provisional), remaining)
  }

  /** `apply_proposal_revision` as a function. */
  function Revised(p: Proposal, answered: Question, changes: Changes, allowFallback: bool): Outcome<Proposal> {
    if answered !in p.openQuestions || !PermissionsOk(p, changes, allowFallback) then Refused
    else
      var day := DayFixed(p, changes);
      if day.Refused? then Refused
      else
        var interval := IntervalFixed(p, day.value.1, day.value.0);
        if interval.Refused? || !NoForbiddenNull(interval.value) then Refused
        else
          var c := Candidate(p, interval.value, answered);
          if Valid(c) then Accepted(c) else Refused
  }

  /** `apply_proposal_revision`: changes are edited in place, the questions are built one by one. */
  method ApplyProposalRevision(p: Proposal, answered: Question, changes: Changes, allowFallback: bool)
    returns (result: Outcome<Proposal>)
    ensures result == Revised(p, answered, changes, allowFallback)
  {
    if answered !in p.openQuestions || !PermissionsOk(p, changes, allowFallback) {
      return Refused;
    }
    var revision := new Revision(changes);
    var ok, known := revision.FixDay(p);
    if !ok {
      return Refused;
    }
    ok := revision.FixInterval(p, known);
    if !ok || !NoForbiddenNull(revision.changes) {
      return Refused;
    }
    var provisional := Merge(p, revision.changes);
    var required := RequiredRevisionQuestions(provisional);
    var remaining := AppendMissing(WithoutFirst(p.openQuestions, answered), required);
    var c := WithQuestions(NextVersion(provisional), remaining);
    result := if Valid(c) then Accepted(c) else Refused;
  }

  method AppendMissing(start: seq<Question>, required: seq<Question>) returns (remaining: seq<Question>)
    ensures remaining == Extended(start, required)
  {
    remaining := start;
    for i := 0 to |required|
      invariant remaining == Extended(start, required[..i])
    {
      assert required[..i + 1][..i] == required[..i];
      if required[i] !in remaining {
        remaining := remaining + [required[i]];
      }
    }
    assert required[..|required|] == required;
  }

  // ---------------------------------------------------------- one revision

  lemma {:induction false} ExtendedHas(qs: seq<Question>, more: seq<Question>)
    ensures forall q :: q in Extended(qs, more) <==> q in qs || q in more
  {
    if more != [] {
      ExtendedHas(qs, more[..|more| - 1]);
      assert more == more[..|more| - 1] + [more[|more| - 1]];
    }
  }

  /** The instant at which the event is known to begin. */
  function TimedStart(p: Proposal): Option<int> {
    TimedOf(p.known, p.start)
  }

  function TimedOf(known: Option<Facts>, start: Option<When>): Option<int> {
    var s := if known.Some? then known.value.start else start;
    if s.Some? && Aware(s.value) then Some(Instant(s.value)) else None
  }

  /** Fixing the day adds a date to the facts and nothing else. */
  lemma DayKeepsStart(p: Proposal, given: Changes)
    requires given.known.Unset? && DayFixed(p, given).Accepted?
    ensures var (known, ch) := DayFixed(p, given).value;
      && ch.start == given.start && (ch.known.Unset? || (known.Some? && ch.known == Set(known.value)))
      && (p.known.Some? ==> known.Some? && known.value.start == p.known.value.start)
      && (p.known.None? && known.Some? ==> p.start.None?)
      && (ch.known.Unset? ==> known == p.known)
  {
  }

  lemma IntervalKeepsStart(p: Proposal, ch: Changes, known: Option<Facts>)
    requires ch.known.Unset? || (known.Some? && ch.known == Set(known.value))
    requires p.known.Some? ==> known.Some? && known.value.start == p.known.value.start
    requires p.known.None? && known.Some? ==> p.start.None?
    requires ch.known.Unset? ==> known == p.known
    requires TimedStart(p).Some? && IntervalFixed(p, ch, known).Accepted?
    ensures var t := IntervalFixed(p, ch, known).value;
      TimedOf(UpdatedOption(p.known, t.known), UpdatedOption(p.start, t.start)) == TimedStart(p)
  {
  }

  /** An accepted revision is a valid candidate, with its known start unchanged. */
  lemma RevisedIs(p: Proposal, answered: Question, changes: Changes, allowFallback: bool) returns (ch: Changes)
    requires Revised(p, answered, changes, allowFallback).Accepted? && changes.known.Unset?
    ensures Revised(p, answered, changes, allowFallback).value == Candidate(p, ch, answered)
    ensures Valid(Candidate(p, ch, answered))
    ensures TimedStart(p).Some? ==>
      TimedOf(UpdatedOption(p.known, ch.known), UpdatedOption(p.start, ch.start)) == TimedStart(p)
  {
    var day := DayFixed(p, changes).value;
    ch := IntervalFixed(p, day.1, day.0).value;
    DayKeepsStart(p, changes);
    if TimedStart(p).Some? {
      IntervalKeepsStart(p, day.1, day.0);
    }
  }

  lemma CandidateKeeps(p: Proposal, ch: Changes, answered: Question)
    ensures var r := Candidate(p, ch, answered);
      && r.id == p.id && r.sourceMail == p.sourceMail && r.kind == p.kind && r.version == p.version + 1
      && r.duplicateConfirmed.None?
      && TimedStart(r) == TimedOf(UpdatedOption(p.known, ch.known), UpdatedOption(p.start, ch.start))
      && RequiredQuestions(r) == RequiredQuestions(Merge(p, ch))
      && (r.status.PendingConfirmation? <==> r.openQuestions == [])
      && r.openQuestions == Extended(WithoutFirst(p.openQuestions, answered), RequiredQuestions(Merge(p, ch)))
  {
    var m := Merge(p, ch);
    MergeKeeps(p, ch);
    NextVersionAsks(m);
    FactsOfWithQuestions(NextVersion(m), Extended(WithoutFirst(p.openQuestions, answered), RequiredQuestions(m)));
  }

  lemma MergeKeeps(p: Proposal, ch: Changes)
    ensures var m := Merge(p, ch);
      && m.id == p.id && m.sourceMail == p.sourceMail && m.kind == p.kind && m.version == p.version
      && m.known == UpdatedOption(p.known, ch.known) && m.start == UpdatedOption(p.start, ch.start)
  {
  }

  lemma NextVersionAsks(p: Proposal)
    ensures RequiredQuestions(NextVersion(p)) == RequiredQuestions(p)
  {
  }

  /**
   An accepted revision keeps the identity and the known start, raises the version by one,
   leaves every required question open, and is ready for confirmation exactly when none is.
   */
  lemma RevisionKeeps(p: Proposal, answered: Question, changes: Changes, allowFallback: bool)
    requires Revised(p, answered, changes, allowFallback).Accepted? && changes.known.Unset?
    ensures var r := Revised(p, answered, changes, allowFallback).value;
      && Valid(r) && r.id == p.id && r.sourceMail == p.sourceMail && r.kind == p.kind && r.version == p.version + 1
      && (TimedStart(p).Some? ==> TimedStart(r) == TimedStart(p))
      && (forall q :: q in RequiredQuestions(r) ==> q in r.openQuestions)
      && (r.status.PendingConfirmation? <==> r.openQuestions == [])
      && r.duplicateConfirmed.None?
  {
    var ch := RevisedIs(p, answered, changes, allowFallback);
    CandidateKeeps(p, ch, answered);
    ExtendedHas(WithoutFirst(p.openQuestions, answered), RequiredQuestions(Merge(p, ch)));
  }

  lemma NoneRequired(a: seq<Question>, b: seq<Question>)
    requires forall q :: q in a ==> q in b
    ensures b == [] ==> a == []
  {
    if a != [] { assert a[0] in b; }
  }

  /** The final validation never refuses a revision for running out of questions, only for its facts. */
  lemma RefusedOnlyForFacts(p: Proposal, ch: Changes, answered: Question)
    ensures FactsOk(Candidate(p, ch, answered)) <==> Valid(Candidate(p, ch, answered))
  {
    var r := Candidate(p, ch, answered);
    CandidateKeeps(p, ch, answered);
    ExtendedHas(WithoutFirst(p.openQuestions, answered), RequiredQuestions(Merge(p, ch)));
    if FactsOk(r) {
      NoneRequired(RequiredQuestions(r), r.openQuestions);
      ReadyIsValid(r);
    } else if Valid(r) {
      FactsOfValid(r);
    }
  }

  // ------------------------------------------------------------- all runs

  datatype Request = Request(answered: Question, changes: Changes, allowFallback: bool)

  /** A refused revision leaves the proposal as it is. */
  function Revisions(p: Proposal, requests: seq<Request>): Proposal
    decreases |requests|
  {
    if requests == [] then p
    else
      var r := requests[0];
      var o := Revised(p, r.answered, r.changes, r.allowFallback);
      Revisions(if o.Accepted? then o.value else p, requests[1..])
  }

  function AcceptedCount(p: Proposal, requests: seq<Request>): nat
    decreases |requests|
  {
    if requests == [] then 0
    else
      var r := requests[0];
      var o := Revised(p, r.answered, r.changes, r.allowFallback);
      (if o.Accepted? then 1 else 0) + AcceptedCount(if o.Accepted? then o.value else p, requests[1..])
  }

  /**
   Over any sequence of revisions: the identity stays, the version counts the accepted
   ones, and once a timed start is known it is the same instant for ever.
   */
  lemma {:induction false} RevisionsKeep(p: Proposal, requests: seq<Request>)
    requires Valid(p) && forall i :: 0 <= i < |requests| ==> requests[i].changes.known.Unset?
    ensures var r := Revisions(p, requests);
      && Valid(r) && r.id == p.id && r.sourceMail == p.sourceMail && r.kind == p.kind
      && r.version == p.version + AcceptedCount(p, requests)
      && (TimedStart(p).Some? ==> TimedStart(r) == TimedStart(p))
    decreases |requests|
  {
    if requests != [] {
      var r := requests[0];
      var o := Revised(p, r.answered, r.changes, r.allowFallback);
      if o.Accepted? {
        RevisionKeeps(p, r.answered, r.changes, r.allowFallback);
      }
      RevisionsKeep(if o.Accepted? then o.value else p, requests[1..]);
    }
  }
}
