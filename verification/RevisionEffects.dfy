/**
 What an accepted revision makes of a proposal, field by field, and what is refused
 (src/mailhelp/domain/proposal.py).
 */
module RevisionEffects {
  import opened PyText
  import opened ProposalRevision

  // ------------------------------------------------------------- questions

  /** When each question has to be asked. */
  predicate MustAsk(p: Proposal, q: Question) {
    match q
    case DuplicateCheckMissing => p.duplicateCheckFailed
    case SourceUnassigned => p.pendingSources || p.matchingCandidates
    case WhenStarts => p.kind.Event? && p.start.None? && (p.known.None? || p.known.value.start.None?)
    case WhenEnds => p.kind.Event? && p.end.None?
    case IsUserResponsible => !p.responsibility.User?
    case IsItCertain => p.certainty.NotCertain?
    case HowContradictory => p.certainty.Contradictory?
    case CreateNonBinding => p.classification.NonBinding? && !p.nonBindingConfirmed
    case IsCompleted => p.classification.AlreadyCompleted?
    case WhichIsChanged => p.classification.Change? && !p.fallbackConfirmed && p.targetEvent.None?
    case WhichIsCancelled => p.classification.Cancellation? && p.targetEvent.None?
    case IsRecurring => p.classification.Recurring?
    case IsUnsupported => p.classification.Unsupported?
    case Free(_) => false
  }

  lemma AskHas(questions: seq<Question>, condition: bool, a: Question, q: Question)
    ensures q in Ask(questions, condition, a) <==> q in questions || (condition && q == a)
  {
  }

  predicate IsOfFacts(q: Question) {
    q.DuplicateCheckMissing? || q.SourceUnassigned? || q.WhenStarts? || q.WhenEnds?
  }

  predicate IsOfClass(q: Question) {
    q.CreateNonBinding? || q.IsCompleted? || q.WhichIsChanged? || q.WhichIsCancelled? || q.IsRecurring?
    || q.IsUnsupported?
  }

  function OpenPerson(p: Proposal): seq<Question> {
    var qs := Ask(OpenFacts(p), !p.responsibility.User?, IsUserResponsible);
    var qs := Ask(qs, p.certainty.NotCertain?, IsItCertain);
    Ask(qs, p.certainty.Contradictory?, HowContradictory)
  }

  lemma ClassAsksExactly(p: Proposal, q: Question)
    ensures ClassificationQuestion(p) == Some(q) <==> IsOfClass(q) && MustAsk(p, q)
  {
  }

  lemma PersonAsksExactly(p: Proposal, q: Question)
    ensures q in OpenPerson(p) <==> !IsOfClass(q) && MustAsk(p, q)
  {
    FactsAskExactly(p, q);
    var a := Ask(OpenFacts(p), !p.responsibility.User?, IsUserResponsible);
    var b := Ask(a, p.certainty.NotCertain?, IsItCertain);
    AskHas(OpenFacts(p), !p.responsibility.User?, IsUserResponsible, q);
    AskHas(a, p.certainty.NotCertain?, IsItCertain, q);
    AskHas(b, p.certainty.Contradictory?, HowContradictory, q);
  }

  lemma RequiredHas(p: Proposal, q: Question)
    ensures q in RequiredQuestions(p) <==> q in OpenPerson(p) || ClassificationQuestion(p) == Some(q)
  {
  }

  /** Exactly the questions that have to be asked are derived. */
  lemma AsksExactly(p: Proposal, q: Question)
    ensures q in RequiredQuestions(p) <==> MustAsk(p, q)
  {
    RequiredHas(p, q);
    PersonAsksExactly(p, q);
    ClassAsksExactly(p, q);
  }

  lemma FactsAskExactly(p: Proposal, q: Question)
    ensures q in OpenFacts(p) <==> IsOfFacts(q) && MustAsk(p, q)
  {
    var a := Ask([], p.duplicateCheckFailed, DuplicateCheckMissing);
    var b := Ask(a, p.pendingSources || p.matchingCandidates, SourceUnassigned);
    var starts := p.kind.Event? && p.start.None? && KnownStart(p).None?;
    AskHas([], p.duplicateCheckFailed, DuplicateCheckMissing, q);
    AskHas(a, p.pendingSources || p.matchingCandidates, SourceUnassigned, q);
    AskHas(b, starts, WhenStarts, q);
    AskHas(Ask(b, starts, WhenStarts), p.kind.Event? && p.end.None?, WhenEnds, q);
  }

  /** The permission reset changes four permissions, and of an open proposal the questions and the status they give. */
  lemma InvalidationTouches(p: Proposal)
    ensures var r := Invalidated(p);
      && r == p.(fallbackConfirmed := false, nonBindingConfirmed := false, duplicateConfirmed := None,
                 webActor := None, openQuestions := r.openQuestions, status := r.status)
      && (if p.status.PendingConfirmation? || p.status.NeedsClarification? then
            r.status == (if r.openQuestions == [] then PendingConfirmation else NeedsClarification)
          else r.openQuestions == p.openQuestions && r.status == p.status)
  {
    var c := WithoutPermissions(p);
    if p.status.PendingConfirmation? || p.status.NeedsClarification? {
      QuestionsTouch(c, Unique(c.openQuestions + RequiredQuestions(c)));
    }
  }

  lemma QuestionsTouch(c: Proposal, questions: seq<Question>)
    ensures var r := WithQuestions(c, questions);
      r == c.(openQuestions := questions, status := r.status)
      && r.status == (if questions == [] then PendingConfirmation else NeedsClarification)
  {
  }

  /** An open proposal asks after the reset what it asked before and what has to be asked without the permissions. */
  lemma InvalidationAsks(p: Proposal, q: Question)
    requires p.status.PendingConfirmation? || p.status.NeedsClarification?
    ensures q in Invalidated(p).openQuestions <==> q in p.openQuestions || MustAsk(Invalidated(p), q)
  {
    var c := WithoutPermissions(p);
    var questions := Unique(c.openQuestions + RequiredQuestions(c));
    UniqueMembers(c.openQuestions + RequiredQuestions(c));
    FactsOfWithQuestions(c, questions);
    assert Invalidated(p) == WithQuestions(c, questions);
    AsksExactly(WithQuestions(c, questions), q);
  }

  // ------------------------------------------------------ what is answered

  /** One occurrence of the answered question is gone, everything else is there. */
  lemma {:induction false} OneIsRemoved(qs: seq<Question>, q: Question)
    requires q in qs
    ensures multiset(WithoutFirst(qs, q)) == multiset(qs) - multiset{q}
  {
    assert qs == [qs[0]] + qs[1..];
    if qs[0] != q { OneIsRemoved(qs[1..], q); }
  }

  /** After an accepted revision: what was open and not answered, and what has to be asked now. */
  lemma OpenAfter(p: Proposal, answered: Question, changes: Changes, allowFallback: bool, q: Question)
    requires Revised(p, answered, changes, allowFallback).Accepted? && changes.known.Unset?
    ensures var r := Revised(p, answered, changes, allowFallback).value;
      q in r.openQuestions <==> (multiset(p.openQuestions) - multiset{answered})[q] > 0 || MustAsk(r, q)
  {
    var ch := RevisedIs(p, answered, changes, allowFallback);
    CandidateKeeps(p, ch, answered);
    var rest := WithoutFirst(p.openQuestions, answered);
    OneIsRemoved(p.openQuestions, answered);
    ExtendedHas(rest, RequiredQuestions(Merge(p, ch)));
    AsksExactly(Candidate(p, ch, answered), q);
    assert q in rest <==> q in multiset(rest);
  }

  // -------------------------------------------------------- what is changed

  /** A given value is taken, a missing one leaves what is stored. */
  predicate Takes<T(==)>(before: T, after: T, field: Field<T>) {
    after == if field.Set? then field.value else before
  }

  predicate TakesOption<T(==)>(before: Option<T>, after: Option<T>, field: Field<T>) {
    match field case Unset => after == before case Null => after.None? case Set(v) => after == Some(v)
  }

  /** A day has 1440 minutes from midnight on, and two times are the same when their instants are. */
  lemma DaysAndInstants(local: int, offset: int, other: int, otherOffset: int, day: int)
    ensures DayOf(Moment(local, Some(offset))) == day <==> 1440 * day <= local < 1440 * day + 1440
    ensures Same(Moment(local, Some(offset)), Moment(other, Some(otherOffset)))
            <==> local + otherOffset == other + offset
  {
  }

  /** The start, whether it is a field of the proposal or still a known fact. */
  function StartOf(p: Proposal): Option<When> {
    if p.known.Some? then p.known.value.start else p.start
  }

  /** The two intermediate steps after one another. */
  function Fixed(p: Proposal, given: Changes): Outcome<Changes> {
    var day := DayFixed(p, given);
    if day.Refused? then Refused else IntervalFixed(p, day.value.1, day.value.0)
  }

  lemma StepsExactly(p: Proposal, answered: Question, changes: Changes, allowFallback: bool)
    ensures var o := Revised(p, answered, changes, allowFallback);
      && (o.Accepted? <==>
            && answered in p.openQuestions && PermissionsOk(p, changes, allowFallback) && Fixed(p, changes).Accepted?
            && NoForbiddenNull(Fixed(p, changes).value) && Valid(Candidate(p, Fixed(p, changes).value, answered)))
      && (o.Accepted? ==> o.value == Candidate(p, Fixed(p, changes).value, answered))
  {
  }

  /** The intermediate steps change the start and the known facts only. */
  lemma FixingTouches(p: Proposal, given: Changes)
    requires given.known.Unset? && Fixed(p, given).Accepted?
    ensures var ch := Fixed(p, given).value;
      ch == given.(temporalDate := Unset, start := ch.start, known := ch.known)
  {
  }

  predicate ClaimsTaken(p: Proposal, r: Proposal, changes: Changes) {
    && Takes(p.responsibility, r.responsibility, changes.responsibility)
    && Takes(p.certainty, r.certainty, changes.certainty)
    && Takes(p.classification, r.classification, changes.classification)
    && Takes(p.content, r.content, changes.content)
    && Takes(p.isCancellation, r.isCancellation, changes.isCancellation)
    && TakesOption(p.targetEvent, r.targetEvent, changes.targetEvent)
  }

  predicate TimesTaken(p: Proposal, r: Proposal, changes: Changes) {
    && Takes(p.allDay, r.allDay, changes.allDay)
    && Takes(p.fallbackConfirmed, r.fallbackConfirmed, changes.fallbackConfirmed)
    && Takes(p.nonBindingConfirmed, r.nonBindingConfirmed, changes.nonBindingConfirmed)
    && TakesOption(p.due, r.due, changes.due) && TakesOption(p.end, r.end, changes.end)
  }

  /** Apart from the changeable fields only the version, the permission for a duplicate and the questions move. */
  predicate OthersStay(p: Proposal, r: Proposal) {
    r == p.(responsibility := r.responsibility, certainty := r.certainty, classification := r.classification,
            content := r.content, allDay := r.allDay, fallbackConfirmed := r.fallbackConfirmed,
            nonBindingConfirmed := r.nonBindingConfirmed, isCancellation := r.isCancellation,
            targetEvent := r.targetEvent, due := r.due, start := r.start, end := r.end, known := r.known,
            version := p.version + 1, duplicateConfirmed := None, openQuestions := r.openQuestions,
            status := if r.openQuestions == [] then PendingConfirmation else NeedsClarification)
  }

  lemma ClaimsAreTaken(p: Proposal, ch: Changes, answered: Question)
    ensures ClaimsTaken(p, Candidate(p, ch, answered), ch)
  {
  }

  lemma TimesAreTaken(p: Proposal, ch: Changes, answered: Question)
    ensures TimesTaken(p, Candidate(p, ch, answered), ch)
  {
  }

  lemma CandidateLeaves(p: Proposal, ch: Changes, answered: Question)
    ensures OthersStay(p, Candidate(p, ch, answered))
  {
  }

  lemma TakenThrough(p: Proposal, r: Proposal, given: Changes, ch: Changes)
    requires ClaimsTaken(p, r, ch) && TimesTaken(p, r, ch)
    requires ch == given.(temporalDate := Unset, start := ch.start, known := ch.known)
    ensures ClaimsTaken(p, r, given) && TimesTaken(p, r, given)
  {
  }

  /** Every other field takes its given value, and nothing that a revision does not name changes. */
  lemma FieldsAfter(p: Proposal, answered: Question, changes: Changes, allowFallback: bool)
    requires Revised(p, answered, changes, allowFallback).Accepted? && changes.known.Unset?
    ensures var r := Revised(p, answered, changes, allowFallback).value;
      ClaimsTaken(p, r, changes) && TimesTaken(p, r, changes) && OthersStay(p, r)
  {
    StepsExactly(p, answered, changes, allowFallback);
    FixingTouches(p, changes);
    var ch := Fixed(p, changes).value;
    ClaimsAreTaken(p, ch, answered);
    TimesAreTaken(p, ch, answered);
    CandidateLeaves(p, ch, answered);
    TakenThrough(p, Candidate(p, ch, answered), changes, ch);
  }

  /** Whether there are facts to keep: stored ones, or the first day that is given. */
  predicate HasFacts(p: Proposal, given: Changes) {
    p.known.Some? || (given.temporalDate.Set? && p.temporalFact.None? && p.start.None?)
  }

  /** A start with an end, or a day that is given as a whole, is no half interval any more. */
  predicate IsInterval(given: Changes, start: Option<When>) {
    start.Some? && (given.end.Set? || (given.allDay == Set(true) && start.value.Date?))
  }

  /**
   The known facts after the two edits: they are kept for as long as there is no interval,
   with the given day or the known one, the start as asked for, and no time of day beside a
   changed start.
   */
  predicate FactsAgree(p: Proposal, given: Changes, facts: Option<Facts>, start: Option<When>) {
    var s := if facts.Some? then facts.value.start else start;
    && TakesOption(StartOf(p), s, given.start)
    && (facts.Some? <==> HasFacts(p, given) && !IsInterval(given, s))
    && (facts.Some? ==>
          && facts.value.date == (if given.temporalDate.Set? then Some(given.temporalDate.value)
                                  else if p.known.Some? then p.known.value.date else None)
          && facts.value.startTime == (if given.start.Unset? && p.known.Some? then p.known.value.startTime else None)
          && start == p.start)
  }

  lemma FactsFixed(p: Proposal, given: Changes)
    requires given.known.Unset? && Fixed(p, given).Accepted?
    ensures var ch := Fixed(p, given).value;
      FactsAgree(p, given, UpdatedOption(p.known, ch.known), UpdatedOption(p.start, ch.start))
  {
  }

  /** So it is after every accepted revision. */
  lemma FactsAfter(p: Proposal, answered: Question, changes: Changes, allowFallback: bool)
    requires Revised(p, answered, changes, allowFallback).Accepted? && changes.known.Unset?
    ensures var r := Revised(p, answered, changes, allowFallback).value; FactsAgree(p, changes, r.known, r.start)
  {
    StepsExactly(p, answered, changes, allowFallback);
    FactsFixed(p, changes);
    MergeKeeps(p, Fixed(p, changes).value);
  }

  // -------------------------------------------------------- what is refused

  /** The day already validated. */
  function KnownDay(p: Proposal): Option<int> {
    if p.known.Some? && p.known.value.date.Some? then p.known.value.date
    else if p.temporalFact.Some? then p.temporalFact.value
    else None
  }

  /**
   A given day is the known one, and no changed date contradicts it; only the end of a timed
   event may be on the next day.
   */
  predicate DaysAgree(p: Proposal, ch: Changes) {
    var known := KnownDay(p);
    if ch.temporalDate.Set? then
      (known.Some? ==> ch.temporalDate.value == known.value) && DatesFit(p, ch, ch.temporalDate.value)
    else
      known.Some? ==> DatesFit(p, ch, known.value)
  }

  predicate DatesFit(p: Proposal, ch: Changes, day: int) {
    && (ch.due.Set? ==> DayOf(ch.due.value) == day)
    && (ch.start.Set? ==> DayOf(ch.start.value) == day)
    && (ch.end.Set? ==> DayOf(ch.end.value) == day
                        || (DayOf(ch.end.value) == day + 1 && ch.end.value.Moment? && !p.allDay))
  }

  /** A confirmed start is not changed: a date of an all-day event is none. */
  predicate StartAgrees(p: Proposal, ch: Changes) {
    var start := StartOf(p);
    || start.None? || (p.allDay && start.value.Date?) || ch.start.Unset?
    || (ch.start.Set? && Same(ch.start.value, start.value))
  }

  /** Permissions come from explicit answers only, and a change never turns into something new. */
  predicate Permitted(p: Proposal, ch: Changes, allowFallback: bool) {
    && (!allowFallback ==> ch.fallbackConfirmed.Unset? && ch.nonBindingConfirmed.Unset?)
    && (p.classification.Change? && ch.classification.Set? ==> !ch.classification.value.New?)
  }

  predicate FactsFit(p: Proposal, changes: Changes, answered: Question) {
    Fixed(p, changes).Accepted? && FactsOk(Candidate(p, Fixed(p, changes).value, answered))
  }

  /**
   A revision is accepted exactly if it answers an open question, is permitted, contradicts
   neither the day nor the confirmed start, nulls nothing that must be there, and its facts
   are consistent.
   */
  lemma AcceptedExactly(p: Proposal, answered: Question, changes: Changes, allowFallback: bool)
    requires changes.known.Unset?
    ensures Revised(p, answered, changes, allowFallback).Accepted? <==>
      && answered in p.openQuestions && Permitted(p, changes, allowFallback)
      && DaysAgree(p, changes) && StartAgrees(p, changes) && NothingNulled(changes)
      && FactsFit(p, changes, answered)
  {
    StepsExactly(p, answered, changes, allowFallback);
    FixedExactly(p, changes);
    PermittedExactly(p, changes, allowFallback);
    if Fixed(p, changes).Accepted? {
      FixingTouches(p, changes);
      NullsStay(changes, Fixed(p, changes).value);
      RefusedOnlyForFacts(p, Fixed(p, changes).value, answered);
    }
  }

  lemma PermittedExactly(p: Proposal, ch: Changes, allowFallback: bool)
    ensures PermissionsOk(p, ch, allowFallback) <==> Permitted(p, ch, allowFallback)
  {
  }

  /** A null is given for a date or for the target only. */
  predicate NothingNulled(ch: Changes) {
    && (ch.responsibility.Unset? || ch.responsibility.Set?) && (ch.certainty.Unset? || ch.certainty.Set?)
    && (ch.classification.Unset? || ch.classification.Set?) && (ch.content.Unset? || ch.content.Set?)
    && (ch.allDay.Unset? || ch.allDay.Set?) && (ch.isCancellation.Unset? || ch.isCancellation.Set?)
    && (ch.fallbackConfirmed.Unset? || ch.fallbackConfirmed.Set?)
    && (ch.nonBindingConfirmed.Unset? || ch.nonBindingConfirmed.Set?)
  }

  lemma NullsStay(given: Changes, ch: Changes)
    requires ch == given.(temporalDate := Unset, start := ch.start, known := ch.known)
    ensures NoForbiddenNull(ch) <==> NothingNulled(given)
  {
  }

  lemma FixedExactly(p: Proposal, changes: Changes)
    requires changes.known.Unset?
    ensures Fixed(p, changes).Accepted? <==> DaysAgree(p, changes) && StartAgrees(p, changes)
  {
    DayIsFixedExactly(p, changes);
    if DayFixed(p, changes).Accepted? {
      StartIsFixedExactly(p, changes);
    }
  }

  lemma DatesFitExactly(p: Proposal, ch: Changes, day: int)
    ensures FitsDay(ch.due, Some(day)) && FitsDay(ch.start, Some(day)) && EndFitsDay(p, ch.end, Some(day))
            <==> DatesFit(p, ch, day)
  {
  }

  lemma DayIsFixedExactly(p: Proposal, changes: Changes)
    ensures DayFixed(p, changes).Accepted? <==> DaysAgree(p, changes)
  {
    assert ResolvedDay(p) == KnownDay(p);
    if changes.temporalDate.Set? {
      DatesFitExactly(p, changes, changes.temporalDate.value);
    } else if KnownDay(p).Some? {
      DatesFitExactly(p, changes, KnownDay(p).value);
    }
  }

  lemma StartIsFixedExactly(p: Proposal, changes: Changes)
    requires changes.known.Unset? && DayFixed(p, changes).Accepted?
    ensures IntervalFixed(p, DayFixed(p, changes).value.1, DayFixed(p, changes).value.0).Accepted?
            <==> StartAgrees(p, changes)
  {
    DayKeepsStart(p, changes);
  }
}
