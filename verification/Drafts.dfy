/**
 Reply drafts: an APPEND whose answer is lost is reconciled by its Message-ID and
 never blindly repeated (src/mailhelp/notifications/drafts.py). One mail, any clicks.
 */
module Drafts {
  import opened PyText

  datatype Status = Editing | Uncertain | Saved | Simulated | Discarded

  /** What the idempotency digest is computed from. */
  datatype Digest =
    | OfGenerate(actor: string, version: nat, intent: string)
    | OfCancel(actor: string, version: nat)
    | OfSave(actor: string, version: nat, text: string)

  datatype Draft = Draft(version: nat, text: string, status: Status, operations: map<string, Digest>)

  /** A message in the drafts folder; its Message-ID names mail and version. */
  datatype Copy = Copy(version: nat, text: string)

  /** The stored draft and the mailbox, with an APPEND that may still take effect. */
  datatype World = World(draft: Option<Draft>, copies: seq<Copy>, inflight: Option<Copy>, deleted: set<Copy>)

  datatype Appended = Accepted | Refused | NoAnswer(landed: bool)

  /** Everything a call meets outside; what it does not reach has no influence. */
  datatype Outside = Outside(authorized: bool, available: bool, reply: Option<string>, stillAuthorized: bool,
                             targetReady: bool, testMode: bool, connected: bool, lands: bool, searchable: bool,
                             appended: Appended, evicted: set<string>)

  datatype Click =
    | Generate(actor: string, version: nat, key: string, intent: string)
    | Cancel(actor: string, version: nat, key: string)
    | Act(actor: string, version: nat, key: string, text: string)

  const NO_DRAFT: Draft := Draft(0, "", Discarded, map[])

  function DigestOf(c: Click): Digest {
    match c
    case Generate(actor, version, _, intent) => OfGenerate(actor, version, intent)
    case Cancel(actor, version, _) => OfCancel(actor, version)
    case Act(actor, version, _, text) => OfSave(actor, version, text)
  }

  /** `_remember`: the new key stays, any older ones may be evicted. */
  function Remember(d: Draft, c: Click, evicted: set<string>): Draft {
    d.(operations := (d.operations - (evicted - {c.key}))[c.key := DigestOf(c)])
  }

  datatype Begun = Rejected | Replay | Proceed(draft: Draft)

  predicate ValidArguments(c: Click) {
    match c
    case Generate(_, _, _, intent) => intent == "accept" || intent == "decline" || intent == "question"
    case Cancel(_, _, _) => true
    case Act(_, _, _, text) => |text| <= 8000 && Strip(text) != ""
  }

  /** The argument checks and `_begin`. */
  function Begin(w: World, c: Click, o: Outside): Begun {
    if !ValidArguments(c) || !o.authorized || !o.available || (w.draft.None? && !c.Generate?) then Rejected
    else
      var d := if w.draft.Some? then w.draft.value else NO_DRAFT;
      if c.key in d.operations && d.operations[c.key] != DigestOf(c) then Rejected
      else if c.key in d.operations && !d.status.Uncertain? then Replay
      else if d.version != c.version then Rejected
      else Proceed(d)
  }

  // ------------------------------------------------ durable worlds of a click

  /** All durable worlds of an uninterrupted click, in order. */
  function Trace(w: World, c: Click, o: Outside): seq<World> {
    match Begin(w, c, o)
    case Rejected => []
    case Replay => []
    case Proceed(d) =>
      match c
      case Generate(_, _, _, _) =>
        if d.status.Uncertain? || o.reply.None? || !o.stillAuthorized then []
        else [w.(draft := Some(Remember(Draft(d.version + 1, o.reply.value, Editing, d.operations), c, o.evicted)))]
      case Cancel(_, _, _) =>
        if !d.status.Editing? then []
        else [w.(draft := Some(Remember(Draft(d.version + 1, "", Discarded, d.operations), c, o.evicted)))]
      case Act(_, _, _, text) => ActTrace(w, d, text, c, o)
  }

  /** Only an open draft, or one in doubt with its text unchanged, is written. */
  function ActTrace(w: World, d: Draft, text: string, c: Click, o: Outside): seq<World> {
    if !d.status.Editing? && !(d.status.Uncertain? && text == d.text) then []
    else
      var stored := w.(draft := Some(d.(text := text)));
      [stored] + StoreTrace(stored, c, o)
  }

  /** The text is already stored; now the mailbox may be touched. */
  function StoreTrace(w: World, c: Click, o: Outside): seq<World>
    requires w.draft.Some?
  {
    if !o.targetReady then []
    else if o.testMode then [w.(draft := Some(Remember(w.draft.value.(status := Simulated), c, o.evicted)))]
    else if !o.connected then []
    else [Resolved(w, o.lands)] + SearchTrace(Resolved(w, o.lands), c, o)
  }

  /** An unanswered APPEND has taken effect by now or never does. */
  function Resolved(w: World, lands: bool): World {
    w.(inflight := None, copies := if lands && w.inflight.Some? then w.copies + [w.inflight.value] else w.copies)
  }

  predicate Matches(copies: seq<Copy>, version: nat) {
    exists i :: 0 <= i < |copies| && copies[i].version == version
  }

  function WithStatus(w: World, s: Status): World
    requires w.draft.Some?
  {
    w.(draft := Some(w.draft.value.(status := s)))
  }

  /** `_append` after the folder was selected, and the saves around it. */
  function SearchTrace(w: World, c: Click, o: Outside): seq<World>
    requires w.draft.Some?
  {
    var d := w.draft.value;
    if !o.searchable then []
    else if Matches(w.copies, d.version) then
      [w.(draft := Some(Remember(d.(status := Saved), c, o.evicted)))]
    else
      var intent := w.(draft := Some(Remember(d.(status := Uncertain), c, o.evicted)));
      [intent] + (if o.stillAuthorized then AppendTrace(intent, o.appended) else [])
  }

  /** The APPEND is on its way, then answered, then its result is stored. */
  function AppendTrace(w: World, a: Appended): seq<World>
    requires w.draft.Some?
  {
    var sent := w.(inflight := Some(Copy(w.draft.value.version, w.draft.value.text)));
    match a
    case Accepted => [sent, Resolved(sent, true), WithStatus(Resolved(sent, true), Saved)]
    case Refused => [sent, Resolved(sent, false), WithStatus(Resolved(sent, false), Editing)]
    case NoAnswer(landed) => [sent, if landed then Resolved(sent, true) else sent]
  }

  // ---------------------------------------------------------- the service

  class DraftService {
    var draft: Option<Draft>
    var copies: seq<Copy>           // outside: the drafts folder
    var inflight: Option<Copy>      // outside: an APPEND without an answer
    ghost var deleted: set<Copy>
    ghost var worlds: seq<World>    // every durable world so far

    ghost function Now(): World
      reads this
    {
      World(draft, copies, inflight, deleted)
    }

    constructor ()
      ensures draft.None? && copies == [] && inflight.None? && deleted == {} && worlds == []
    {
      draft, copies, inflight, deleted, worlds := None, [], None, {}, [];
    }

    method Save(d: Draft)
      modifies this`draft, this`worlds
      ensures draft == Some(d) && worlds == old(worlds) + [Now()]
    {
      draft := Some(d);
      worlds := worlds + [Now()];
    }

    /** The outside world settles an APPEND. */
    method Settle(landed: bool)
      modifies this`copies, this`inflight, this`worlds
      ensures Now() == Resolved(old(Now()), landed) && worlds == old(worlds) + [Now()]
    {
      if landed && inflight.Some? {
        copies := copies + [inflight.value];
      }
      inflight := None;
      worlds := worlds + [Now()];
    }

    /** `generate`, `cancel` and `act`: every durable world on the way is one of the trace. */
    method Do(c: Click, o: Outside)
      modifies this
      ensures worlds == old(worlds) + Trace(old(Now()), c, o)
      ensures Now() == Last(old(Now()), Trace(old(Now()), c, o)) && deleted == old(deleted)
    {
      var b := BeginClick(c, o);
      if !b.Proceed? {
        return;
      }
      var d := b.draft;
      match c {
        case Generate(_, _, _, _) =>
          if !d.status.Uncertain? && o.reply.Some? && o.stillAuthorized {
            Save(Remember(Draft(d.version + 1, o.reply.value, Editing, d.operations), c, o.evicted));
          }
        case Cancel(_, _, _) =>
          if d.status.Editing? {
            Save(Remember(Draft(d.version + 1, "", Discarded, d.operations), c, o.evicted));
          }
        case Act(_, _, _, text) =>
          SaveText(d, text, c, o);
      }
    }

    method BeginClick(c: Click, o: Outside) returns (b: Begun)
      ensures b == Begin(Now(), c, o)
    {
      if !ValidArguments(c) || !o.authorized || !o.available || (draft.None? && !c.Generate?) {
        return Rejected;
      }
      var d := if draft.Some? then draft.value else NO_DRAFT;
      if c.key in d.operations && d.operations[c.key] != DigestOf(c) {
        return Rejected;
      }
      if c.key in d.operations && !d.status.Uncertain? {
        return Replay;
      }
      if d.version != c.version {
        return Rejected;
      }
      return Proceed(d);
    }

    method SaveText(d: Draft, text: string, c: Click, o: Outside)
      modifies this
      ensures worlds == old(worlds) + ActTrace(old(Now()), d, text, c, o)
      ensures Now() == Last(old(Now()), ActTrace(old(Now()), d, text, c, o)) && deleted == old(deleted)
    {
      if d.status.Editing? || (d.status.Uncertain? && text == d.text) {
        ghost var before, earlier := Now(), worlds;
        Save(d.(text := text));
        ghost var stored := Now();
        Store(c, o);
        TracedBehind(before, earlier, stored, StoreTrace(stored, c, o));
      }
    }

    method Store(c: Click, o: Outside)
      requires draft.Some?
      modifies this
      ensures worlds == old(worlds) + StoreTrace(old(Now()), c, o)
      ensures Now() == Last(old(Now()), StoreTrace(old(Now()), c, o)) && deleted == old(deleted)
    {
      if !o.targetReady {
        return;
      }
      if o.testMode {
        Save(Remember(draft.value.(status := Simulated), c, o.evicted));
        return;
      }
      if !o.connected {
        return;
      }
      ghost var before, earlier := Now(), worlds;
      Settle(o.lands);
      ghost var resolved := Now();
      Search(c, o);
      TracedBehind(before, earlier, resolved, SearchTrace(resolved, c, o));
    }

    /** `_append`. */
    method Search(c: Click, o: Outside)
      requires draft.Some?
      modifies this
      ensures worlds == old(worlds) + SearchTrace(old(Now()), c, o)
      ensures Now() == Last(old(Now()), SearchTrace(old(Now()), c, o)) && deleted == old(deleted)
    {
      var d := draft.value;
      if !o.searchable {
        return;
      }
      if exists i :: 0 <= i < |copies| && copies[i].version == d.version {
        Save(Remember(d.(status := Saved), c, o.evicted));
        return;
      }
      Save(Remember(d.(status := Uncertain), c, o.evicted));
      if o.stillAuthorized {
        Append(o.appended);
      }
    }

    method Append(a: Appended)
      requires draft.Some?
      modifies this
      ensures worlds == old(worlds) + AppendTrace(old(Now()), a)
      ensures Now() == Last(old(Now()), AppendTrace(old(Now()), a)) && deleted == old(deleted)
    {
      var d := draft.value;
      inflight := Some(Copy(d.version, d.text));
      worlds := worlds + [Now()];
      match a {
        case Accepted =>
          Settle(true);
          Save(d.(status := Saved));
        case Refused =>
          Settle(false);
          Save(d.(status := Editing));
        case NoAnswer(landed) =>
          if landed {
            Settle(true);
          } else {
            worlds := worlds + [Now()];
          }
      }
    }
  }

  function Last(w: World, t: seq<World>): World {
    if t == [] then w else t[|t| - 1]
  }

  /** One more world, then those of a trace. */
  lemma TracedBehind(w: World, worlds: seq<World>, next: World, t: seq<World>)
    ensures worlds + [next] + t == worlds + ([next] + t)
    ensures Last(w, [next] + t) == Last(next, t)
  {
    LastOfMore(w, next, t);
  }

  lemma LastOfMore(w: World, first: World, t: seq<World>)
    ensures Last(w, [first] + t) == Last(first, t)
  {
  }

  // ------------------------------------------------------ what a click does

  function VersionOf(w: World): nat {
    if w.draft.Some? then w.draft.value.version else 0
  }

  /** The click is for the current version, and its key stands for nothing else or for this very click in doubt. */
  predicate Admitted(w: World, c: Click, o: Outside) {
    && ValidArguments(c) && o.authorized && o.available && c.version == VersionOf(w) && (w.draft.Some? || c.Generate?)
    && (w.draft.Some? && c.key in w.draft.value.operations ==>
          w.draft.value.operations[c.key] == DigestOf(c) && w.draft.value.status.Uncertain?)
  }

  lemma BeginsExactly(w: World, c: Click, o: Outside)
    ensures Begin(w, c, o).Proceed? <==> Admitted(w, c, o)
  {
  }

  /** The digest tells any two clicks apart, except for their keys. */
  lemma DigestIsExact(a: Click, b: Click)
    ensures DigestOf(a) == DigestOf(b) <==>
      match a
      case Generate(actor, version, _, intent) =>
        b.Generate? && actor == b.actor && version == b.version && intent == b.intent
      case Cancel(actor, version, _) => b.Cancel? && actor == b.actor && version == b.version
      case Act(actor, version, _, text) => b.Act? && actor == b.actor && version == b.version && text == b.text
  {
  }

  /** The click is remembered under its key; the others are old ones. */
  predicate Remembers(d: Draft, before: map<string, Digest>, c: Click) {
    && c.key in d.operations && d.operations[c.key] == DigestOf(c)
    && forall k :: k in d.operations && k != c.key ==> k in before && d.operations[k] == before[k]
  }

  function OperationsOf(w: World): map<string, Digest> {
    if w.draft.Some? then w.draft.value.operations else map[]
  }

  /** A new reply is the next version, open for editing; one world, and the mailbox is not touched. */
  lemma GenerateDoes(w: World, c: Click, o: Outside)
    requires c.Generate?
    ensures var t := Trace(w, c, o);
      && (t != [] <==> Admitted(w, c, o) && !(w.draft.Some? && w.draft.value.status.Uncertain?)
                       && o.reply.Some? && o.stillAuthorized)
      && (t != [] ==>
            && |t| == 1 && t[0] == w.(draft := t[0].draft) && t[0].draft.Some?
            && (var d := t[0].draft.value;
                && d.version == c.version + 1 && d.text == o.reply.value && d.status.Editing?
                && Remembers(d, OperationsOf(w), c)))
  {
    BeginsExactly(w, c, o);
  }

  /** Discarding an open draft makes an empty next version; the mailbox is not touched. */
  lemma CancelDoes(w: World, c: Click, o: Outside)
    requires c.Cancel?
    ensures var t := Trace(w, c, o);
      && (t != [] <==> Admitted(w, c, o) && w.draft.value.status.Editing?)
      && (t != [] ==>
            && |t| == 1 && t[0] == w.(draft := t[0].draft) && t[0].draft.Some?
            && (var d := t[0].draft.value;
                && d.version == c.version + 1 && d.text == "" && d.status.Discarded?
                && Remembers(d, OperationsOf(w), c)))
  {
    BeginsExactly(w, c, o);
  }

  /** Every world holds this version with this text. */
  predicate AllHold(t: seq<World>, version: nat, text: string) {
    forall i :: 0 <= i < |t| ==>
      t[i].draft.Some? && t[i].draft.value.version == version && t[i].draft.value.text == text
  }

  /** The mailbox as it is once an unanswered APPEND is settled. */
  function Settled(w: World, lands: bool): seq<Copy> {
    if lands && w.inflight.Some? then w.copies + [w.inflight.value] else w.copies
  }

  /**
   Saving: a click that does anything stores exactly its own text, in every world and before
   the mailbox is touched. How it ends is decided by the first thing that does not work; a
   refused text stays open, an unanswered one in doubt.
   */
  lemma ActDoes(w: World, c: Click, o: Outside)
    requires c.Act?
    ensures var t := Trace(w, c, o);
      && (t != [] <==> Admitted(w, c, o) && (w.draft.value.status.Editing?
                                             || (w.draft.value.status.Uncertain? && c.text == w.draft.value.text)))
      && AllHold(t, c.version, c.text)
      && (t != [] ==>
            && t[0].copies == w.copies && t[0].inflight == w.inflight && t[0].draft.value.status == w.draft.value.status
            && ActEnds(w, Last(w, t), c, o))
  {
    BeginsExactly(w, c, o);
    var b := Begin(w, c, o);
    if b.Proceed? && (b.draft.status.Editing? || (b.draft.status.Uncertain? && c.text == b.draft.text)) {
      var stored := w.(draft := Some(b.draft.(text := c.text)));
      StoreDoes(stored, c, o);
      LastOfMore(w, stored, StoreTrace(stored, c, o));
    }
  }

  /** The end of an admitted save. */
  predicate ActEnds(w: World, last: World, c: Click, o: Outside)
    requires c.Act? && w.draft.Some?
  {
    last.draft.Some? &&
    var d := last.draft.value;
    var mailbox := Settled(w, o.lands);
    var copy := Copy(c.version, c.text);
    if !o.targetReady || (!o.testMode && !o.connected) then
      d.status == w.draft.value.status && d.operations == w.draft.value.operations
      && last.copies == w.copies && last.inflight == w.inflight
    else if o.testMode then
      d.status.Simulated? && Remembers(d, w.draft.value.operations, c)
      && last.copies == w.copies && last.inflight == w.inflight
    else if !o.searchable then
      d.status == w.draft.value.status && d.operations == w.draft.value.operations
      && last.copies == mailbox && last.inflight.None?
    else
      Remembers(d, w.draft.value.operations, c) &&
      if Matches(mailbox, c.version) then d.status.Saved? && last.copies == mailbox && last.inflight.None?
      else if !o.stillAuthorized then d.status.Uncertain? && last.copies == mailbox && last.inflight.None?
      else
        match o.appended
        case Accepted => d.status.Saved? && last.copies == mailbox + [copy] && last.inflight.None?
        case Refused => d.status.Editing? && last.copies == mailbox && last.inflight.None?
        case NoAnswer(landed) =>
          d.status.Uncertain? && last.copies == (if landed then mailbox + [copy] else mailbox)
          && last.inflight == (if landed then None else Some(copy))
  }

  lemma StoreDoes(w: World, c: Click, o: Outside)
    requires c.Act? && w.draft.Some? && w.draft.value.version == c.version && w.draft.value.text == c.text
    ensures AllHold(StoreTrace(w, c, o), c.version, c.text) && ActEnds(w, Last(w, StoreTrace(w, c, o)), c, o)
  {
    if o.targetReady && !o.testMode && o.connected {
      var r := Resolved(w, o.lands);
      SearchDoes(w, r, c, o);
      LastOfMore(w, r, SearchTrace(r, c, o));
    }
  }

  lemma SearchDoes(w: World, r: World, c: Click, o: Outside)
    requires c.Act? && w.draft.Some? && w.draft.value.version == c.version && w.draft.value.text == c.text
    requires r == Resolved(w, o.lands) && o.targetReady && !o.testMode && o.connected
    ensures AllHold(SearchTrace(r, c, o), c.version, c.text) && ActEnds(w, Last(r, SearchTrace(r, c, o)), c, o)
  {
    if o.searchable && !Matches(r.copies, c.version) {
      MissingDoes(w, r, c, o);
    }
  }

  lemma MissingDoes(w: World, r: World, c: Click, o: Outside)
    requires c.Act? && w.draft.Some? && w.draft.value.version == c.version && w.draft.value.text == c.text
    requires r == Resolved(w, o.lands) && o.targetReady && !o.testMode && o.connected
    requires o.searchable && !Matches(r.copies, c.version)
    ensures AllHold(SearchTrace(r, c, o), c.version, c.text) && ActEnds(w, Last(r, SearchTrace(r, c, o)), c, o)
  {
    var intent := r.(draft := Some(Remember(r.draft.value.(status := Uncertain), c, o.evicted)));
    LastOfMore(r, intent, if o.stillAuthorized then AppendTrace(intent, o.appended) else []);
  }

  // ------------------------------------------------------------ invariant

  predicate OneCopyEach(copies: seq<Copy>) {
    forall i, j :: 0 <= i < j < |copies| ==> copies[i].version != copies[j].version
  }

  /** A copy of the current version exists only where the draft admits it, and with its text. */
  predicate Fits(w: World, c: Copy) {
    && w.draft.Some? && c.version <= w.draft.value.version
    && (c.version == w.draft.value.version ==>
          c.text == w.draft.value.text
          && (w.draft.value.status.Uncertain? || w.draft.value.status.Saved? || w.draft.value.status.Simulated?))
  }

  predicate Inv(w: World) {
    && OneCopyEach(w.copies)
    && (forall i :: 0 <= i < |w.copies| ==> Fits(w, w.copies[i]))
    && (w.inflight.Some? ==> Fits(w, w.inflight.value) && !Matches(w.copies, w.inflight.value.version))
    && (w.draft.Some? && w.draft.value.status.Saved? ==>
          var c := Copy(w.draft.value.version, w.draft.value.text); c in w.copies || c in w.deleted)
  }

  predicate AllInv(t: seq<World>) {
    forall i :: 0 <= i < |t| ==> Inv(t[i])
  }

  lemma ResolvedKeepsInv(w: World, lands: bool)
    requires Inv(w)
    ensures Inv(Resolved(w, lands))
  {
  }

  /** A later version: nothing of it is in the mailbox yet. */
  lemma NextVersionKeepsInv(w: World, d: Draft)
    requires Inv(w) && !d.status.Saved?
    requires d.version > if w.draft.Some? then w.draft.value.version else NO_DRAFT.version
    ensures Inv(w.(draft := Some(d)))
  {
  }

  /** The same version under another status, or another text while nothing was appended. */
  lemma SameVersionKeepsInv(w: World, d: Draft)
    requires Inv(w) && !d.status.Saved? && w.draft.Some? && d.version == w.draft.value.version
    requires d.status.Uncertain? || d.status.Simulated? || (d.status.Editing? && w.draft.value.status.Editing?)
    requires d.text == w.draft.value.text || w.draft.value.status.Editing?
    ensures Inv(w.(draft := Some(d)))
  {
  }

  lemma AppendKeepsInv(w: World, a: Appended)
    requires Inv(w) && w.draft.Some? && w.draft.value.status.Uncertain?
    requires w.inflight.None? && !Matches(w.copies, w.draft.value.version)
    ensures AllInv(AppendTrace(w, a))
  {
    var d := w.draft.value;
    var sent := w.(inflight := Some(Copy(d.version, d.text)));
    assert Inv(sent);
    ResolvedKeepsInv(sent, true);
    ResolvedKeepsInv(sent, false);
    match a
    case Accepted =>
      var landed := Resolved(sent, true);
      assert landed.copies[|w.copies|] == Copy(d.version, d.text);
      assert Inv(WithStatus(landed, Saved));
    case Refused =>
      assert Inv(WithStatus(Resolved(sent, false), Editing)) by {
        assert forall i :: 0 <= i < |w.copies| ==> w.copies[i].version != d.version;
      }
    case NoAnswer(_) =>
  }

  lemma SearchKeepsInv(w: World, c: Click, o: Outside)
    requires Inv(w) && w.inflight.None? && w.draft.Some?
    requires w.draft.value.status.Editing? || w.draft.value.status.Uncertain?
    ensures AllInv(SearchTrace(w, c, o))
  {
    var d := w.draft.value;
    if Matches(w.copies, d.version) {
      var i :| 0 <= i < |w.copies| && w.copies[i].version == d.version;
      assert Fits(w, w.copies[i]);
      assert w.copies[i] == Copy(d.version, d.text);
      assert Inv(w.(draft := Some(Remember(d.(status := Saved), c, o.evicted))));
    } else {
      var intent := w.(draft := Some(Remember(d.(status := Uncertain), c, o.evicted)));
      SameVersionKeepsInv(w, intent.draft.value);
      AppendKeepsInv(intent, o.appended);
    }
  }

  lemma AllInvMore(w: World, t: seq<World>)
    requires Inv(w) && AllInv(t)
    ensures AllInv([w] + t)
  {
  }

  lemma StoreKeepsInv(w: World, c: Click, o: Outside)
    requires Inv(w) && w.draft.Some? && (w.draft.value.status.Editing? || w.draft.value.status.Uncertain?)
    ensures AllInv(StoreTrace(w, c, o))
  {
    SameVersionKeepsInv(w, Remember(w.draft.value.(status := Simulated), c, o.evicted));
    var r := Resolved(w, o.lands);
    ResolvedKeepsInv(w, o.lands);
    SearchKeepsInv(r, c, o);
    AllInvMore(r, SearchTrace(r, c, o));
  }

  lemma ActKeepsInv(w: World, d: Draft, text: string, c: Click, o: Outside)
    requires Inv(w) && w.draft == Some(d)
    ensures AllInv(ActTrace(w, d, text, c, o))
  {
    if d.status.Editing? || (d.status.Uncertain? && text == d.text) {
      var stored := w.(draft := Some(d.(text := text)));
      SameVersionKeepsInv(w, d.(text := text));
      StoreKeepsInv(stored, c, o);
      AllInvMore(stored, StoreTrace(stored, c, o));
    }
  }

  lemma ClickKeepsInv(w: World, c: Click, o: Outside)
    requires Inv(w)
    ensures AllInv(Trace(w, c, o))
  {
    var b := Begin(w, c, o);
    if b.Proceed? {
      var d := b.draft;
      match c
      case Generate(_, _, _, _) =>
        if o.reply.Some? {
          NextVersionKeepsInv(w, Remember(Draft(d.version + 1, o.reply.value, Editing, d.operations), c, o.evicted));
        }
      case Cancel(_, _, _) =>
        NextVersionKeepsInv(w, Remember(Draft(d.version + 1, "", Discarded, d.operations), c, o.evicted));
      case Act(_, _, _, text) =>
        ActKeepsInv(w, d, text, c, o);
    }
  }

  // ------------------------------------------------------------- all runs

  /** A click that may die after any of its durable steps, or something the outside world does on its own. */
  datatype Step =
    | Do(click: Click, outside: Outside, cut: nat)
    | Settles(landed: bool)
    | UserDeletes(index: nat)

  function Next(w: World, step: Step): World {
    match step
    case Do(c, o, cut) =>
      var t := Trace(w, c, o);
      Last(w, if cut < |t| then t[..cut] else t)
    case Settles(landed) => Resolved(w, landed)
    case UserDeletes(i) =>
      if i < |w.copies| then
        w.(copies := w.copies[..i] + w.copies[i + 1..], deleted := w.deleted + {w.copies[i]})
      else w
  }

  function Run(w: World, steps: seq<Step>): World
    decreases |steps|
  {
    if steps == [] then w else Run(Next(w, steps[0]), steps[1..])
  }

  const START: World := World(None, [], None, {})

  lemma DeleteKeepsInv(w: World, i: nat)
    requires Inv(w) && i < |w.copies|
    ensures Inv(Next(w, UserDeletes(i)))
  {
    var t := Next(w, UserDeletes(i));
    forall j | 0 <= j < |t.copies| ensures t.copies[j] == w.copies[if j < i then j else j + 1] {
    }
    if w.draft.Some? && w.draft.value.status.Saved? {
      var c := Copy(w.draft.value.version, w.draft.value.text);
      if c in w.copies && c != w.copies[i] {
        var j :| 0 <= j < |w.copies| && w.copies[j] == c;
        assert t.copies[if j < i then j else j - 1] == c;
      }
    }
  }

  lemma NextKeepsInv(w: World, step: Step)
    requires Inv(w)
    ensures Inv(Next(w, step))
  {
    match step
    case Do(c, o, _) => ClickKeepsInv(w, c, o);
    case Settles(landed) => ResolvedKeepsInv(w, landed);
    case UserDeletes(i) => if i < |w.copies| { DeleteKeepsInv(w, i); }
  }

  lemma {:induction false} RunKeepsInv(w: World, steps: seq<Step>)
    requires Inv(w)
    ensures Inv(Run(w, steps))
    decreases |steps|
  {
    if steps != [] {
      NextKeepsInv(w, steps[0]);
      RunKeepsInv(Next(w, steps[0]), steps[1..]);
    }
  }

  /**
   Over all clicks, crashes, refusals, lost answers and deletions by the user: the drafts
   folder never holds two copies of one version, and a saved draft has its copy with
   exactly the stored text, unless the user deleted it there.
   */
  lemma NeverTwoCopies(steps: seq<Step>, i: nat, j: nat)
    ensures var w := Run(START, steps);
      && (i < j < |w.copies| ==> w.copies[i].version != w.copies[j].version)
      && (w.draft.Some? && w.draft.value.status.Saved? ==>
            var c := Copy(w.draft.value.version, w.draft.value.text); c in w.copies || c in w.deleted)
  {
    RunKeepsInv(START, steps);
  }

  /** Corollary of the trace: repeating a click that was remembered and is not in doubt changes nothing any more. */
  lemma RepeatIsQuiet(w: World, c: Click, o: Outside, again: Outside)
    requires var t := Trace(w, c, o);
      && t != [] && Last(w, t).draft.Some? && !Last(w, t).draft.value.status.Uncertain?
      && c.key in Last(w, t).draft.value.operations
      && (w.draft.Some? ==> c.key !in w.draft.value.operations)
    ensures Trace(Last(w, Trace(w, c, o)), c, again) == []
  {
    OperationOf(w, c, o);
  }

  /** What is remembered under the key of the click is the click. */
  predicate Noted(w: World, c: Click) {
    w.draft.Some? && (c.key in w.draft.value.operations ==> w.draft.value.operations[c.key] == DigestOf(c))
  }

  predicate AllNoted(t: seq<World>, c: Click) {
    forall i :: 0 <= i < |t| ==> Noted(t[i], c)
  }

  lemma AppendNoted(w: World, a: Appended, c: Click)
    requires Noted(w, c)
    ensures AllNoted(AppendTrace(w, a), c)
  {
  }

  lemma SearchNoted(w: World, c: Click, o: Outside)
    requires Noted(w, c)
    ensures AllNoted(SearchTrace(w, c, o), c)
  {
    AppendNoted(w.(draft := Some(Remember(w.draft.value.(status := Uncertain), c, o.evicted))), o.appended, c);
  }

  lemma StoreNoted(w: World, c: Click, o: Outside)
    requires Noted(w, c)
    ensures AllNoted(StoreTrace(w, c, o), c)
  {
    SearchNoted(Resolved(w, o.lands), c, o);
  }

  /** The only operation a click can add is its own. */
  lemma OperationOf(w: World, c: Click, o: Outside)
    requires w.draft.Some? ==> c.key !in w.draft.value.operations
    requires Trace(w, c, o) != []
    ensures AllNoted(Trace(w, c, o), c) && Noted(Last(w, Trace(w, c, o)), c)
  {
    var b := Begin(w, c, o);
    if c.Act? && b.Proceed? {
      StoreNoted(w.(draft := Some(b.draft.(text := c.text))), c, o);
    }
  }

  /** A search that succeeds leaves the draft saved, with its copy. */
  lemma SearchSettles(r: World, c: Click, o: Outside)
    requires Inv(r) && r.draft.Some? && r.draft.value.status.Uncertain? && r.inflight.None?
    requires o.searchable && o.stillAuthorized && o.appended.Accepted?
    ensures var d := r.draft.value; var last := Last(r, SearchTrace(r, c, o));
      && last.draft.Some? && last.draft.value.status.Saved? && last.draft.value.text == d.text
      && Copy(d.version, d.text) in last.copies
  {
    var d := r.draft.value;
    if Matches(r.copies, d.version) {
      var i :| 0 <= i < |r.copies| && r.copies[i].version == d.version;
      assert Fits(r, r.copies[i]) && r.copies[i] == Copy(d.version, d.text);
    } else {
      var intent := r.(draft := Some(Remember(d, c, o.evicted)));
      LastOfMore(r, intent, AppendTrace(intent, Accepted));
      var landed := r.copies + [Copy(d.version, d.text)];
      assert landed[|r.copies|] == Copy(d.version, d.text);
    }
  }

  /** Saving a draft in doubt once more: it is saved, with one copy, whether or not the lost APPEND took effect. */
  lemma DoubtIsSettled(w: World, actor: string, key: string, o: Outside)
    requires Inv(w) && w.draft.Some? && w.draft.value.status.Uncertain?
    requires ValidArguments(Act(actor, w.draft.value.version, key, w.draft.value.text))
    requires key in w.draft.value.operations ==>
      w.draft.value.operations[key] == OfSave(actor, w.draft.value.version, w.draft.value.text)
    requires o.authorized && o.available && o.targetReady && !o.testMode && o.connected && o.searchable
    requires o.stillAuthorized && o.appended.Accepted?
    ensures var d := w.draft.value; var t := Trace(w, Act(actor, d.version, key, d.text), o);
      && Last(w, t).draft.Some? && Last(w, t).draft.value.status.Saved? && Last(w, t).draft.value.text == d.text
      && Copy(d.version, d.text) in Last(w, t).copies
  {
    var d := w.draft.value;
    var c := Act(actor, d.version, key, d.text);
    var r := Resolved(w, o.lands);
    assert w.(draft := Some(d.(text := d.text))) == w;
    ResolvedKeepsInv(w, o.lands);
    assert Trace(w, c, o) == [w] + ([r] + SearchTrace(r, c, o));
    LastOfMore(w, w, [r] + SearchTrace(r, c, o));
    LastOfMore(w, r, SearchTrace(r, c, o));
    SearchSettles(r, c, o);
  }
}
