/**
 Activity report mails in blocks of 500, and the merge of a model result with what the
 user corrected meanwhile (src/mailhelp/activity/store.py).
 */
module ReportStore {
  import opened PyText

  const CHUNK: nat := 500

  datatype Event = Event(id: string, manual: bool, evidence: string, content: string)

  datatype Mail = Mail(key: string, userRelevant: Option<bool>, text: string, textRemoved: bool,
                       events: seq<Event>, content: string)

  // --------------------------------------------------------------- blocks

  function Flat(blocks: seq<seq<Mail>>): seq<Mail> {
    if blocks == [] then [] else blocks[0] + Flat(blocks[1..])
  }

  /** The mail with the same key is replaced where it stands, otherwise appended. */
  function Upsert(mails: seq<Mail>, mail: Mail): seq<Mail> {
    if mails == [] then [mail]
    else if mails[0].key == mail.key then [mail] + mails[1..]
    else [mails[0]] + Upsert(mails[1..], mail)
  }

  predicate Lacks(mails: seq<Mail>, key: string) {
    forall i :: 0 <= i < |mails| ==> mails[i].key != key
  }

  /** Every block but the last holds 500 mails; none is empty or longer. */
  predicate WellShaped(blocks: seq<seq<Mail>>) {
    forall i :: 0 <= i < |blocks| ==> 0 < |blocks[i]| <= 500 && (i < |blocks| - 1 ==> |blocks[i]| == 500)
  }

  lemma {:induction false} FlatConcat(a: seq<seq<Mail>>, b: seq<seq<Mail>>)
    ensures Flat(a + b) == Flat(a) + Flat(b)
  {
    if a == [] {
      assert a + b == b;
    } else {
      assert (a + b)[1..] == a[1..] + b;
      FlatConcat(a[1..], b);
    }
  }

  lemma FlatOne(b: seq<Mail>)
    ensures Flat([b]) == b
  {
    assert [b][1..] == [];
  }

  lemma {:induction false} UpsertBehind(a: seq<Mail>, b: seq<Mail>, mail: Mail)
    requires Lacks(a, mail.key)
    ensures Upsert(a + b, mail) == a + Upsert(b, mail)
  {
    if a == [] {
      assert a + b == b;
    } else {
      assert (a + b)[1..] == a[1..] + b;
      UpsertBehind(a[1..], b, mail);
    }
  }

  lemma UpsertAt(a: seq<Mail>, before: Mail, b: seq<Mail>, mail: Mail)
    requires Lacks(a, mail.key) && before.key == mail.key
    ensures Upsert(a + [before] + b, mail) == a + [mail] + b
  {
    assert a + [before] + b == a + ([before] + b);
    UpsertBehind(a, [before] + b, mail);
  }

  /** Replacing a block keeps all others. */
  lemma FlatAround(blocks: seq<seq<Mail>>, n: nat, block: seq<Mail>)
    requires n < |blocks|
    ensures Flat(blocks[n := block]) == Flat(blocks[..n]) + block + Flat(blocks[n + 1..])
  {
    assert blocks[n := block] == blocks[..n] + ([block] + blocks[n + 1..]);
    FlatConcat(blocks[..n], [block] + blocks[n + 1..]);
    FlatConcat([block], blocks[n + 1..]);
    FlatOne(block);
  }

  lemma UpsertInBlock(blocks: seq<seq<Mail>>, n: nat, k: nat, mail: Mail)
    requires n < |blocks| && k < |blocks[n]| && blocks[n][k].key == mail.key
    requires Lacks(Flat(blocks[..n]) + blocks[n][..k], mail.key)
    ensures Flat(blocks[n := blocks[n][k := mail]]) == Upsert(Flat(blocks), mail)
  {
    var before, b, after := Flat(blocks[..n]), blocks[n], Flat(blocks[n + 1..]);
    FlatAround(blocks, n, b);
    FlatAround(blocks, n, b[k := mail]);
    assert blocks[n := b] == blocks;
    UpsertAt(before + b[..k], b[k], b[k + 1..] + after, mail);
    assert before + b + after == (before + b[..k]) + [b[k]] + (b[k + 1..] + after);
    assert before + b[k := mail] + after == (before + b[..k]) + [mail] + (b[k + 1..] + after);
  }

  // ----------------------------------------------------------------- merge

  predicate UniqueIds(events: seq<Event>) {
    forall i, j :: 0 <= i < j < |events| ==> events[i].id != events[j].id
  }

  /** The stored pattern of an event id: `e` and one to three digits. */
  predicate ValidId(id: string) {
    2 <= |id| <= 4 && id[0] == 'e' && Decimal(id[1..]).Some?
  }

  function IdNumber(id: string): nat {
    if |id| < 2 || Decimal(id[1..]).None? then 0 else Decimal(id[1..]).value
  }

  function NewId(n: nat): string {
    "e" + NatText(n)
  }

  function Manual(events: seq<Event>, manual: bool): seq<Event> {
    if events == [] then []
    else (if events[0].manual == manual then [events[0]] else []) + Manual(events[1..], manual)
  }

  function Find(events: seq<Event>, id: string): Option<Event> {
    if events == [] then None else if events[0].id == id then Some(events[0]) else Find(events[1..], id)
  }

  /** The stored version of a model event wins over the new one. */
  function Preserved(stored: seq<Event>, e: Event): Event {
    var before := Find(stored, e.id);
    if before.Some? then before.value else e
  }

  function PreservedAll(stored: seq<Event>, events: seq<Event>): seq<Event> {
    if events == [] then [] else [Preserved(stored, events[0])] + PreservedAll(stored, events[1..])
  }

  function Blanked(events: seq<Event>): seq<Event> {
    if events == [] then [] else [events[0].(evidence := "")] + Blanked(events[1..])
  }

  function MaxNumber(events: seq<Event>): nat {
    if events == [] then 0
    else
      var rest := MaxNumber(events[1..]);
      if IdNumber(events[0].id) > rest then IdNumber(events[0].id) else rest
  }

  predicate HasId(events: seq<Event>, id: string) {
    exists i :: 0 <= i < |events| && events[i].id == id
  }

  /** A model event that took the id of a manual one gets the next free number. */
  function Renumbered(events: seq<Event>, manual: seq<Event>, last: nat): seq<Event> {
    if events == [] then []
    else if HasId(manual, events[0].id) then
      [events[0].(id := NewId(last + 1))] + Renumbered(events[1..], manual, last + 1)
    else [events[0]] + Renumbered(events[1..], manual, last)
  }

  function Collisions(events: seq<Event>, manual: seq<Event>): nat {
    if events == [] then 0 else (if HasId(manual, events[0].id) then 1 else 0) + Collisions(events[1..], manual)
  }

  /** The model events of the result, in the version the user has seen. */
  function ModelEvents(result: Mail, current: Mail): seq<Event> {
    PreservedAll(Manual(current.events, false),
                 Manual(if current.textRemoved then Blanked(result.events) else result.events, false))
  }

  function LastNumber(result: Mail, current: Mail): nat {
    MaxNumber(ModelEvents(result, current) + current.events)
  }

  function Merged(result: Mail, current: Mail): Mail {
    var manual := Manual(current.events, true);
    result.(userRelevant := current.userRelevant,
            text := if current.textRemoved then "" else result.text,
            textRemoved := result.textRemoved || current.textRemoved,
            events := Renumbered(ModelEvents(result, current), manual, LastNumber(result, current)) + manual)
  }

  // ------------------------------------------------------------ list facts

  lemma {:induction false} ManualIs(events: seq<Event>, manual: bool)
    ensures forall e :: e in Manual(events, manual) <==> e in events && e.manual == manual
    ensures UniqueIds(events) ==> UniqueIds(Manual(events, manual))
  {
    if events != [] {
      ManualIs(events[1..], manual);
      var rest := Manual(events[1..], manual);
      if UniqueIds(events) {
        forall i | 0 <= i < |rest| ensures rest[i].id != events[0].id {
          assert rest[i] in events[1..];
        }
      }
    }
  }

  lemma {:induction false} FindIs(events: seq<Event>, id: string)
    ensures var f := Find(events, id);
      && (f.Some? ==> f.value in events && f.value.id == id) && (f.None? ==> !HasId(events, id))
  {
    if events != [] {
      FindIs(events[1..], id);
    }
  }

  lemma {:induction false} PreservedIs(stored: seq<Event>, events: seq<Event>)
    ensures var r := PreservedAll(stored, events);
      |r| == |events| && forall i :: 0 <= i < |r| ==> r[i] == Preserved(stored, events[i]) && r[i].id == events[i].id
  {
    if events != [] {
      FindIs(stored, events[0].id);
      PreservedIs(stored, events[1..]);
    }
  }

  lemma {:induction false} BlankedIs(events: seq<Event>)
    ensures var r := Blanked(events);
      |r| == |events| && forall i :: 0 <= i < |r| ==> r[i] == events[i].(evidence := "")
  {
    if events != [] { BlankedIs(events[1..]); }
  }

  lemma {:induction false} MaxIsMax(events: seq<Event>)
    ensures forall e :: e in events ==> IdNumber(e.id) <= MaxNumber(events)
  {
    if events != [] { MaxIsMax(events[1..]); }
  }

  lemma NewIdNumber(n: nat)
    ensures IdNumber(NewId(n)) == n
  {
    DecimalOfText(n);
    assert NewId(n)[1..] == NatText(n);
  }

  lemma {:induction false} TextLength(n: nat, digits: nat, limit: nat)
    requires digits >= 1 && limit == Power10(digits)
    ensures |NatText(n)| <= digits <==> n < limit
    decreases digits
  {
    if n >= 10 && digits > 1 {
      TextLength(n / 10, digits - 1, Power10(digits - 1));
    } else if n >= 10 {
      assert |NatText(n / 10)| >= 1;
    } else {
      assert Power10(digits) >= 10;
    }
  }

  function Power10(n: nat): (r: nat)
    ensures n >= 1 ==> r >= 10
    ensures r >= 1
  {
    if n == 0 then 1 else 10 * Power10(n - 1)
  }

  /** A new id fits the stored pattern exactly up to 999. */
  lemma NewIdValid(n: nat)
    ensures ValidId(NewId(n)) <==> n <= 999
  {
    DecimalOfText(n);
    assert Power10(1) == 10 && Power10(2) == 100 && Power10(3) == 1000;
    TextLength(n, 3, 1000);
    assert NewId(n)[1..] == NatText(n);
  }

  lemma {:induction false} RenumberedLength(events: seq<Event>, manual: seq<Event>, last: nat)
    ensures |Renumbered(events, manual, last)| == |events|
  {
    if events != [] {
      RenumberedLength(events[1..], manual, last);
      RenumberedLength(events[1..], manual, last + 1);
    }
  }

  /** The id an event gets: its own, or the next number after the collisions before it. */
  function IdAfter(events: seq<Event>, manual: seq<Event>, last: nat, i: nat): string
    requires i < |events|
  {
    if HasId(manual, events[i].id) then NewId(last + Collisions(events[..i + 1], manual)) else events[i].id
  }

  lemma RenumberedHead(events: seq<Event>, manual: seq<Event>, last: nat)
    requires events != []
    ensures Renumbered(events, manual, last) ==
      if HasId(manual, events[0].id)
      then [events[0].(id := NewId(last + 1))] + Renumbered(events[1..], manual, last + 1)
      else [events[0]] + Renumbered(events[1..], manual, last)
  {
  }

  lemma CollisionsHead(events: seq<Event>, manual: seq<Event>, i: nat)
    requires i < |events|
    ensures Collisions(events[..i + 1], manual)
         == (if HasId(manual, events[0].id) then 1 else 0) + Collisions(events[1..][..i], manual)
  {
    assert events[..i + 1][0] == events[0] && events[..i + 1][1..] == events[1..][..i];
  }

  /** Behind the first event numbering goes on from what the first one used. */
  lemma IdAfterFirst(events: seq<Event>, manual: seq<Event>, last: nat, i: nat)
    requires 0 < i < |events|
    ensures var next := last + (if HasId(manual, events[0].id) then 1 else 0);
      IdAfter(events, manual, last, i) == IdAfter(events[1..], manual, next, i - 1)
  {
    assert events[1..][i - 1] == events[i];
    CollisionsHead(events, manual, i);
  }

  lemma RenumberedFirst(events: seq<Event>, manual: seq<Event>, last: nat)
    requires events != []
    ensures |Renumbered(events, manual, last)| == |events|
    ensures Renumbered(events, manual, last)[0] == events[0].(id := IdAfter(events, manual, last, 0))
  {
    RenumberedLength(events, manual, last);
    RenumberedHead(events, manual, last);
    CollisionsHead(events, manual, 0);
    assert events[1..][..0] == [];
  }

  lemma RenumberedTail(events: seq<Event>, manual: seq<Event>, last: nat, i: nat)
    requires 0 < i < |events|
    ensures var next := last + (if HasId(manual, events[0].id) then 1 else 0);
      && |Renumbered(events, manual, last)| == |events|
      && |Renumbered(events[1..], manual, next)| == |events| - 1
      && Renumbered(events, manual, last)[i] == Renumbered(events[1..], manual, next)[i - 1]
  {
    RenumberedLength(events, manual, last);
    RenumberedHead(events, manual, last);
    RenumberedLength(events[1..], manual, last + (if HasId(manual, events[0].id) then 1 else 0));
  }

  /** What renumbering does to each event. */
  lemma {:induction false} RenumberedAt(events: seq<Event>, manual: seq<Event>, last: nat, i: nat)
    requires i < |events|
    ensures |Renumbered(events, manual, last)| == |events|
    ensures Renumbered(events, manual, last)[i] == events[i].(id := IdAfter(events, manual, last, i))
    decreases |events|
  {
    RenumberedLength(events, manual, last);
    if i == 0 {
      RenumberedFirst(events, manual, last);
    } else {
      var next := last + (if HasId(manual, events[0].id) then 1 else 0);
      RenumberedTail(events, manual, last, i);
      RenumberedAt(events[1..], manual, next, i - 1);
      IdAfterFirst(events, manual, last, i);
      assert events[1..][i - 1] == events[i];
    }
  }

  lemma {:induction false} CollisionsGrow(events: seq<Event>, manual: seq<Event>, i: nat, j: nat)
    requires i <= j <= |events|
    ensures Collisions(events[..i], manual) <= Collisions(events[..j], manual)
    ensures i < j && HasId(manual, events[j - 1].id) ==>
      Collisions(events[..i], manual) < Collisions(events[..j], manual)
    decreases j
  {
    if i < j {
      CollisionsSnoc(events[..j - 1], events[j - 1], manual);
      assert events[..j] == events[..j - 1] + [events[j - 1]];
      assert events[..j - 1][..i] == events[..i];
      CollisionsGrow(events, manual, i, j - 1);
    }
  }

  lemma {:induction false} CollisionsSnoc(events: seq<Event>, e: Event, manual: seq<Event>)
    ensures Collisions(events + [e], manual) == Collisions(events, manual) + (if HasId(manual, e.id) then 1 else 0)
  {
    if events == [] {
      assert [] + [e] == [e] && [e][1..] == [];
    } else {
      assert (events + [e])[1..] == events[1..] + [e];
      CollisionsSnoc(events[1..], e, manual);
    }
  }

  lemma HigherIsOther(id: string, last: nat, n: nat)
    requires IdNumber(id) <= last < n
    ensures NewId(n) != id
  {
    NewIdNumber(n);
  }

  lemma OtherNumbers(m: nat, n: nat)
    requires m != n
    ensures NewId(m) != NewId(n)
  {
    NewIdNumber(m);
    NewIdNumber(n);
  }

  lemma NumberedApart(x: string, y: string, last: nat, a: Option<nat>, b: Option<nat>)
    requires x != y && IdNumber(x) <= last && IdNumber(y) <= last
    requires a != Some(0) && b != Some(0) && (a.Some? ==> a != b)
    ensures (if a.Some? then NewId(last + a.value) else x) != (if b.Some? then NewId(last + b.value) else y)
  {
    if a.Some? && b.Some? {
      OtherNumbers(last + a.value, last + b.value);
    } else if a.Some? {
      HigherIsOther(y, last, last + a.value);
    } else if b.Some? {
      HigherIsOther(x, last, last + b.value);
    }
  }

  /** Which collision an event is, if it is one. */
  function CollisionAt(events: seq<Event>, manual: seq<Event>, i: nat): Option<nat>
    requires i < |events|
  {
    if HasId(manual, events[i].id) then Some(Collisions(events[..i + 1], manual)) else None
  }

  lemma CollisionsApart(events: seq<Event>, manual: seq<Event>, i: nat, j: nat)
    requires i < j < |events|
    ensures var a, b := CollisionAt(events, manual, i), CollisionAt(events, manual, j);
      a != Some(0) && b != Some(0) && (a.Some? ==> a != b)
  {
    CollisionsGrow(events, manual, i, i + 1);
    CollisionsGrow(events, manual, j, j + 1);
    CollisionsGrow(events, manual, i + 1, j + 1);
  }

  lemma IdsDiffer(events: seq<Event>, manual: seq<Event>, last: nat, i: nat, j: nat)
    requires i < j < |events| && events[i].id != events[j].id
    requires IdNumber(events[i].id) <= last && IdNumber(events[j].id) <= last
    ensures IdAfter(events, manual, last, i) != IdAfter(events, manual, last, j)
  {
    var a, b := CollisionAt(events, manual, i), CollisionAt(events, manual, j);
    CollisionsApart(events, manual, i, j);
    NumberedApart(events[i].id, events[j].id, last, a, b);
    assert IdAfter(events, manual, last, i) == if a.Some? then NewId(last + a.value) else events[i].id;
    assert IdAfter(events, manual, last, j) == if b.Some? then NewId(last + b.value) else events[j].id;
  }

  lemma RenumberedPair(events: seq<Event>, manual: seq<Event>, last: nat, i: nat, j: nat)
    requires i < j < |events| && events[i].id != events[j].id
    requires IdNumber(events[i].id) <= last && IdNumber(events[j].id) <= last
    ensures |Renumbered(events, manual, last)| == |events|
    ensures Renumbered(events, manual, last)[i].id != Renumbered(events, manual, last)[j].id
  {
    RenumberedAt(events, manual, last, i);
    RenumberedAt(events, manual, last, j);
    IdsDiffer(events, manual, last, i, j);
  }

  /** Ids stay unique when every number so far is at most `last`. */
  lemma RenumberedUnique(events: seq<Event>, manual: seq<Event>, last: nat)
    requires UniqueIds(events) && forall i :: 0 <= i < |events| ==> IdNumber(events[i].id) <= last
    ensures UniqueIds(Renumbered(events, manual, last))
  {
    var r := Renumbered(events, manual, last);
    RenumberedLength(events, manual, last);
    forall i, j | 0 <= i < j < |r| ensures r[i].id != r[j].id {
      RenumberedPair(events, manual, last, i, j);
    }
  }

  lemma RenumberedApart(events: seq<Event>, manual: seq<Event>, last: nat, i: nat, k: nat)
    requires i < |events| && k < |manual| && IdNumber(manual[k].id) <= last
    ensures |Renumbered(events, manual, last)| == |events| && Renumbered(events, manual, last)[i].id != manual[k].id
  {
    RenumberedAt(events, manual, last, i);
    NewIdNumber(last + Collisions(events[..i + 1], manual));
    CollisionsGrow(events, manual, i, i + 1);
  }

  // --------------------------------------------------------------- theorem

  predicate UniqueModelIds(result: Mail) {
    UniqueIds(Manual(result.events, false))
  }

  lemma ModelEventsUnique(result: Mail, current: Mail)
    requires UniqueModelIds(result)
    ensures UniqueIds(ModelEvents(result, current))
  {
    var given := if current.textRemoved then Blanked(result.events) else result.events;
    BlankedManual(result.events);
    BlankedIs(Manual(result.events, false));
    PreservedIs(Manual(current.events, false), Manual(given, false));
  }

  lemma {:induction false} BlankedManual(events: seq<Event>)
    ensures Manual(Blanked(events), false) == Blanked(Manual(events, false))
  {
    if events != [] {
      BlankedManual(events[1..]);
      var b, rest := Blanked(events), Manual(events[1..], false);
      assert b[1..] == Blanked(events[1..]) && b[0] == events[0].(evidence := "");
      if events[0].manual {
        assert Manual(events, false) == rest && Manual(b, false) == Manual(b[1..], false);
      } else {
        assert ([events[0]] + rest)[1..] == rest;
        assert Manual(b, false) == [b[0]] + Manual(b[1..], false);
      }
    }
  }

  lemma NumbersBounded(result: Mail, current: Mail)
    ensures forall e :: e in ModelEvents(result, current) ==> IdNumber(e.id) <= LastNumber(result, current)
    ensures forall e :: e in Manual(current.events, true) ==> IdNumber(e.id) <= LastNumber(result, current)
  {
    MaxIsMax(ModelEvents(result, current) + current.events);
    ManualIs(current.events, true);
  }

  /** With unique ids on both sides the merged ids are unique again. */
  lemma MergeIsUnique(result: Mail, current: Mail)
    requires UniqueModelIds(result) && UniqueIds(current.events)
    ensures UniqueIds(Merged(result, current).events)
  {
    var model, manual, last := ModelEvents(result, current), Manual(current.events, true), LastNumber(result, current);
    ModelEventsUnique(result, current);
    NumbersBounded(result, current);
    ManualIs(current.events, true);
    RenumberedUnique(model, manual, last);
    var r := Renumbered(model, manual, last);
    RenumberedLength(model, manual, last);
    forall i, k | 0 <= i < |r| && 0 <= k < |manual| ensures r[i].id != manual[k].id {
      RenumberedApart(model, manual, last, i, k);
    }
  }

  /**
   No correction of the user is lost: the verdict stays, every manual event stays unchanged,
   and a stored model event that the result names again stays in its stored version.
   */
  lemma MergeKeepsCorrections(result: Mail, current: Mail)
    requires UniqueModelIds(result) && UniqueIds(current.events)
    ensures var m := Merged(result, current);
      && m == result.(userRelevant := current.userRelevant, text := m.text, textRemoved := m.textRemoved,
                      events := m.events)
      && (current.textRemoved ==> m.textRemoved && m.text == "")
      && (!current.textRemoved ==> m.textRemoved == result.textRemoved && m.text == result.text)
      && (forall e :: e in current.events && e.manual ==> e in m.events)
      && (forall e :: e in current.events && !e.manual && HasId(Manual(result.events, false), e.id) ==> e in m.events)
  {
    var m := Merged(result, current);
    ManualIs(current.events, true);
    ManualIs(current.events, false);
    forall e | e in current.events && !e.manual && HasId(Manual(result.events, false), e.id) ensures e in m.events {
      StoredVersionStays(result, current, e);
    }
  }

  /** The model part of the merge holds the stored version wherever there is one. */
  lemma StoredInModel(result: Mail, current: Mail, e: Event, i: nat)
    requires UniqueIds(current.events) && e in current.events && !e.manual
    requires i < |Manual(result.events, false)| && Manual(result.events, false)[i].id == e.id
    ensures |ModelEvents(result, current)| == |Manual(result.events, false)| && ModelEvents(result, current)[i] == e
  {
    var given := Manual(result.events, false);
    var stored := Manual(current.events, false);
    BlankedManual(result.events);
    BlankedIs(given);
    ManualIs(current.events, false);
    FindUnique(stored, e);
    PreservedIs(stored, if current.textRemoved then Blanked(given) else given);
  }

  lemma NoManualTwin(current: Mail, e: Event)
    requires UniqueIds(current.events) && e in current.events && !e.manual
    ensures !HasId(Manual(current.events, true), e.id)
  {
    var manual := Manual(current.events, true);
    ManualIs(current.events, true);
    forall k | 0 <= k < |manual| ensures manual[k].id != e.id {
      assert manual[k] in current.events;
      if manual[k].id == e.id { SameIdSame(current.events, manual[k], e); }
    }
  }

  lemma StoredVersionStays(result: Mail, current: Mail, e: Event)
    requires UniqueIds(current.events) && e in current.events && !e.manual && HasId(Manual(result.events, false), e.id)
    ensures e in Merged(result, current).events
  {
    var i :| 0 <= i < |Manual(result.events, false)| && Manual(result.events, false)[i].id == e.id;
    var model, manual, last := ModelEvents(result, current), Manual(current.events, true), LastNumber(result, current);
    StoredInModel(result, current, e, i);
    NoManualTwin(current, e);
    RenumberedAt(model, manual, last, i);
    assert Renumbered(model, manual, last)[i] == e;
  }

  lemma SameIdSame(events: seq<Event>, a: Event, b: Event)
    requires UniqueIds(events) && a in events && b in events && a.id == b.id
    ensures a == b
  {
    var i :| 0 <= i < |events| && events[i] == a;
    var j :| 0 <= j < |events| && events[j] == b;
  }

  lemma FindUnique(events: seq<Event>, e: Event)
    requires UniqueIds(events) && e in events
    ensures Find(events, e.id) == Some(e)
  {
    FindIs(events, e.id);
    var i :| 0 <= i < |events| && events[i] == e;
    assert events[i].id == e.id;
    var f := Find(events, e.id).value;
    SameIdSame(events, f, e);
  }

  // ------------------------------------------------------- every merged event

  /** The id of a merged model event. */
  predicate IdFrom(given: Event, merged: Event, result: Mail, current: Mail) {
    if HasId(Manual(current.events, true), given.id) then NewNumber(merged.id, result, current)
    else merged.id == given.id
  }

  /** Everything else about it. */
  predicate RestFrom(given: Event, merged: Event, current: Mail) {
    && !merged.manual
    && (forall e :: e in current.events && !e.manual && e.id == given.id ==>
          merged.content == e.content && merged.evidence == e.evidence)
    && (!HasId(Manual(current.events, false), given.id) ==>
          && merged.content == given.content
          && merged.evidence == if current.textRemoved then "" else given.evidence)
  }

  /** Higher than every number that is stored or in the result. */
  predicate NewNumber(id: string, result: Mail, current: Mail) {
    && (forall e :: e in current.events ==> IdNumber(e.id) < IdNumber(id))
    && forall e :: e in Manual(result.events, false) ==> IdNumber(e.id) < IdNumber(id)
  }

  lemma NewNumberIsHigher(result: Mail, current: Mail, n: nat)
    requires n > LastNumber(result, current)
    ensures NewNumber(NewId(n), result, current)
  {
    var given := Manual(result.events, false);
    MaxIsMax(ModelEvents(result, current) + current.events);
    NewIdNumber(n);
    ModelHas(result, current);
    forall e | e in given ensures IdNumber(e.id) < n {
      var i :| 0 <= i < |given| && given[i] == e;
      assert ModelEvents(result, current)[i] in ModelEvents(result, current) + current.events;
    }
  }

  /** The model events one by one, before any of them is renumbered. */
  lemma ModelHas(result: Mail, current: Mail)
    ensures var given, r := Manual(result.events, false), ModelEvents(result, current);
      |r| == |given| && forall i :: 0 <= i < |r| ==>
        && r[i].id == given[i].id
        && r[i] == Preserved(Manual(current.events, false),
                             given[i].(evidence := if current.textRemoved then "" else given[i].evidence))
  {
    BlankedManual(result.events);
    BlankedIs(Manual(result.events, false));
    PreservedIs(Manual(current.events, false),
                Manual(if current.textRemoved then Blanked(result.events) else result.events, false));
  }

  /**
   Every model event of the result is in the merge: in its stored version where there is
   one, otherwise as the model gave it, without evidence once the text is removed, and
   under a new number exactly if a manual event has its id. The manual events follow.
   */
  lemma EventsAreMerged(result: Mail, current: Mail, i: nat)
    requires UniqueIds(current.events) && i < |Manual(result.events, false)|
    ensures var given, manual, m := Manual(result.events, false), Manual(current.events, true),
                                    Merged(result, current).events;
      && |m| == |given| + |manual| && m[|given|..] == manual
      && IdFrom(given[i], m[i], result, current) && RestFrom(given[i], m[i], current)
  {
    MergedParts(result, current);
    MergedId(result, current, i);
    MergedRest(result, current, i);
  }

  function ModelPart(result: Mail, current: Mail): seq<Event> {
    Renumbered(ModelEvents(result, current), Manual(current.events, true), LastNumber(result, current))
  }

  lemma MergedParts(result: Mail, current: Mail)
    ensures Merged(result, current).events == ModelPart(result, current) + Manual(current.events, true)
    ensures |ModelPart(result, current)| == |Manual(result.events, false)|
  {
    ModelHas(result, current);
    RenumberedLength(ModelEvents(result, current), Manual(current.events, true), LastNumber(result, current));
  }

  lemma IdAfterIs(result: Mail, current: Mail, i: nat)
    requires i < |ModelEvents(result, current)|
    ensures var model, manual := ModelEvents(result, current), Manual(current.events, true);
      var id := IdAfter(model, manual, LastNumber(result, current), i);
      if HasId(manual, model[i].id) then NewNumber(id, result, current) else id == model[i].id
  {
    var model, manual, last := ModelEvents(result, current), Manual(current.events, true), LastNumber(result, current);
    if HasId(manual, model[i].id) {
      CollisionsGrow(model, manual, i, i + 1);
      NewNumberIsHigher(result, current, last + Collisions(model[..i + 1], manual));
    }
  }

  lemma MergedId(result: Mail, current: Mail, i: nat)
    requires i < |Manual(result.events, false)|
    ensures |ModelPart(result, current)| == |Manual(result.events, false)|
    ensures IdFrom(Manual(result.events, false)[i], ModelPart(result, current)[i], result, current)
  {
    ModelHas(result, current);
    IdAfterIs(result, current, i);
    RenumberedAt(ModelEvents(result, current), Manual(current.events, true), LastNumber(result, current), i);
  }

  lemma MergedRest(result: Mail, current: Mail, i: nat)
    requires UniqueIds(current.events) && i < |Manual(result.events, false)|
    ensures |ModelPart(result, current)| == |Manual(result.events, false)|
    ensures RestFrom(Manual(result.events, false)[i], ModelPart(result, current)[i], current)
  {
    StoredWins(result, current, i);
    RenumberedAt(ModelEvents(result, current), Manual(current.events, true), LastNumber(result, current), i);
  }

  lemma StoredWins(result: Mail, current: Mail, i: nat)
    requires UniqueIds(current.events) && i < |Manual(result.events, false)|
    ensures |ModelEvents(result, current)| == |Manual(result.events, false)|
    ensures var given, e := Manual(result.events, false)[i], ModelEvents(result, current)[i];
      && !e.manual
      && (forall s :: s in current.events && !s.manual && s.id == given.id ==>
            e == s)
      && (!HasId(Manual(current.events, false), given.id) ==>
            e == given.(evidence := if current.textRemoved then "" else given.evidence))
  {
    var given := Manual(result.events, false)[i];
    ModelHas(result, current);
    ManualIs(result.events, false);
    ManualIs(current.events, false);
    FindIs(Manual(current.events, false), given.id);
    forall s | s in current.events && !s.manual && s.id == given.id
      ensures ModelEvents(result, current)[i] == s {
      StoredInModel(result, current, s, i);
    }
  }

  /** A later analysis never brings back text or evidence that was removed. */
  lemma RemovedStaysRemoved(result: Mail, current: Mail)
    requires UniqueIds(current.events) && current.textRemoved
    requires forall e :: e in current.events ==> e.evidence == ""
    ensures var m := Merged(result, current);
      m.textRemoved && m.text == "" && forall e :: e in m.events ==> e.evidence == ""
  {
    var m, given := Merged(result, current).events, Manual(result.events, false);
    ManualIs(current.events, true);
    ManualIs(current.events, false);
    MergedParts(result, current);
    forall k | 0 <= k < |m| ensures m[k].evidence == "" {
      if k < |given| {
        EventsAreMerged(result, current, k);
        EvidenceOf(given[k], m[k], current);
      } else {
        assert m[k] in Manual(current.events, true);
      }
    }
  }

  lemma EvidenceOf(given: Event, merged: Event, current: Mail)
    requires RestFrom(given, merged, current) && current.textRemoved
    requires forall e :: e in current.events ==> e.evidence == ""
    ensures merged.evidence == ""
  {
    var stored := Manual(current.events, false);
    ManualIs(current.events, false);
    if HasId(stored, given.id) {
      var k :| 0 <= k < |stored| && stored[k].id == given.id;
      assert stored[k] in current.events;
    }
  }

  lemma SmallNumbersFit(model: seq<Event>, manual: seq<Event>, last: nat, i: nat)
    requires i < |model| && ValidId(model[i].id)
    requires Collisions(model, manual) == 0 || last + Collisions(model, manual) <= 999
    ensures |Renumbered(model, manual, last)| == |model| && ValidId(Renumbered(model, manual, last)[i].id)
  {
    RenumberedAt(model, manual, last, i);
    CollisionsGrow(model, manual, i, i + 1);
    CollisionsGrow(model, manual, i + 1, |model|);
    assert model[..|model|] == model;
    NewIdValid(last + Collisions(model[..i + 1], manual));
  }

  /** The last renumbered event carries the highest number. */
  lemma HighestNumber(model: seq<Event>, manual: seq<Event>, last: nat) returns (i: nat)
    requires Collisions(model, manual) > 0
    ensures i < |Renumbered(model, manual, last)|
    ensures Renumbered(model, manual, last)[i].id == NewId(last + Collisions(model, manual))
  {
    i := LastCollision(model, manual);
    RenumberedAt(model, manual, last, i);
  }

  predicate AllValid(events: seq<Event>) {
    forall i :: 0 <= i < |events| ==> ValidId(events[i].id)
  }

  lemma SmallMergeIsStorable(result: Mail, current: Mail)
    requires AllValid(result.events) && AllValid(current.events)
    requires var n := Collisions(ModelEvents(result, current), Manual(current.events, true));
      n == 0 || LastNumber(result, current) + n <= 999
    ensures AllValid(Merged(result, current).events)
  {
    var model, manual, last := ModelEvents(result, current), Manual(current.events, true), LastNumber(result, current);
    var r := Renumbered(model, manual, last);
    ModelIdsValid(result, current);
    ManualIs(current.events, true);
    RenumberedLength(model, manual, last);
    forall i | 0 <= i < |r| ensures ValidId(r[i].id) {
      SmallNumbersFit(model, manual, last, i);
    }
    forall k | 0 <= k < |manual| ensures ValidId(manual[k].id) {
      assert manual[k] in current.events;
    }
  }

  /**
   The merged ids can be stored exactly as long as the renumbering ends at 999: with valid
   ids on both sides one more collision makes the stored block unreadable.
   */
  lemma MergeIsStorable(result: Mail, current: Mail)
    requires AllValid(result.events) && AllValid(current.events)
    ensures var n := Collisions(ModelEvents(result, current), Manual(current.events, true));
      AllValid(Merged(result, current).events) <==> (n == 0 || LastNumber(result, current) + n <= 999)
  {
    var model, manual, last := ModelEvents(result, current), Manual(current.events, true), LastNumber(result, current);
    var n := Collisions(model, manual);
    if n == 0 || last + n <= 999 {
      SmallMergeIsStorable(result, current);
    } else {
      var i := HighestNumber(model, manual, last);
      NewIdValid(last + n);
      assert Merged(result, current).events[i] == Renumbered(model, manual, last)[i];
    }
  }

  lemma ShortNumbers()
    ensures IdNumber("e1") == 1 && ValidId("e1") && IdNumber("e999") == 999 && ValidId("e999")
  {
    assert "e1"[1..] == "1" && "e999"[1..] == "999" && "999"[..2] == "99" && "99"[..1] == "9";
    assert Decimal("9") == Some(9) && Decimal("99") == Some(99);
  }

  /** A stored mail with a manual event and one of the model, and a result with one event named like the manual one. */
  function StoredExample(key: string, manual: Event, last: Event): Mail {
    Mail(key, None, "", false, [manual, last], "")
  }

  function ResultExample(key: string, e: Event): Mail {
    Mail(key, None, "", false, [e], "")
  }

  lemma ExampleLists(key: string, manual: Event, last: Event, e: Event)
    requires manual.manual && !last.manual && !e.manual && last.id != e.id
    ensures Manual([manual, last], true) == [manual]
      && ModelEvents(ResultExample(key, e), StoredExample(key, manual, last)) == [e]
  {
    assert [manual, last][1..] == [last] && [last][1..] == [] && [e][1..] == [];
    assert Manual([manual, last], false) == [] + Manual([last], false) == [last];
    assert Manual([manual, last], true) == [manual] + Manual([last], true) == [manual];
    assert Manual([e], false) == [e] + Manual([], false) == [e];
    assert Find([last], e.id) == Find([], e.id) == None;
    assert PreservedAll([last], [e]) == [e] + PreservedAll([last], []) == [e];
  }

  lemma ExampleNumber(manual: Event, last: Event, e: Event)
    requires IdNumber(manual.id) == IdNumber(e.id) == 1 && IdNumber(last.id) == 999
    ensures MaxNumber([e] + [manual, last]) == 999
  {
    assert [e] + [manual, last] == [e] + ([manual] + ([last] + []));
    MaxNumberCons(last, []);
    MaxNumberCons(manual, [last] + []);
    MaxNumberCons(e, [manual] + ([last] + []));
  }

  /** A new event named like a manual `e1`, beside a stored `e999`, becomes `e1000`, which cannot be read again. */
  lemma MergedIdTooLong(key: string, day: string)
    ensures var manual := Event("e1", true, "", day);
      var current := StoredExample(key, manual, Event("e999", false, "", day));
      var result := ResultExample(key, Event("e1", false, "", day));
      && AllValid(result.events) && AllValid(current.events)
      && Merged(result, current).events == [Event("e1000", false, "", day), manual] && !ValidId("e1000")
  {
    var manual, last, e := Event("e1", true, "", day), Event("e999", false, "", day), Event("e1", false, "", day);
    ShortNumbers();
    assert |last.id| != |e.id|;
    ExampleLists(key, manual, last, e);
    ExampleNumber(manual, last, e);
    assert [manual][0].id == e.id && HasId([manual], e.id);
    NewIdIs1000();
    assert [e][1..] == [] && Renumbered([e], [manual], 999) == [e.(id := NewId(1000))] + [];
  }

  lemma MaxNumberCons(e: Event, rest: seq<Event>)
    ensures MaxNumber([e] + rest) == if IdNumber(e.id) > MaxNumber(rest) then IdNumber(e.id) else MaxNumber(rest)
  {
    assert ([e] + rest)[1..] == rest;
  }

  lemma NewIdIs1000()
    ensures NewId(1000) == "e1000" && !ValidId("e1000")
  {
    assert NatText(1) == "1" && NatText(10) == "10" && NatText(100) == "100";
    assert NatText(1000) == "1000";
  }

  lemma {:induction false} LastCollision(events: seq<Event>, manual: seq<Event>) returns (i: nat)
    requires Collisions(events, manual) > 0
    ensures i < |events| && HasId(manual, events[i].id)
      && Collisions(events[..i + 1], manual) == Collisions(events, manual)
    decreases |events|
  {
    var n := |events| - 1;
    CollisionsSnoc(events[..n], events[n], manual);
    assert events == events[..n] + [events[n]];
    if HasId(manual, events[n].id) {
      i := n;
      assert events[..n + 1] == events;
    } else {
      i := LastCollision(events[..n], manual);
      assert events[..n][..i + 1] == events[..i + 1];
    }
  }

  lemma ModelIdsValid(result: Mail, current: Mail)
    requires AllValid(result.events)
    ensures AllValid(ModelEvents(result, current))
  {
    var given := Manual(result.events, false);
    BlankedManual(result.events);
    BlankedIs(given);
    ManualIs(result.events, false);
    PreservedIs(Manual(current.events, false), if current.textRemoved then Blanked(given) else given);
    forall i | 0 <= i < |given| ensures ValidId(given[i].id) {
      assert given[i] in result.events;
    }
  }

  // --------------------------------------------------------------- the store

  class ActivityReportStore {
    var blocks: seq<seq<Mail>>

    constructor ()
      ensures blocks == []
    {
      blocks := [];
    }

    /** Where the mail with this key stands, block by block. */
    method Locate(key: string) returns (found: bool, number: nat, position: nat)
      ensures found ==> number < |blocks| && position < |blocks[number]| && blocks[number][position].key == key
      ensures found ==> Lacks(Flat(blocks[..number]) + blocks[number][..position], key)
      ensures !found ==> Lacks(Flat(blocks), key)
    {
      number := 0;
      while number < |blocks|
        invariant 0 <= number <= |blocks|
        invariant Lacks(Flat(blocks[..number]), key)
      {
        var block := blocks[number];
        position := 0;
        while position < |block|
          invariant 0 <= position <= |block|
          invariant Lacks(block[..position], key)
        {
          if block[position].key == key {
            return true, number, position;
          }
          position := position + 1;
        }
        assert block[..position] == block;
        assert blocks[..number + 1] == blocks[..number] + [block];
        FlatConcat(blocks[..number], [block]);
        FlatOne(block);
        number := number + 1;
      }
      assert blocks[..number] == blocks;
      found := false;
      position := 0;
    }

    /** `save_mail`: one block is saved, and the blocks read as one list are updated or appended to. */
    method SaveMail(mail: Mail) returns (ghost saved: nat)
      modifies this
      ensures Flat(blocks) == Upsert(Flat(old(blocks)), mail)
      ensures WellShaped(old(blocks)) ==> WellShaped(blocks)
      ensures saved < |blocks| && |old(blocks)| <= |blocks| <= |old(blocks)| + 1
      ensures forall i :: 0 <= i < |old(blocks)| && i != saved ==> blocks[i] == old(blocks)[i]
    {
      var found, number, position := Locate(mail.key);
      if found {
        UpsertInBlock(blocks, number, position, mail);
        blocks := blocks[number := blocks[number][position := mail]];
        saved := number;
        return;
      }
      UpsertBehind(Flat(blocks), [], mail);
      assert Flat(blocks) + [] == Flat(blocks);
      saved := Append(mail);
    }

    method Append(mail: Mail) returns (ghost saved: nat)
      modifies this
      ensures Flat(blocks) == Flat(old(blocks)) + [mail]
      ensures WellShaped(old(blocks)) ==> WellShaped(blocks)
      ensures saved < |blocks| && |old(blocks)| <= |blocks| <= |old(blocks)| + 1
      ensures forall i :: 0 <= i < |old(blocks)| && i != saved ==> blocks[i] == old(blocks)[i]
    {
      if |blocks| == 0 || |blocks[|blocks| - 1]| >= CHUNK {
        FlatConcat(blocks, [[mail]]);
        FlatOne([mail]);
        saved := |blocks|;
        blocks := blocks + [[mail]];
      } else {
        var n := |blocks| - 1;
        FlatAround(blocks, n, blocks[n] + [mail]);
        FlatAround(blocks, n, blocks[n]);
        assert blocks[n := blocks[n]] == blocks;
        assert Flat(blocks[n + 1..]) == [];
        saved := n;
        blocks := blocks[n := blocks[n] + [mail]];
      }
    }

    /** `save_analysis`: the model result is merged with the stored mail, then saved. */
    method SaveAnalysis(result: Mail) returns (ghost saved: nat)
      modifies this
      ensures var before := Lookup(Flat(old(blocks)), result.key);
        Flat(blocks) == Upsert(Flat(old(blocks)), if before.Some? then Merged(result, before.value) else result)
      ensures WellShaped(old(blocks)) ==> WellShaped(blocks)
    {
      var current := Lookup(Flat(blocks), result.key);
      if current.None? {
        saved := SaveMail(result);
        return;
      }
      var merged := MergeEvents(result, current.value);
      saved := SaveMail(merged);
    }
  }

  function Lookup(mails: seq<Mail>, key: string): Option<Mail> {
    if mails == [] then None else if mails[0].key == key then Some(mails[0]) else Lookup(mails[1..], key)
  }

  /** The loops of the merge: the model events are taken over and renumbered one by one. */
  method MergeEvents(result: Mail, current: Mail) returns (mail: Mail)
    ensures mail == Merged(result, current)
  {
    var manual := Manual(current.events, true);
    var model := ModelEvents(result, current);
    var next := LastNumber(result, current);
    var events: seq<Event> := [];
    for i := 0 to |model|
      invariant events + Renumbered(model[i..], manual, next) == Renumbered(model, manual, LastNumber(result, current))
    {
      var event := model[i];
      RenumberedHead(model[i..], manual, next);
      assert model[i..][1..] == model[i + 1..];
      if HasId(manual, event.id) {
        next := next + 1;
        event := event.(id := NewId(next));
      }
      ghost var done := events;
      events := events + [event];
      assert events + Renumbered(model[i + 1..], manual, next)
        == done + ([event] + Renumbered(model[i + 1..], manual, next));
    }
    assert events + [] == events;
    mail := result.(userRelevant := current.userRelevant,
                    text := if current.textRemoved then "" else result.text,
                    textRemoved := result.textRemoved || current.textRemoved, events := events + manual);
  }

  /** Saving an analysis never touches another mail and keeps each key once. */
  lemma {:induction false} UpsertIs(mails: seq<Mail>, mail: Mail)
    ensures var r := Upsert(mails, mail);
      && Lookup(r, mail.key) == Some(mail)
      && (forall k :: k != mail.key ==> Lookup(r, k) == Lookup(mails, k))
      && |r| == |mails| + (if Lookup(mails, mail.key).Some? then 0 else 1)
  {
    if mails != [] {
      if mails[0].key == mail.key {
        assert ([mail] + mails[1..])[1..] == mails[1..];
      } else {
        UpsertIs(mails[1..], mail);
        assert Upsert(mails, mail)[1..] == Upsert(mails[1..], mail);
      }
    }
  }
}
