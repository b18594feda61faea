/**
 The durable queue of one bounded mail run: entries, counters, their stored
 invariants (src/mailhelp/domain/run.py) and every change made to an entry
 (src/mailhelp/mailbox/mailbox_run.py, src/mailhelp/persistence/proposals.py).
 */
module RunQueue {
  import opened PyText

  datatype Status = Discovered | Queued | Processing | Completed | WaitingForUser | Failed | Skipped

  datatype Terminal = TCompleted | TIrrelevant | TDuplicate | TFailed | TSkipped

  datatype Failure = ImapReadExhausted | ProcessingFailed

  /** The IMAP identity behind an entry's key. */
  datatype Key = Key(account: string, folder: string, uidvalidity: nat, uid: nat)

  datatype Entry = Entry(key: Key, status: Status, terminal: Option<Terminal>,
                         userActionOpen: bool, failure: Option<Failure>)

  datatype Counters = Counters(discovered: nat, queued: nat, processing: nat, completed: nat,
                               waitingForUser: nat, failed: nat, skipped: nat)

  datatype Run = Run(maxMails: Option<nat>, entries: seq<Entry>, counters: Counters)

  predicate TerminalStatus(s: Status) {
    s.Completed? || s.WaitingForUser? || s.Failed? || s.Skipped?
  }

  /** `consistent_terminal_state` and the field bounds. */
  predicate ValidEntry(e: Entry) {
    && e.key.account != "" && e.key.folder != "" && e.key.uidvalidity >= 1 && e.key.uid >= 1
    && (TerminalStatus(e.status) <==> e.terminal.Some?)
    && (e.userActionOpen <==> e.status.WaitingForUser?)
    && (e.failure.Some? ==> e.status.Failed?)
  }

  predicate UniqueKeys(entries: seq<Entry>) {
    forall i, j :: 0 <= i < j < |entries| ==> entries[i].key != entries[j].key
  }

  function Count(entries: seq<Entry>, s: Status): nat {
    if entries == [] then 0
    else Count(entries[..|entries| - 1], s) + (if entries[|entries| - 1].status == s then 1 else 0)
  }

  function Histogram(entries: seq<Entry>): Counters {
    Counters(Count(entries, Discovered), Count(entries, Queued), Count(entries, Processing),
             Count(entries, Completed), Count(entries, WaitingForUser), Count(entries, Failed),
             Count(entries, Skipped))
  }

  /** `consistent_queue`: what a stored run satisfies, or it cannot be loaded. */
  predicate ValidRun(run: Run) {
    && (run.maxMails.Some? ==> run.maxMails.value >= 1)
    && UniqueKeys(run.entries)
    && (forall i :: 0 <= i < |run.entries| ==> ValidEntry(run.entries[i]))
    && run.counters == Histogram(run.entries)
  }

  predicate RunComplete(run: Run) {
    forall i :: 0 <= i < |run.entries| ==> run.entries[i].terminal.Some?
  }

  /** `run_counters`: the loop over the entries. */
  method RunCounters(entries: seq<Entry>) returns (c: Counters)
    ensures c == Histogram(entries)
  {
    c := Counters(0, 0, 0, 0, 0, 0, 0);
    for i := 0 to |entries|
      invariant c == Histogram(entries[..i])
    {
      assert entries[..i + 1][..i] == entries[..i];
      match entries[i].status {
        case Discovered => c := c.(discovered := c.discovered + 1);
        case Queued => c := c.(queued := c.queued + 1);
        case Processing => c := c.(processing := c.processing + 1);
        case Completed => c := c.(completed := c.completed + 1);
        case WaitingForUser => c := c.(waitingForUser := c.waitingForUser + 1);
        case Failed => c := c.(failed := c.failed + 1);
        case Skipped => c := c.(skipped := c.skipped + 1);
      }
    }
    assert entries[..|entries|] == entries;
  }

  /** The first entry with the key, or the number of entries. */
  function Position(entries: seq<Entry>, key: Key): (i: nat)
    ensures i <= |entries|
    ensures i < |entries| ==> entries[i].key == key
    ensures i == |entries| ==> forall j :: 0 <= j < |entries| ==> entries[j].key != key
  {
    if entries == [] then 0 else if entries[0].key == key then 0
    else
      var r := Position(entries[1..], key);
      assert r == |entries[1..]| ==> forall j :: 1 <= j < |entries| ==> entries[j] == entries[1..][j - 1];
      r + 1
  }

  /** An entry is replaced and the counters are computed again. */
  function WithEntry(run: Run, i: nat, e: Entry): Run
    requires i < |run.entries|
  {
    var entries := run.entries[i := e];
    run.(entries := entries, counters := Histogram(entries))
  }

  // ------------------------------------------------------ entry transitions

  /** The durable outcome of processing one mail. */
  datatype Result = Result(failed: bool, awaitingRelevance: bool, userActionOpen: bool,
                           duplicate: bool, irrelevant: bool)

  predicate Runnable(s: Status) {
    s.Discovered? || s.Queued? || s.Processing?
  }

  function Started(e: Entry): Entry {
    e.(status := Processing, terminal := None, userActionOpen := false, failure := None)
  }

  function TerminalOf(r: Result): Terminal {
    if r.duplicate then TDuplicate else if r.irrelevant then TIrrelevant else TCompleted
  }

  function Finished(e: Entry, r: Result): Entry {
    if r.failed then
      e.(status := Failed, terminal := Some(TFailed), userActionOpen := false, failure := Some(ProcessingFailed))
    else
      e.(status := if r.userActionOpen then WaitingForUser else Completed,
         terminal := Some(TerminalOf(r)), userActionOpen := r.userActionOpen, failure := None)
  }

  /** What the entry of a processed mail says about the result. */
  predicate Tells(e: Entry, r: Result) {
    && (e.status.Failed? <==> r.failed) && (e.terminal == Some(TFailed) <==> r.failed)
    && (e.failure == Some(ProcessingFailed) <==> r.failed) && (e.failure.None? <==> !r.failed)
    && (e.status.WaitingForUser? <==> !r.failed && r.userActionOpen) && (e.userActionOpen <==> e.status.WaitingForUser?)
    && (e.status.Completed? <==> !r.failed && !r.userActionOpen)
    && (e.terminal == Some(TDuplicate) <==> !r.failed && r.duplicate)
    && (e.terminal == Some(TIrrelevant) <==> !r.failed && !r.duplicate && r.irrelevant)
    && (e.terminal == Some(TCompleted) <==> !r.failed && !r.duplicate && !r.irrelevant)
  }

  /** `_sync_run` on the entry of a mail: completed and waiting entries follow the open decisions. */
  function Synced(e: Entry, pending: bool): Entry {
    if !(e.status.Completed? || e.status.WaitingForUser?) || e.userActionOpen == pending then e
    else e.(userActionOpen := pending, status := if pending then WaitingForUser else Completed)
  }

  datatype Change =
    | Start(key: Key)
    | Finish(key: Key, result: Result)
    | Resume(key: Key, result: Result)
    | Sync(key: Key, pending: bool)

  /** When the code makes the change; otherwise the run stays as it is stored. */
  predicate Applies(run: Run, c: Change) {
    var i := Position(run.entries, c.key);
    i < |run.entries| &&
    match c
    case Start(_) => Runnable(run.entries[i].status)
    case Finish(_, _) => true
    case Resume(_, r) => !r.failed && !r.awaitingRelevance && run.entries[i].terminal.None?
    case Sync(_, _) => true
  }

  function Changed(run: Run, c: Change): Run {
    if !Applies(run, c) then run
    else
      var i := Position(run.entries, c.key);
      WithEntry(run, i, ChangedEntry(run.entries[i], c))
  }

  /** The same identities in the same order; what was terminal stays terminal. */
  predicate Advances(a: Run, b: Run) {
    && |a.entries| == |b.entries| && a.maxMails == b.maxMails
    && forall i :: 0 <= i < |a.entries| ==>
         && a.entries[i].key == b.entries[i].key
         && (a.entries[i].terminal.Some? ==> b.entries[i].terminal.Some?)
  }

  lemma WithEntryKeeps(run: Run, i: nat, e: Entry)
    requires ValidRun(run) && i < |run.entries| && ValidEntry(e) && e.key == run.entries[i].key
    requires run.entries[i].terminal.Some? ==> e.terminal.Some?
    ensures ValidRun(WithEntry(run, i, e)) && Advances(run, WithEntry(run, i, e))
  {
  }

  function ChangedEntry(e: Entry, c: Change): Entry {
    match c
    case Start(_) => Started(e)
    case Finish(_, r) => Finished(e, r)
    case Resume(_, r) => Finished(e, r)
    case Sync(_, pending) => Synced(e, pending)
  }

  /** Every change keeps the stored invariants and never reopens a terminal entry. */
  lemma ChangeKeepsRun(run: Run, c: Change)
    requires ValidRun(run)
    ensures ValidRun(Changed(run, c)) && Advances(run, Changed(run, c))
  {
    if Applies(run, c) {
      var i := Position(run.entries, c.key);
      assert ValidEntry(run.entries[i]);
      WithEntryKeeps(run, i, ChangedEntry(run.entries[i], c));
    }
  }

  function ChangedAll(run: Run, cs: seq<Change>): Run
    decreases |cs|
  {
    if cs == [] then run else ChangedAll(Changed(run, cs[0]), cs[1..])
  }

  /** Over every sequence of changes a stored run stays valid, and once complete it stays complete. */
  lemma {:induction false} RunStaysComplete(run: Run, cs: seq<Change>)
    requires ValidRun(run)
    ensures ValidRun(ChangedAll(run, cs)) && Advances(run, ChangedAll(run, cs))
    ensures RunComplete(run) ==> RunComplete(ChangedAll(run, cs))
    decreases |cs|
  {
    if cs != [] {
      ChangeKeepsRun(run, cs[0]);
      RunStaysComplete(Changed(run, cs[0]), cs[1..]);
    }
  }

  /** After a synchronisation a finished mail waits exactly while a decision is open. */
  lemma SyncAgrees(run: Run, key: Key, pending: bool)
    requires ValidRun(run)
    ensures var i := Position(run.entries, key);
      i < |run.entries| && (run.entries[i].status.Completed? || run.entries[i].status.WaitingForUser?) ==> (
        var after := Changed(run, Sync(key, pending));
        && Position(after.entries, key) == i
        && after.entries[i].userActionOpen == pending
        && after.entries[i].terminal == run.entries[i].terminal)
    ensures Changed(Changed(run, Sync(key, pending)), Sync(key, pending)) == Changed(run, Sync(key, pending))
  {
    var i := Position(run.entries, key);
    if i < |run.entries| {
      var after := Changed(run, Sync(key, pending));
      assert after.entries[i].key == key;
      PositionUnique(after.entries, key, i);
      assert after.entries[i := after.entries[i]] == after.entries;
    }
  }

  lemma PositionUnique(entries: seq<Entry>, key: Key, i: nat)
    requires UniqueKeys(entries) && i < |entries| && entries[i].key == key
    ensures Position(entries, key) == i
  {
    assert Position(entries, key) < |entries|;
  }
}
