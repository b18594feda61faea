/**
 What a poll saves, as events of the machine in module Checkpoints: the exact saves for
 one queued or resumed mail, and the facts every reached state gives to the code that
 makes them (src/mailhelp/mailbox/mailbox_run.py).
 */
module PollEvents {
  import opened PyText
  import opened UidRanges
  import opened RunQueue
  import opened Checkpoints
  import opened BatchSelection

  /** What fetching and processing one mail comes to, once the generation is the expected one. */
  datatype Answer = TimedOut(called: bool) | Broken(called: bool) | Mail(result: Result)

  /** What `resume_pending` reads from one mail state. */
  datatype MailRecord = MailRecord(key: Key, unfinished: bool, awaitingRelevance: bool,
                                   readable: bool, accepted: bool, deferred: bool)

  predicate Durable(r: Result) {
    !r.failed && !r.awaitingRelevance
  }

  function JobOf(k: Key): Job {
    Job(FolderOf(k), k.uidvalidity, k.uid)
  }

  /** The saves of `_process_queued` for one queue position. */
  function QueuedEvents(s: State, k: Key, waiting: set<Key>, answer: Answer): seq<Event>
    requires InQueue(s, JobOf(k))
  {
    if k in waiting || !Runnable(EntryOf(s, k).status) then []
    else [ChangeRun(k.account, Start(k))]
         + AnswerEvents(k, Server(s, FolderOf(k)) == k.uidvalidity, FolderOf(k) in s.contexts, answer)
  }

  function AnswerEvents(k: Key, current: bool, prepared: bool, answer: Answer): seq<Event> {
    if !answer.Mail? || !current || answer.result.awaitingRelevance then []
    else SettleEvents(k, prepared, answer.result)
  }

  /** A failed mail ends its entry only; a durable one also completes its UID, if its folder was prepared. */
  function SettleEvents(k: Key, prepared: bool, r: Result): seq<Event> {
    if r.failed then [ChangeRun(k.account, Finish(k, r))]
    else [Processed(JobOf(k)), ChangeRun(k.account, Finish(k, r)), if prepared then Complete(true) else Forget]
  }

  /** The saves of one resumed mail. */
  function ResumedEvents(s: State, k: Key, answer: Answer): seq<Event> {
    if !answer.Mail? || Server(s, FolderOf(k)) != k.uidvalidity || !Durable(answer.result) then []
    else [Processed(JobOf(k))] + CompletionEvents(s, k, answer.result)
  }

  /** Its queue entry first, then the checkpoint; a mail without an open entry is left to the next discovery. */
  function CompletionEvents(s: State, k: Key, r: Result): seq<Event> {
    if !InQueue(s, JobOf(k)) || EntryOf(s, k).terminal.Some? then [Forget]
    else [ChangeRun(k.account, Resume(k, r)), Complete(false)]
  }

  function EntryOf(s: State, k: Key): Entry
    requires InQueue(s, JobOf(k))
  {
    s.runs[k.account].entries[Position(s.runs[k.account].entries, k)]
  }

  lemma {:induction false} ExecuteAppend(s: State, es: seq<Event>, e: Event)
    requires Allowed(s, es) && Enabled(Execute(s, es), e)
    ensures Allowed(s, es + [e]) && Execute(s, es + [e]) == Apply(Execute(s, es), e)
    decreases |es|
  {
    if es == [] {
      assert es + [e] == [e] && [e][1..] == [];
    } else {
      assert (es + [e])[0] == es[0] && (es + [e])[1..] == es[1..] + [e];
      ExecuteAppend(Apply(s, es[0]), es[1..], e);
    }
  }

  /** A crash after any number of saves is again a run: the prefix, then forgetting the memory. */
  lemma {:induction false} CrashAnywhere(s: State, es: seq<Event>, n: nat)
    requires Allowed(s, es) && n <= |es| && Inv(s)
    ensures Allowed(s, es[..n] + [Forget]) && Inv(Execute(s, es[..n] + [Forget]))
    decreases |es|
  {
    if n == 0 {
      assert es[..0] + [Forget] == [Forget] && [Forget][1..] == [];
    } else {
      assert es[..n][0] == es[0] && es[1..][..n - 1] == es[..n][1..];
      StepKeepsInv(s, es[0]);
      CrashAnywhere(Apply(s, es[0]), es[1..], n - 1);
      assert (es[..n] + [Forget])[1..] == es[1..][..n - 1] + [Forget];
    }
    RunKeepsInvariant(s, es[..n] + [Forget]);
  }

  /** An empty store in front of a server. */
  predicate Fresh(s: State) {
    s == State(s.server, map[], map[], map[], None, {})
  }

  /** The state is reached by the events from a fresh start. */
  ghost predicate Reached(first: State, log: seq<Event>, now: State) {
    Fresh(first) && Allowed(first, log) && Execute(first, log) == now
  }

  lemma ReachedInv(first: State, log: seq<Event>, now: State)
    requires Reached(first, log, now)
    ensures Inv(now)
  {
    InitialInv(first.server);
    RunKeepsInvariant(first, log);
  }

  lemma ReachedNext(first: State, log: seq<Event>, before: State, e: Event)
    requires Reached(first, log, before) && Enabled(before, e)
    ensures Reached(first, log + [e], Apply(before, e))
  {
    ExecuteAppend(first, log, e);
  }

  lemma {:induction false} SplitRun(s: State, a: seq<Event>, b: seq<Event>)
    requires Allowed(s, a + b)
    ensures Allowed(s, a) && Allowed(Execute(s, a), b) && Execute(s, a + b) == Execute(Execute(s, a), b)
    decreases |a|
  {
    if a == [] {
      assert a + b == b;
    } else {
      assert (a + b)[0] == a[0] && (a + b)[1..] == a[1..] + b;
      SplitRun(Apply(s, a[0]), a[1..], b);
    }
  }

  /**
   What a call adds to the log is a run from the state before it to the state after it, and
   the process may die after any number of its saves.
   */
  lemma CallIsRun(first: State, before: seq<Event>, s: State, log: seq<Event>, t: State, n: nat)
    requires Reached(first, before, s) && Reached(first, log, t) && before <= log && n <= |log| - |before|
    ensures var added := log[|before|..];
      && Allowed(s, added) && Execute(s, added) == t
      && Allowed(s, added[..n] + [Forget]) && Inv(Execute(s, added[..n] + [Forget]))
  {
    var added := log[|before|..];
    assert before + added == log;
    SplitRun(first, before, added);
    ReachedInv(first, before, s);
    CrashAnywhere(s, added, n);
  }

  /** The effect of a completion in the terms of the code: nothing at or below the boundary. */
  lemma CompleteEffect(first: State, log: seq<Event>, s: State, fromPoll: bool)
    requires Reached(first, log, s) && Enabled(s, Complete(fromPoll))
    ensures var j := s.job.value; var f := j.folder;
      && f in s.checkpoints
      && (var cp := s.checkpoints[f]; var after := CompletedUid(Context(cp, cp.ranges), j.uid, j.generation);
          && Loaded(cp) == Context(cp, cp.ranges) && Ordered(cp.ranges, Floor(cp), 1)
          && (fromPoll ==> s.contexts[f] == Context(cp, cp.ranges))
          && (cp.uidvalidity.None? || cp.uidvalidity == Some(j.generation))
          && (var checkpoints := if j.uid <= Floor(cp) then s.checkpoints else s.checkpoints[f := after];
              var contexts := if fromPoll then s.contexts[f := Context(after, after.ranges)] else s.contexts;
              Apply(s, Complete(fromPoll)) == s.(job := None, checkpoints := checkpoints, contexts := contexts)))
  {
    ReachedInv(first, log, s);
    CompletedJobIs(s, fromPoll);
    var j := s.job.value;
    var cp := s.checkpoints[j.folder];
    assert GoodCheckpoint(s, j.folder, cp);
    LoadedIsStored(s, j.folder, cp);
    assert fromPoll ==> s.contexts[j.folder] == Context(cp, cp.ranges);
    assert s.checkpoints[j.folder := cp] == s.checkpoints;
  }

  /**
   One checkpoint takes one UID: it is contained now and no other UID comes or goes; nothing
   at or below the boundary is touched.
   */
  ghost predicate Completes(before: map<Folder, Checkpoint>, after: map<Folder, Checkpoint>, k: Key) {
    var f := FolderOf(k);
    && f in before && f in after && (forall g :: g != f ==> (g in before <==> g in after))
    && (forall g :: g != f && g in before ==> after[g] == before[g])
    && (if k.uid <= Floor(before[f]) then after[f] == before[f]
        else
          && after[f].startUid == before[f].startUid && after[f].uidvalidity == Some(k.uidvalidity)
          && after[f].uid >= k.uid && after[f].uid >= before[f].uid
          && forall u :: Contains(after[f].ranges, u) <==> u == k.uid || Contains(before[f].ranges, u))
  }

  /** A completion of the machine completes its mail, in the memory of the poll too. */
  lemma CompletionIsExact(first: State, log: seq<Event>, s: State, fromPoll: bool)
    requires Reached(first, log, s) && Enabled(s, Complete(fromPoll))
    ensures var j := s.job.value; var t := Apply(s, Complete(fromPoll));
      && Completes(s.checkpoints, t.checkpoints, KeyOf(j))
      && (fromPoll ==> j.folder in t.contexts
                       && t.contexts[j.folder] == Context(t.checkpoints[j.folder], t.checkpoints[j.folder].ranges))
  {
    CompleteEffect(first, log, s, fromPoll);
    var j := s.job.value;
    var cp := s.checkpoints[j.folder];
    if j.uid > Floor(cp) { AddedIsExact(cp.ranges, j.uid, Floor(cp), 1); }
  }

  /** Every queue still holds the same identities. */
  ghost predicate SameKeys(a: map<string, Run>, b: map<string, Run>) {
    forall j :: InRuns(a, j) ==> InRuns(b, j)
  }

  predicate InRuns(runs: map<string, Run>, j: Job) {
    j.folder.account in runs
    && Position(runs[j.folder.account].entries, KeyOf(j)) < |runs[j.folder.account].entries|
  }

  lemma SameKeysTransitive(a: map<string, Run>, b: map<string, Run>, c: map<string, Run>)
    requires SameKeys(a, b) && SameKeys(b, c)
    ensures SameKeys(a, c)
  {
  }

  /** The status of the queue position of a mail. */
  function StatusAt(runs: map<string, Run>, k: Key): Option<Status> {
    if k.account !in runs then None
    else
      var i := Position(runs[k.account].entries, k);
      if i < |runs[k.account].entries| then Some(runs[k.account].entries[i].status) else None
  }

  /** The entry of the queue position of a mail. */
  function EntryAt(runs: map<string, Run>, k: Key): Option<Entry> {
    if k.account !in runs then None
    else
      var i := Position(runs[k.account].entries, k);
      if i < |runs[k.account].entries| then Some(runs[k.account].entries[i]) else None
  }

  /** Every other position keeps its status. */
  ghost predicate OthersKeep(a: map<string, Run>, b: map<string, Run>, key: Key) {
    forall k {:trigger StatusAt(b, k)} :: k != key ==> StatusAt(a, k) == StatusAt(b, k)
  }

  lemma {:induction false} PositionAfter(entries: seq<Entry>, i: nat, e: Entry, k: Key)
    requires i < |entries| && e.key == entries[i].key
    ensures Position(entries[i := e], k) == Position(entries, k)
  {
    if entries[0].key != k {
      if i == 0 {
        assert entries[0 := e][1..] == entries[1..];
      } else {
        assert entries[i := e][1..] == entries[1..][i - 1 := e];
        PositionAfter(entries[1..], i - 1, e, k);
      }
    }
  }

  /** A change of one position is seen at its key and nowhere else. */
  lemma ChangeSeen(runs: map<string, Run>, c: Change)
    requires c.key.account in runs && Applies(runs[c.key.account], c)
    ensures var run := runs[c.key.account]; var after := runs[c.key.account := Changed(run, c)];
      && EntryAt(after, c.key) == Some(ChangedEntry(run.entries[Position(run.entries, c.key)], c))
      && StatusAt(after, c.key) == Some(ChangedEntry(run.entries[Position(run.entries, c.key)], c).status)
      && OthersKeep(runs, after, c.key)
  {
    var run := runs[c.key.account];
    var i := Position(run.entries, c.key);
    var e := ChangedEntry(run.entries[i], c);
    var after := runs[c.key.account := Changed(run, c)];
    PositionAfter(run.entries, i, e, c.key);
    forall k | k != c.key ensures StatusAt(runs, k) == StatusAt(after, k) {
      PositionAfter(run.entries, i, e, k);
    }
  }

  /** The position is to be processed now. */
  predicate Goes(runs: map<string, Run>, waiting: set<Key>, k: Key) {
    k !in waiting && EntryAt(runs, k).Some? && Runnable(EntryAt(runs, k).value.status)
  }

  predicate Current(server: map<Folder, nat>, k: Key) {
    FolderOf(k) in server && server[FolderOf(k)] == k.uidvalidity
  }

  /** An exception other than a timeout: processing stops until the next start of the program. */
  predicate Breaks(server: map<Folder, nat>, k: Key, answer: Answer) {
    answer.Broken? || (answer.Mail? && !Current(server, k))
  }

  /** The batch goes on behind this mail. */
  predicate GoesOn(server: map<Folder, nat>, contexts: map<Folder, Context>, k: Key, answer: Answer) {
    answer.Mail? && Current(server, k)
    && (answer.result.awaitingRelevance || answer.result.failed || FolderOf(k) in contexts)
  }

  function Less(remaining: Option<nat>): Option<nat>
    requires remaining != Some(0)
  {
    if remaining.Some? then Some(remaining.value - 1) else None
  }

  /** The answer ends the mail in this run: it was fetched in its own generation and no relevance is asked. */
  predicate Ends(server: map<Folder, nat>, k: Key, answer: Answer) {
    answer.Mail? && Current(server, k) && !answer.result.awaitingRelevance
  }

  /**
   What becomes of a started mail. A durable one is finished, told in its entry and completed
   in its folder, in memory too; without an opened folder only the checkpoint is missing. A
   failed one is told in its entry. Otherwise the entry stays `processing`; in each of these
   cases no checkpoint changes.
   */
  ghost predicate Outcome(s: State, t: State, k: Key, answer: Answer) {
    var e := EntryAt(t.runs, k);
    var ends := Ends(s.server, k, answer);
    && e.Some?
    && (if ends then Tells(e.value, answer.result) else e.value.status.Processing?)
    && (if ends && !answer.result.failed then t.finished == s.finished + {JobOf(k)} else t.finished == s.finished)
    && (if ends && !answer.result.failed && FolderOf(k) in s.contexts then CompletesHere(s, t, k)
        else t.checkpoints == s.checkpoints)
    && (!ends || answer.result.failed ==> t.contexts == s.contexts)
  }

  lemma OutcomeIsDone(s: State, t: State, k: Key, answer: Answer)
    requires Outcome(s, t, k, answer) && GoesOn(s.server, s.contexts, k, answer)
    ensures DoneWith(t.runs, k, {}, answer)
  {
  }

  lemma DoneNow(s: State, t: State, k: Key, waiting: set<Key>, answer: Answer)
    requires EntryAt(s.runs, k).Some?
    requires if Goes(s.runs, waiting, k) then Outcome(s, t, k, answer) && GoesOn(s.server, s.contexts, k, answer)
             else t == s
    ensures DoneWith(t.runs, k, waiting, answer)
  {
    if Goes(s.runs, waiting, k) { OutcomeIsDone(s, t, k, answer); }
  }

  /** Whatever becomes of one mail, the others done before it stay done. */
  lemma StayDone(s: State, t: State, keys: seq<Key>, i: nat, waiting: set<Key>, answers: Key -> Answer)
    requires i < |keys| && EntryAt(s.runs, keys[i]).Some? && OthersKeep(s.runs, t.runs, keys[i])
    requires !Goes(s.runs, waiting, keys[i]) ==> t == s
    requires forall j :: 0 <= j < i ==> DoneWith(s.runs, keys[j], waiting, answers(keys[j]))
    ensures forall j :: 0 <= j < i ==> DoneWith(t.runs, keys[j], waiting, answers(keys[j]))
  {
    forall j | 0 <= j < i ensures DoneWith(t.runs, keys[j], waiting, answers(keys[j])) {
      if keys[j] != keys[i] { assert StatusAt(s.runs, keys[j]) == StatusAt(t.runs, keys[j]); }
    }
  }

  /** The poll keeps its open folders while the batch goes on. */
  lemma SameFolders(s: State, t: State, k: Key, waiting: set<Key>, answer: Answer)
    requires if Goes(s.runs, waiting, k) then Outcome(s, t, k, answer) && GoesOn(s.server, s.contexts, k, answer)
             else t == s
    ensures t.contexts.Keys == s.contexts.Keys
  {
    if Goes(s.runs, waiting, k) && Ends(s.server, k, answer) && !answer.result.failed {
      forall g ensures g in s.contexts <==> g in t.contexts {
      }
    }
  }

  /** Nothing was saved: the entry stays `processing`. */
  lemma NothingEnds(s: State, k: Key, answer: Answer)
    requires EntryAt(s.runs, k).Some? && EntryAt(s.runs, k).value.status.Processing? && !Ends(s.server, k, answer)
    ensures Outcome(s, s, k, answer)
  {
  }

  /** A durable mail: told, finished, and completed if its folder is open. */
  lemma SettledIs(s: State, m: State, t: State, k: Key, r: Result)
    requires Ends(s.server, k, Mail(r)) && !r.failed
    requires EntryAt(t.runs, k).Some? && Tells(EntryAt(t.runs, k).value, r)
    requires m.checkpoints == s.checkpoints && m.contexts == s.contexts && t.finished == s.finished + {JobOf(k)}
    requires if FolderOf(k) in s.contexts then CompletesHere(m, t, k) else t.checkpoints == s.checkpoints
    ensures Outcome(s, t, k, Mail(r))
  {
  }

  /** Only the entry was changed before. */
  lemma OutcomeFromStart(s: State, started: State, t: State, k: Key, answer: Answer)
    requires Outcome(started, t, k, answer) && started == s.(runs := started.runs)
    ensures Outcome(s, t, k, answer)
  {
  }

  /** Completed in the checkpoint and in the memory of the poll. */
  ghost predicate CompletesHere(s: State, t: State, k: Key) {
    var f := FolderOf(k);
    && Completes(s.checkpoints, t.checkpoints, k) && SameContexts(s.contexts, t.contexts, f)
    && f in t.contexts && t.contexts[f] == Context(t.checkpoints[f], t.checkpoints[f].ranges)
  }

  /**
   What becomes of a resumed mail: a durable one is finished, and if its queue position is
   still open, told there and completed in its folder. Nothing else changes a record.
   */
  ghost predicate Resumes(s: State, t: State, k: Key, answer: Answer) {
    var before, after := EntryAt(s.runs, k), EntryAt(t.runs, k);
    var durable := Ends(s.server, k, answer) && !answer.result.failed;
    && t.finished == s.finished + (if durable then {JobOf(k)} else {})
    && (if durable && before.Some? && before.value.terminal.None?
        then after.Some? && Tells(after.value, answer.result) && Completes(s.checkpoints, t.checkpoints, k)
        else t.runs == s.runs && t.checkpoints == s.checkpoints)
  }

  lemma OthersKeepTransitive(a: map<string, Run>, b: map<string, Run>, c: map<string, Run>, key: Key)
    requires OthersKeep(a, b, key) && OthersKeep(b, c, key)
    ensures OthersKeep(a, c, key)
  {
    forall k | k != key ensures StatusAt(a, k) == StatusAt(c, k) {
      assert StatusAt(b, k) == StatusAt(c, k);
    }
  }

  /** The batch is done with this mail: it waits, its position is no longer runnable, or its relevance is asked. */
  predicate DoneWith(runs: map<string, Run>, k: Key, waiting: set<Key>, answer: Answer) {
    || k in waiting
    || (StatusAt(runs, k).Some? && !Runnable(StatusAt(runs, k).value))
    || (answer.Mail? && answer.result.awaitingRelevance)
  }

  /** Every processed mail was taken from a limited budget. */
  predicate Charged(before: Option<nat>, after: Option<nat>, calls: int) {
    0 <= calls
    && match before
       case None => after == None
       case Some(n) => after.Some? && after.value + calls <= n
  }

  lemma QueueKept(first: State, log: seq<Event>, s: State, c: Change)
    requires Reached(first, log, s) && c.key.account in s.runs
    ensures SameKeys(s.runs, s.runs[c.key.account := Changed(s.runs[c.key.account], c)])
  {
    var a := c.key.account;
    var before, after := s.runs[a], Changed(s.runs[a], c);
    ReachedInv(first, log, s);
    assert GoodRun(s, a, before);
    ChangeKeepsRun(before, c);
    forall j | InRuns(s.runs, j) ensures InRuns(s.runs[a := after], j) {
      if j.folder.account == a {
        var i := Position(before.entries, KeyOf(j));
        assert after.entries[i].key == KeyOf(j);
      }
    }
  }

  lemma QueuedIsValid(first: State, log: seq<Event>, s: State, k: Key)
    requires Reached(first, log, s) && InQueue(s, JobOf(k))
    ensures k.uidvalidity >= 1 && k.uid >= 1
  {
    ReachedInv(first, log, s);
    assert GoodRun(s, k.account, s.runs[k.account]);
    assert ValidEntry(EntryOf(s, k));
  }

  /** A candidate of this folder in the generation it was listed in. */
  predicate Found(s: State, f: Folder, k: Key) {
    FolderOf(k) == f && k.uidvalidity == Server(s, f) && k.uidvalidity >= 1 && k.uid >= 1 && Discoverable(s, k)
  }

  ghost predicate SameContexts(a: map<Folder, Context>, b: map<Folder, Context>, f: Folder) {
    forall g :: g != f ==> (g in a <==> g in b) && (g in a ==> a[g] == b[g])
  }

  /** The stored generation of a folder is never later than the server's. */
  lemma KnownGeneration(first: State, log: seq<Event>, s: State, f: Folder)
    requires Reached(first, log, s) && f in s.checkpoints && s.checkpoints[f].uidvalidity.Some?
    ensures s.checkpoints[f].uidvalidity.value <= Server(s, f)
  {
    ReachedInv(first, log, s);
    assert GoodCheckpoint(s, f, s.checkpoints[f]);
  }

  lemma QueuedIsCurrent(first: State, log: seq<Event>, s: State, f: Folder)
    requires Reached(first, log, s)
    ensures QueuedUpTo(s, f, Server(s, f))
  {
    ReachedInv(first, log, s);
    forall a | a in s.runs ensures RunUpTo(s.runs[a], f, Server(s, f)) {
      assert GoodRun(s, a, s.runs[a]);
      forall i | 0 <= i < |s.runs[a].entries| && FolderOf(s.runs[a].entries[i].key) == f
        ensures s.runs[a].entries[i].key.uidvalidity <= Server(s, f)
      {
        assert GoodEntry(s, s.runs[a].entries[i].key);
      }
    }
  }

  lemma ChosenAreFound(candidates: seq<Candidate>, keys: seq<Key>)
    requires forall k :: k in keys ==> HasKey(candidates, k)
    ensures forall k :: k in keys ==> exists c :: c in candidates && c.key == k
  {
    forall k | k in keys ensures exists c :: c in candidates && c.key == k {
      var i :| 0 <= i < |candidates| && candidates[i].key == k;
      assert candidates[i] in candidates;
    }
  }

  lemma NewRunAllowed(s: State, keys: seq<Key>, account: string, remaining: Option<nat>)
    requires s.job.None? && Distinct(keys) && forall k :: k in keys ==> Found(s, FolderOf(k), k)
    requires account != "" && forall k :: k in keys ==> k.folder != ""
    requires remaining != Some(0)
    ensures Enabled(s, StoreRun(account, NewRun(keys, account, remaining)))
  {
    var mine := OfAccount(keys, account);
    OwnKeysFound(s, keys, account);
    OfAccountDistinct(keys, account);
    OfOneAccount(mine, account);
    NewRunStorable(mine, account, remaining);
  }

  lemma OwnKeysFound(s: State, keys: seq<Key>, account: string)
    requires forall k :: k in keys ==> Found(s, FolderOf(k), k)
    requires account != "" && forall k :: k in keys ==> k.folder != ""
    ensures var mine := OfAccount(keys, account);
      RealKeys(mine) && forall i :: 0 <= i < |mine| ==> mine[i].account == account && Discoverable(s, mine[i])
  {
    var mine := OfAccount(keys, account);
    OfAccountMembers(keys, account);
    forall i | 0 <= i < |mine|
      ensures mine[i] in keys && mine[i].account == account && Found(s, FolderOf(mine[i]), mine[i])
    {
      assert mine[i] in mine;
    }
  }

  lemma {:induction false} OfOneAccount(keys: seq<Key>, account: string)
    requires forall i :: 0 <= i < |keys| ==> keys[i].account == account
    ensures OfAccount(keys, account) == keys
  {
    if keys != [] { OfOneAccount(keys[1..], account); }
  }

  lemma QueuedInNewRun(keys: seq<Key>, k: Key, remaining: Option<nat>)
    requires k in keys
    ensures var run := NewRun(keys, k.account, remaining); Position(run.entries, k) < |run.entries|
  {
    OfAccountMembers(keys, k.account);
    var mine := OfAccount(keys, k.account);
    var i :| 0 <= i < |mine| && mine[i] == k;
    assert QueuedEntries(mine)[i].key == k;
  }

  /** Every account has the new queue of its own mail. */
  predicate AllStored(runs: map<string, Run>, keys: seq<Key>, remaining: Option<nat>, accounts: seq<string>) {
    forall a :: a in accounts ==> a in runs && runs[a] == NewRun(keys, a, remaining)
  }

  lemma AllStoredNext(before: map<string, Run>, after: map<string, Run>, keys: seq<Key>, remaining: Option<nat>,
                      accounts: seq<string>, i: nat)
    requires i < |accounts| && AllStored(before, keys, remaining, accounts[..i])
    requires after == before[accounts[i] := NewRun(keys, accounts[i], remaining)]
    ensures AllStored(after, keys, remaining, accounts[..i + 1])
  {
    assert accounts[..i + 1] == accounts[..i] + [accounts[i]];
  }

  lemma AllQueued(runs: map<string, Run>, keys: seq<Key>, remaining: Option<nat>, accounts: seq<string>)
    requires AllStored(runs, keys, remaining, accounts) && forall k :: k in keys ==> k.account in accounts
    ensures forall k :: k in keys ==>
      InRuns(runs, JobOf(k)) && EntryAt(runs, k) == Some(Entry(k, Queued, None, false, None))
  {
    forall k | k in keys
      ensures InRuns(runs, JobOf(k)) && EntryAt(runs, k) == Some(Entry(k, Queued, None, false, None))
    {
      QueuedInNewRun(keys, k, remaining);
    }
  }

  /** What works on a folder: finding its start boundary, selecting it, and listing it. */
  datatype Access = Access(boundary: bool, selected: bool, listed: bool)

  /** What a poll learns from outside about each folder and each mail. */
  datatype Outside = Outside(historicalStart: Folder -> Option<nat>, access: Folder -> Access,
                             listing: Folder -> seq<(nat, int)>, answer: Key -> Answer)

  predicate DistinctFolders(folders: seq<Folder>) {
    forall i, j :: 0 <= i < j < |folders| ==> folders[i] != folders[j]
  }

  predicate Configured(folders: seq<Folder>, accounts: seq<string>) {
    && DistinctFolders(folders) && DistinctAccounts(accounts)
    && (forall i :: 0 <= i < |accounts| ==> accounts[i] != "")
    && forall f :: f in folders ==> f.account in accounts && f.name != ""
  }

  // ----------------------------------------------------------- discovery

  /** Above the boundary and not finished. */
  predicate Wanted(ctx: Context, uid: nat) {
    uid > Floor(ctx.checkpoint) && !Contains(ctx.ranges, uid)
  }

  /** The candidates of one folder, in the order of the listing. */
  function Candidates(f: Folder, generation: nat, ctx: Context, listed: seq<(nat, int)>, next: nat): seq<Candidate> {
    if listed == [] then []
    else
      var before := Candidates(f, generation, ctx, listed[..|listed| - 1], next);
      var (uid, received) := listed[|listed| - 1];
      if Wanted(ctx, uid)
      then before + [Candidate(Key(f.account, f.name, generation, uid), received, next + |before|)]
      else before
  }

  /** The mail is a candidate with this receive time. */
  predicate IsCandidate(candidates: seq<Candidate>, key: Key, received: int) {
    exists i :: 0 <= i < |candidates| && candidates[i].key == key && candidates[i].received == received
  }

  lemma CandidatesAppend(a: seq<Candidate>, b: seq<Candidate>, key: Key, received: int)
    ensures IsCandidate(a + b, key, received) <==> IsCandidate(a, key, received) || IsCandidate(b, key, received)
  {
    if IsCandidate(a, key, received) {
      var i :| 0 <= i < |a| && a[i].key == key && a[i].received == received;
      assert (a + b)[i] == a[i];
    }
    if IsCandidate(b, key, received) {
      var i :| 0 <= i < |b| && b[i].key == key && b[i].received == received;
      assert (a + b)[|a| + i] == b[i];
    }
  }

  /** The candidates of a folder are exactly its listed mail above the boundary and outside the finished ranges. */
  lemma {:induction false} CandidatesExactly(f: Folder, generation: nat, ctx: Context, listed: seq<(nat, int)>,
                                             next: nat,
                                             key: Key, received: int)
    ensures (
      IsCandidate(Candidates(f, generation, ctx, listed, next), key, received)
      <==> (&& FolderOf(key) == f && key.uidvalidity == generation && Wanted(ctx, key.uid)
            && (key.uid, received) in listed))
  {
    if listed != [] {
      var front := listed[..|listed| - 1];
      var (uid, time) := listed[|listed| - 1];
      CandidatesExactly(f, generation, ctx, front, next, key, received);
      assert listed == front + [(uid, time)];
      var before := Candidates(f, generation, ctx, front, next);
      var last := Candidate(Key(f.account, f.name, generation, uid), time, next + |before|);
      CandidatesAppend(before, [last], key, received);
      assert IsCandidate([last], key, received) <==> last.key == key && last.received == received by {
        assert [last][0] == last;
      }
      assert (key.uid, received) in listed <==> (key.uid, received) in front || (key.uid, received) == (uid, time);
    }
  }

  /** The server reports a generation, and everything works. */
  predicate Readable(server: map<Folder, nat>, f: Folder, access: Access) {
    f in server && server[f] >= 1 && access == Access(true, true, true)
  }

  /** The stored boundary is missing, or of another generation. */
  predicate NeedsBoundary(cp: Checkpoint, generation: nat) {
    cp.startUid.None? || (cp.uidvalidity.Some? && cp.uidvalidity.value != generation)
  }

  /** When a discovery opens the folder. A search for the boundary is needed only with a historical start. */
  predicate Opens(server: map<Folder, nat>, f: Folder, cp: Checkpoint, historicalStart: Option<nat>, access: Access) {
    && f in server && server[f] >= 1 && access.selected && access.listed
    && (access.boundary || historicalStart.None? || !NeedsBoundary(cp, server[f]))
  }

  /** What a discovery has to find: listed in an opened folder, of its generation, and wanted there. */
  predicate Listed(server: map<Folder, nat>, contexts: map<Folder, Context>, folders: seq<Folder>,
                   listing: Folder -> seq<(nat, int)>, key: Key, received: int) {
    var f := FolderOf(key);
    && f in folders && f in contexts && f in server && key.uidvalidity == server[f]
    && Wanted(contexts[f], key.uid) && (key.uid, received) in listing(f)
  }

  /** The folder was opened in the generation the server reports. */
  predicate OpenedIn(server: map<Folder, nat>, contexts: map<Folder, Context>, f: Folder) {
    f in contexts && f in server
    && (contexts[f].checkpoint.uidvalidity.None? || contexts[f].checkpoint.uidvalidity == Some(server[f]))
  }

  /** Every readable folder was opened, and the candidates are exactly the mail to be found. */
  ghost predicate FindsAll(server: map<Folder, nat>, contexts: map<Folder, Context>, folders: seq<Folder>,
                           outside: Outside, candidates: seq<Candidate>) {
    && (forall f :: f in folders && Readable(server, f, outside.access(f)) ==> f in contexts)
    && (forall f :: f in folders && f in contexts ==> OpenedIn(server, contexts, f))
    && forall key, received ::
         (IsCandidate(candidates, key, received)
          <==> Listed(server, contexts, folders, outside.listing, key, received))
  }

  /** Only the boundary and the finished ranges matter. */
  lemma {:induction false} SameWanted(f: Folder, generation: nat, a: Context, b: Context, listed: seq<(nat, int)>,
                                      next: nat)
    requires a.ranges == b.ranges && Floor(a.checkpoint) == Floor(b.checkpoint)
    ensures Candidates(f, generation, a, listed, next) == Candidates(f, generation, b, listed, next)
  {
    if listed != [] { SameWanted(f, generation, a, b, listed[..|listed| - 1], next); }
  }

  /** One folder more. */
  lemma FindsAllNext(server: map<Folder, nat>, a: map<Folder, Context>, b: map<Folder, Context>, folders: seq<Folder>,
                     f: Folder, outside: Outside, candidates: seq<Candidate>, found: seq<Candidate>)
    requires FindsAll(server, a, folders, outside, candidates) && SameContexts(a, b, f) && f !in folders
    requires Readable(server, f, outside.access(f)) ==> f in b
    requires if f in b
             then OpenedIn(server, b, f) && found == Candidates(f, server[f], b[f], outside.listing(f), |candidates|)
             else found == []
    ensures FindsAll(server, b, folders + [f], outside, candidates + found)
  {
    forall g | g in folders + [f] && Readable(server, g, outside.access(g)) ensures g in b {
      if g != f { assert g in folders && g in a; }
    }
    forall g | g in folders + [f] && g in b ensures OpenedIn(server, b, g) {
      if g != f { assert g in folders && OpenedIn(server, a, g); }
    }
    forall key, received
      ensures (IsCandidate(candidates + found, key, received)
               <==> Listed(server, b, folders + [f], outside.listing, key, received))
    {
      CandidatesAppend(candidates, found, key, received);
      assert FolderOf(key) in folders + [f] <==> FolderOf(key) in folders || FolderOf(key) == f;
      if f in b {
        CandidatesExactly(f, server[f], b[f], outside.listing(f), |candidates|, key, received);
      }
      assert IsCandidate(candidates, key, received) <==> Listed(server, a, folders, outside.listing, key, received);
    }
  }

  /** In a readable folder no listed mail above the boundary is overlooked, unless it was finished before. */
  lemma UnfinishedIsCandidate(s: State, folders: seq<Folder>, outside: Outside, candidates: seq<Candidate>,
                              key: Key, received: int)
    requires Inv(s) && FindsAll(s.server, s.contexts, folders, outside, candidates)
    requires var f := FolderOf(key);
      && f in folders && Readable(s.server, f, outside.access(f)) && key.uidvalidity == s.server[f]
      && (key.uid, received) in outside.listing(f)
      && key.uid > Floor(Stored(s, f)) && JobOf(key) !in s.finished
    ensures IsCandidate(candidates, key, received)
  {
    var f := FolderOf(key);
    assert OpenedIn(s.server, s.contexts, f);
    assert GoodCheckpoint(s, f, s.checkpoints[f]);
    assert Listed(s.server, s.contexts, folders, outside.listing, key, received);
  }

  // ------------------------------------------------------------ the budget

  /** A stored mail that has not ended, asks nothing and can be read. */
  predicate Open(r: MailRecord) {
    r.unfinished && !r.awaitingRelevance && r.readable
  }

  predicate Due(r: MailRecord) {
    Open(r) && r.accepted && !r.deferred
  }

  predicate Blocked(r: MailRecord) {
    Open(r) && !r.accepted
  }

  function DueKeys(records: seq<MailRecord>): seq<Key> {
    if records == [] then []
    else
      var last := records[|records| - 1];
      DueKeys(records[..|records| - 1]) + (if Due(last) then [last.key] else [])
  }

  function BlockedCount(records: seq<MailRecord>): nat {
    if records == [] then 0
    else BlockedCount(records[..|records| - 1]) + (if Blocked(records[|records| - 1]) then 1 else 0)
  }

  /** A durable answer is recorded: the mail is finished, and no queue still has it to do. */
  predicate Resumed(server: map<Folder, nat>, finished: set<Job>, runs: map<string, Run>, k: Key, answer: Answer) {
    Ends(server, k, answer) && !answer.result.failed ==>
      JobOf(k) in finished && (StatusAt(runs, k).Some? ==> TerminalStatus(StatusAt(runs, k).value))
  }

  lemma NothingResumes(s: State, k: Key, answer: Answer)
    requires !Ends(s.server, k, answer) || answer.result.failed
    ensures Resumes(s, s, k, answer)
  {
  }

  lemma ResumedNow(first: State, log: seq<Event>, s: State, t: State, k: Key, answer: Answer)
    requires Reached(first, log, s) && Resumes(s, t, k, answer)
    ensures Resumed(s.server, t.finished, t.runs, k, answer)
  {
    var e := EntryAt(s.runs, k);
    if e.Some? && e.value.terminal.Some? {
      ReachedInv(first, log, s);
      assert GoodRun(s, k.account, s.runs[k.account]);
      assert ValidEntry(e.value);
    }
  }

  lemma StillResumed(server: map<Folder, nat>, earlier: set<Job>, later: set<Job>, a: map<string, Run>,
                     b: map<string, Run>, keys: seq<Key>, answers: Key -> Answer)
    requires forall k :: k in keys ==> Resumed(server, earlier, a, k, answers(k))
    requires earlier <= later && OnlyEnds(a, b)
    ensures forall k :: k in keys ==> Resumed(server, later, b, k, answers(k))
  {
    forall k | k in keys ensures Resumed(server, later, b, k, answers(k)) {
      assert Resumed(server, earlier, a, k, answers(k));
      assert StatusAt(b, k) == StatusAt(a, k) || (StatusAt(b, k).Some? && TerminalStatus(StatusAt(b, k).value));
    }
  }

  /** What `resume_pending` leaves of the two budgets. */
  function AfterResume(records: seq<MailRecord>, remaining: Option<nat>, blocked: nat): (Option<nat>, nat)
    decreases |records|
  {
    if records == [] || remaining == Some(0) then (remaining, blocked)
    else
      var r := records[0];
      if !r.unfinished || r.awaitingRelevance || !r.readable then AfterResume(records[1..], remaining, blocked)
      else if !r.accepted then
        if blocked == 0 then (remaining, blocked) else AfterResume(records[1..], remaining, blocked - 1)
      else if r.deferred then AfterResume(records[1..], remaining, blocked)
      else AfterResume(records[1..], if remaining.Some? then Some(remaining.value - 1) else None, blocked)
  }

  /** What is due, what is blocked and what remains, one record on. */
  lemma ScannedNext(records: seq<MailRecord>, i: nat, remaining: Option<nat>, blocked: nat)
    requires i < |records| && remaining != Some(0)
    ensures var r := records[i];
      && DueKeys(records[..i + 1]) == DueKeys(records[..i]) + (if Due(r) then [r.key] else [])
      && BlockedCount(records[..i + 1]) == BlockedCount(records[..i]) + (if Blocked(r) then 1 else 0)
      && AfterResume(records[i..], remaining, blocked)
         == if Blocked(r) then (if blocked == 0 then (remaining, blocked)
                                else AfterResume(records[i + 1..], remaining, blocked - 1))
            else AfterResume(records[i + 1..], if Due(r) && remaining.Some? then Some(remaining.value - 1)
                                               else remaining, blocked)
  {
    assert records[i..][0] == records[i] && records[i..][1..] == records[i + 1..];
    assert records[..i + 1][..i] == records[..i];
  }

  /** Up to `i` the due mails were resumed and the blocked ones counted, each for one unit of its budget. */
  ghost predicate Scanned(records: seq<MailRecord>, i: nat, resumed: seq<Key>, remaining: Option<nat>, blocked: nat,
                          left: Option<nat>, blockedLeft: nat) {
    && i <= |records| && resumed == DueKeys(records[..i])
    && AfterResume(records[i..], left, blockedLeft) == AfterResume(records, remaining, blocked)
    && (left.Some? <==> remaining.Some?) && (left.Some? ==> left.value + |resumed| == remaining.value)
    && blockedLeft + BlockedCount(records[..i]) == blocked
  }

  lemma ScannedOn(records: seq<MailRecord>, i: nat, resumed: seq<Key>, remaining: Option<nat>, blocked: nat,
                  left: Option<nat>, blockedLeft: nat)
    requires Scanned(records, i, resumed, remaining, blocked, left, blockedLeft) && i < |records| && left != Some(0)
    ensures var r := records[i];
      if Due(r) then Scanned(records, i + 1, resumed + [r.key], remaining, blocked, Less(left), blockedLeft)
      else if !Blocked(r) then Scanned(records, i + 1, resumed, remaining, blocked, left, blockedLeft)
      else if blockedLeft > 0 then Scanned(records, i + 1, resumed, remaining, blocked, left, blockedLeft - 1)
      else AfterResume(records, remaining, blocked) == (left, blockedLeft)
  {
    ScannedNext(records, i, left, blockedLeft);
  }

  /** The resumed mail takes the whole limit of the poll. */
  predicate Spent(records: seq<MailRecord>, maxMails: Option<nat>) {
    maxMails.Some? && AfterResume(records, maxMails, maxMails.value).0 == Some(0)
  }

  /** How much a new batch may hold. */
  function Limit(remaining: Option<nat>, batchSize: nat): nat {
    if remaining.Some? then remaining.value else batchSize
  }

  /** Positions keep their status or end. */
  ghost predicate OnlyEnds(a: map<string, Run>, b: map<string, Run>) {
    forall k {:trigger StatusAt(b, k)} ::
      StatusAt(b, k) == StatusAt(a, k) || (StatusAt(b, k).Some? && TerminalStatus(StatusAt(b, k).value))
  }

  lemma OnlyEndsTransitive(a: map<string, Run>, b: map<string, Run>, c: map<string, Run>)
    requires OnlyEnds(a, b) && OnlyEnds(b, c)
    ensures OnlyEnds(a, c)
  {
    forall k ensures (StatusAt(c, k) == StatusAt(a, k)
                      || (StatusAt(c, k).Some? && TerminalStatus(StatusAt(c, k).value))) {
      assert StatusAt(c, k) == StatusAt(b, k) || (StatusAt(c, k).Some? && TerminalStatus(StatusAt(c, k).value));
      assert StatusAt(b, k) == StatusAt(a, k) || (StatusAt(b, k).Some? && TerminalStatus(StatusAt(b, k).value));
    }
  }

  /** No queue has runnable mail that does not wait. */
  ghost predicate Idle(runs: map<string, Run>, waiting: set<Key>) {
    forall k {:trigger StatusAt(runs, k)} ::
      StatusAt(runs, k).Some? && Runnable(StatusAt(runs, k).value) ==> k in waiting
  }

  lemma IdleStays(a: map<string, Run>, b: map<string, Run>, waiting: set<Key>)
    requires Idle(a, waiting) && OnlyEnds(a, b)
    ensures Idle(b, waiting)
  {
    forall k | StatusAt(b, k).Some? && Runnable(StatusAt(b, k).value) ensures k in waiting {
      assert StatusAt(b, k) == StatusAt(a, k);
    }
  }

  lemma {:induction false} IdleHasNoActive(first: State, log: seq<Event>, s: State, accounts: seq<string>,
                                           waiting: set<Key>)
    requires Reached(first, log, s) && Idle(s.runs, waiting)
    ensures ActiveKeys(s.runs, accounts, waiting) == []
  {
    if accounts != [] {
      IdleHasNoActive(first, log, s, accounts[1..], waiting);
      if accounts[0] in s.runs {
        var entries := s.runs[accounts[0]].entries;
        ReachedInv(first, log, s);
        assert GoodRun(s, accounts[0], s.runs[accounts[0]]);
        forall i | 0 <= i < |entries| && Runnable(entries[i].status) ensures entries[i].key in waiting {
          PositionUnique(entries, entries[i].key, i);
          assert StatusAt(s.runs, entries[i].key) == Some(entries[i].status);
        }
      }
    }
  }

  /** Every index is below the next one to be given. */
  predicate Indexed(s: seq<Candidate>) {
    forall i :: 0 <= i < |s| ==> s[i].index == i
  }

  lemma FoundStays(s: State, t: State, f: Folder, candidates: seq<Candidate>)
    requires SameContexts(s.contexts, t.contexts, f) && s.server == t.server
    requires forall c :: c in candidates ==> FolderOf(c.key) != f && Found(s, FolderOf(c.key), c.key)
    ensures forall c :: c in candidates ==> Found(t, FolderOf(c.key), c.key)
  {
    forall c | c in candidates ensures Found(t, FolderOf(c.key), c.key) {
      assert Found(s, FolderOf(c.key), c.key);
    }
  }

  /** What a discovery has found in the folders done so far; nothing if it only reopens them. */
  ghost predicate DiscoveredSoFar(s: State, done: seq<Folder>, none: bool, outside: Outside,
                                  candidates: seq<Candidate>) {
    && (forall g :: g in s.contexts ==> g in done) && Indexed(candidates)
    && (if none then candidates == [] else FindsAll(s.server, s.contexts, done, outside, candidates))
    && forall c :: c in candidates ==> FolderOf(c.key) in done && Found(s, FolderOf(c.key), c.key)
  }

  lemma DiscoveredNext(s: State, t: State, done: seq<Folder>, f: Folder, none: bool, outside: Outside,
                       candidates: seq<Candidate>, found: seq<Candidate>)
    requires DiscoveredSoFar(s, done, none, outside, candidates) && f !in done
    requires SameContexts(s.contexts, t.contexts, f) && s.server == t.server
    requires forall i :: 0 <= i < |found| ==> found[i].index == |candidates| + i && Found(t, f, found[i].key)
    requires none ==> found == []
    requires !none && Readable(t.server, f, outside.access(f)) ==> f in t.contexts
    requires !none ==>
      if f in t.contexts
      then OpenedIn(t.server, t.contexts, f)
           && found == Candidates(f, t.server[f], t.contexts[f], outside.listing(f), |candidates|)
      else found == []
    ensures DiscoveredSoFar(t, done + [f], none, outside, candidates + found)
  {
    FoundStays(s, t, f, candidates);
    if !none {
      FindsAllNext(t.server, s.contexts, t.contexts, done, f, outside, candidates, found);
    }
    forall c | c in candidates + found ensures FolderOf(c.key) in done + [f] && Found(t, FolderOf(c.key), c.key) {
      if c in found {
        var i :| 0 <= i < |found| && found[i] == c;
      }
    }
  }

  function KeysOf(entries: seq<Entry>): seq<Key> {
    if entries == [] then [] else [entries[0].key] + KeysOf(entries[1..])
  }

  predicate Unfinished(run: Run, waiting: set<Key>) {
    exists i :: 0 <= i < |run.entries| && run.entries[i].key !in waiting && Runnable(run.entries[i].status)
  }

  /** The positions of every stored queue that still has runnable mail. */
  function ActiveKeys(runs: map<string, Run>, accounts: seq<string>, waiting: set<Key>): seq<Key> {
    if accounts == [] then []
    else (if accounts[0] in runs && Unfinished(runs[accounts[0]], waiting)
          then KeysOf(runs[accounts[0]].entries) else [])
         + ActiveKeys(runs, accounts[1..], waiting)
  }

  lemma {:induction false} KeysAreEntries(entries: seq<Entry>, k: Key)
    requires k in KeysOf(entries)
    ensures Position(entries, k) < |entries|
  {
    if entries[0].key != k { KeysAreEntries(entries[1..], k); }
  }

  lemma {:induction false} EntriesAreKeys(entries: seq<Entry>, k: Key)
    requires Position(entries, k) < |entries|
    ensures k in KeysOf(entries)
  {
    if entries[0].key != k { EntriesAreKeys(entries[1..], k); }
  }

  /** A poll continues exactly the queues, whole, that still have runnable mail. */
  lemma {:induction false} ActiveExactly(first: State, log: seq<Event>, s: State, accounts: seq<string>,
                                         waiting: set<Key>, k: Key)
    requires Reached(first, log, s)
    ensures k in ActiveKeys(s.runs, accounts, waiting) <==>
      k.account in accounts && EntryAt(s.runs, k).Some? && Unfinished(s.runs[k.account], waiting)
  {
    if accounts != [] {
      ActiveExactly(first, log, s, accounts[1..], waiting, k);
      if accounts[0] in s.runs {
        var entries := s.runs[accounts[0]].entries;
        if k in KeysOf(entries) {
          KeysAreEntries(entries, k);
          OwnAccount(first, log, s, accounts[0], k);
        }
        if accounts[0] == k.account && EntryAt(s.runs, k).Some? { EntriesAreKeys(entries, k); }
      }
    }
  }

  lemma {:induction false} ActiveInRuns(first: State, log: seq<Event>, s: State, accounts: seq<string>,
                                        waiting: set<Key>)
    requires Reached(first, log, s)
    ensures forall k :: k in ActiveKeys(s.runs, accounts, waiting) ==> InRuns(s.runs, JobOf(k))
  {
    if accounts != [] {
      ActiveInRuns(first, log, s, accounts[1..], waiting);
      if accounts[0] in s.runs {
        forall k | k in KeysOf(s.runs[accounts[0]].entries) ensures InRuns(s.runs, JobOf(k)) {
          KeysAreEntries(s.runs[accounts[0]].entries, k);
          OwnAccount(first, log, s, accounts[0], k);
        }
      }
    }
  }

  lemma OwnAccount(first: State, log: seq<Event>, s: State, account: string, k: Key)
    requires Reached(first, log, s) && account in s.runs
    requires Position(s.runs[account].entries, k) < |s.runs[account].entries|
    ensures k.account == account
  {
    ReachedInv(first, log, s);
    assert GoodRun(s, account, s.runs[account]);
  }
}
