/**
 `MailboxRunService`: every durable save of the poll, in the order of the code.
 The ghost log records the saves as events of the machine in module Checkpoints,
 so each method is a run of that machine, and so is every prefix of it: the
 process may die between any two saves (src/mailhelp/mailbox/mailbox_run.py).
 */
module MailboxRun {
  import opened PyText
  import opened UidRanges
  import opened RunQueue
  import opened Checkpoints
  import opened BatchSelection
  import opened PollEvents

  const BLOCKED_STATE_SCAN_LIMIT: nat := 1000

  class MailBudget {
    var remaining: Option<nat>
    var blockedRemaining: nat

    constructor (maxMails: Option<nat>)
      ensures remaining == maxMails
      ensures blockedRemaining == if maxMails.Some? then maxMails.value else 1000
    {
      remaining := maxMails;
      blockedRemaining := if maxMails.Some? then maxMails.value else BLOCKED_STATE_SCAN_LIMIT;
    }

    predicate Exhausted()
      reads this
    {
      remaining == Some(0)
    }

    method Take()
      requires !Exhausted()
      modifies this`remaining
      ensures remaining == if old(remaining).Some? then Some(old(remaining).value - 1) else None
    {
      if remaining.Some? {
        remaining := Some(remaining.value - 1);
      }
    }

    method TakeBlocked()
      requires blockedRemaining > 0
      modifies this`blockedRemaining
      ensures blockedRemaining == old(blockedRemaining) - 1
    {
      blockedRemaining := blockedRemaining - 1;
    }
  }

  class MailboxRunService {
    var server: map<Folder, nat>            // outside world
    var checkpoints: map<Folder, Checkpoint>
    var runs: map<string, Run>
    var contexts: map<Folder, Context>
    var halted: bool
    var processCalls: nat                   // how often `process_mail` was called
    ghost var job: Option<Job>
    ghost var finished: set<Job>
    ghost var first: State
    ghost var log: seq<Event>

    ghost function Now(): State
      reads this
    {
      State(server, checkpoints, runs, contexts, job, finished)
    }

    ghost predicate Valid()
      reads this
    {
      Reached(first, log, Now())
    }

    constructor (server: map<Folder, nat>)
      ensures Valid() && log == [] && first == State(server, map[], map[], map[], None, {})
      ensures processCalls == 0 && !halted && contexts == map[] && runs == map[] && job.None?
    {
      this.server := server;
      checkpoints, runs, contexts := map[], map[], map[];
      halted, processCalls := false, 0;
      job, finished := None, {};
      first := State(server, map[], map[], map[], None, {});
      log := [];
    }

    /** The save described by `e` has just been made. */
    ghost method Record(before: State, e: Event)
      requires Reached(first, log, before)
      requires Enabled(before, e) && Now() == Apply(before, e)
      modifies this`log
      ensures Valid() && log == old(log) + [e]
    {
      ReachedNext(first, log, before, e);
      log := log + [e];
    }

    method SaveRun(account: string, run: Run, ghost e: Event)
      requires Valid() && Enabled(Now(), e) && Apply(Now(), e) == Now().(runs := runs[account := run])
      modifies this`runs, this`log
      ensures Valid() && log == old(log) + [e] && runs == old(runs)[account := run]
    {
      ghost var before := Now();
      runs := runs[account := run];
      Record(before, e);
    }

    /** The loaded run with one entry changed and its counters computed again is saved. */
    method ChangeEntry(key: Key, entry: Entry, ghost change: Change)
      requires Valid() && InQueue(Now(), JobOf(key)) && change.key == key
      requires Applies(runs[key.account], change)
      requires entry == ChangedEntry(EntryOf(Now(), key), change)
      modifies this`runs, this`log
      ensures Valid() && log == old(log) + [ChangeRun(key.account, change)]
      ensures Now() == Apply(old(Now()), ChangeRun(key.account, change))
      ensures runs == old(runs)[key.account := Changed(old(runs)[key.account], change)]
    {
      var run := runs[key.account];
      var i := Position(run.entries, key);
      var entries := run.entries[i := entry];
      var counters := RunCounters(entries);
      SaveRun(key.account, run.(entries := entries, counters := counters), ChangeRun(key.account, change));
    }

    /** The server starts a new generation of a folder; it may do so at any time. */
    method RestartServer(f: Folder, generation: nat)
      requires Valid() && generation > Server(Now(), f)
      modifies this`server, this`log
      ensures Valid() && log == old(log) + [NewGeneration(f, generation)]
      ensures Now() == old(Now()).(server := old(server)[f := generation])
    {
      ghost var before := Now();
      server := server[f := generation];
      Record(before, NewGeneration(f, generation));
    }

    /** `_start_checkpoint`: the boundary of a folder is fixed on first use. */
    method StartCheckpoint(f: Folder, historicalStart: Option<nat>) returns (ctx: Context)
      requires Valid() && job.None?
      requires historicalStart.Some? && Stored(Now(), f).startUid.None? ==> Server(Now(), f) >= 1
      modifies this`checkpoints, this`log
      ensures Valid() && f in checkpoints && checkpoints[f].startUid.Some? && ctx == Loaded(checkpoints[f])
      ensures Stored(old(Now()), f).startUid.None? ==>
        checkpoints[f].startUid
        == Some(if historicalStart.Some? then historicalStart.value else Stored(old(Now()), f).uid)
      ensures checkpoints[f] == if Stored(old(Now()), f).startUid.Some? then Stored(old(Now()), f)
                                else WithStart(Stored(old(Now()), f), historicalStart, Server(old(Now()), f))
      ensures if Stored(old(Now()), f).startUid.Some? then checkpoints == old(checkpoints) && log == old(log)
              else log == old(log) + [FixStart(f, historicalStart)]
    {
      var checkpoint := if f in checkpoints then checkpoints[f] else EMPTY;
      if checkpoint.startUid.None? {
        ghost var before := Now();
        if historicalStart.Some? {
          var reported := if f in server then server[f] else 0;
          checkpoint := Checkpoint(Some(reported), historicalStart.value, historicalStart, []);
        } else {
          checkpoint := Checkpoint(checkpoint.uidvalidity, checkpoint.uid, Some(checkpoint.uid), []);
        }
        checkpoints := checkpoints[f := checkpoint];
        Record(before, FixStart(f, historicalStart));
      }
      ctx := Loaded(checkpoint);
    }

    /** `_complete_uid` on the context of the poll or on a freshly loaded checkpoint. */
    method CompleteUid(f: Folder, ctx: Context, uid: nat, generation: nat) returns (after: Context)
      requires Ordered(ctx.ranges, Floor(ctx.checkpoint), 1)
      modifies this`checkpoints
      ensures after.checkpoint == CompletedUid(ctx, uid, generation)
      ensures uid <= Floor(ctx.checkpoint) ==> checkpoints == old(checkpoints) && after == ctx
      ensures uid > Floor(ctx.checkpoint) ==>
        checkpoints == old(checkpoints)[f := after.checkpoint] && after.ranges == after.checkpoint.ranges
        && ValidRanges(after.checkpoint)
    {
      if uid <= Floor(ctx.checkpoint) {
        return ctx;
      }
      var ranges := AddUid(ctx.ranges, uid);
      var checkpoint := ctx.checkpoint.(uid := Max(ctx.checkpoint.uid, uid) as nat,
                                        uidvalidity := Some(generation), ranges := ranges);
      AddedIsExact(ctx.ranges, uid, Floor(ctx.checkpoint), 1);
      GapOneIsOrdered(ranges, Floor(ctx.checkpoint), 1);
      checkpoints := checkpoints[f := checkpoint];
      after := Context(checkpoint, ranges);
    }

    /** What the stored model validates on every save. */
    static predicate ValidRanges(cp: Checkpoint) {
      Ordered(cp.ranges, Floor(cp), 0)
    }

    /** The mail was processed; a durable result is completed in this generation. */
    ghost method Finish(j: Job)
      requires Valid() && Enabled(Now(), Processed(j))
      modifies this`job, this`finished, this`log
      ensures Valid() && log == old(log) + [Processed(j)] && job == Some(j) && finished == old(finished) + {j}
    {
      ghost var before := Now();
      job, finished := Some(j), finished + {j};
      Record(before, Processed(j));
    }

    /** The poll ends early; its memory is gone. */
    method EndPoll()
      requires Valid()
      modifies this`contexts, this`job, this`log
      ensures Valid() && log == old(log) + [Forget] && job.None? && contexts == map[]
    {
      ghost var before := Now();
      contexts := map[];
      job := None;
      Record(before, Forget);
    }

    /** A mail of the poll: the context in memory goes on. */
    method CompletePolled(key: Key)
      requires Valid() && job == Some(JobOf(key)) && Enabled(Now(), Complete(true))
      modifies this`checkpoints, this`contexts, this`job, this`log
      ensures Valid() && log == old(log) + [Complete(true)] && job.None?
      ensures CompletesHere(old(Now()), Now(), key)
    {
      ghost var before := Now();
      var f := FolderOf(key);
      CompleteEffect(first, log, before, true);
      CompletionIsExact(first, log, before, true);
      var after := CompleteUid(f, contexts[f], key.uid, key.uidvalidity);
      contexts := contexts[f := after];
      job := None;
      Record(before, Complete(true));
    }

    /** A resumed mail: a checkpoint of another generation is left alone. */
    method CompleteLoaded(key: Key)
      requires Valid() && job == Some(JobOf(key)) && Enabled(Now(), Complete(false))
      modifies this`checkpoints, this`job, this`log
      ensures Valid() && log == old(log) + [Complete(false)] && job.None?
      ensures Completes(old(checkpoints), checkpoints, key)
    {
      ghost var before := Now();
      var f := FolderOf(key);
      CompleteEffect(first, log, before, false);
      CompletionIsExact(first, log, before, false);
      var checkpoint := if f in checkpoints then checkpoints[f] else EMPTY;
      if checkpoint.uidvalidity.None? || checkpoint.uidvalidity == Some(key.uidvalidity) {
        var _ := CompleteUid(f, Loaded(checkpoint), key.uid, key.uidvalidity);
      }
      job := None;
      Record(before, Complete(false));
    }

    /** One entry of a stored run changes; every queue keeps its identities. */
    method UpdateEntry(key: Key, entry: Entry, ghost change: Change)
      requires Valid() && InQueue(Now(), JobOf(key)) && change.key == key
      requires Applies(runs[key.account], change)
      requires entry == ChangedEntry(EntryOf(Now(), key), change)
      modifies this`runs, this`log
      ensures Valid() && log == old(log) + [ChangeRun(key.account, change)]
      ensures SameKeys(old(runs), runs) && OthersKeep(old(runs), runs, key)
      ensures StatusAt(runs, key) == Some(entry.status) && EntryAt(runs, key) == Some(entry)
    {
      QueueKept(first, log, Now(), change);
      ChangeSeen(runs, change);
      ChangeEntry(key, entry, change);
    }

    /** `_finish_entry`. */
    method FinishEntry(key: Key, result: Result)
      requires Valid() && InQueue(Now(), JobOf(key))
      modifies this`runs, this`log
      ensures Valid() && log == old(log) + [ChangeRun(key.account, Change.Finish(key, result))]
      ensures SameKeys(old(runs), runs) && OthersKeep(old(runs), runs, key)
      ensures EntryAt(runs, key).Some? && Tells(EntryAt(runs, key).value, result)
    {
      var current := runs[key.account].entries[Position(runs[key.account].entries, key)];
      UpdateEntry(key, Finished(current, result), Change.Finish(key, result));
    }

    /** `_finish_entry` and the checkpoint behind it, for a result that does not wait. */
    method Settle(key: Key, result: Result) returns (raised: bool)
      requires Valid() && InQueue(Now(), JobOf(key)) && job.None? && !result.awaitingRelevance
      requires Server(Now(), FolderOf(key)) == key.uidvalidity
      modifies this`runs, this`checkpoints, this`contexts, this`job, this`finished, this`log
      ensures Valid() && log == old(log) + SettleEvents(key, FolderOf(key) in old(contexts), result)
      ensures job.None? && SameKeys(old(runs), runs) && OthersKeep(old(runs), runs, key)
      ensures Outcome(old(Now()), Now(), key, Mail(result))
      ensures raised <==> !result.failed && FolderOf(key) !in old(contexts)
    {
      QueuedIsValid(first, log, Now(), key);
      if result.failed {
        FinishEntry(key, result);
        return false;
      }
      ghost var before := Now();
      Finish(JobOf(key));
      FinishEntry(key, result);
      assert InRuns(runs, JobOf(key));
      ghost var told := Now();
      raised := CompleteHere(key);
      SettledIs(before, told, Now(), key, result);
    }

    /** The UID is completed in the poll's own context; without one the lookup raises and the poll ends. */
    method CompleteHere(key: Key) returns (raised: bool)
      requires Valid() && job == Some(JobOf(key)) && InQueue(Now(), JobOf(key))
      modifies this`checkpoints, this`contexts, this`job, this`log
      ensures Valid() && log == old(log) + [if FolderOf(key) in old(contexts) then Complete(true) else Forget]
      ensures job.None? && raised == (FolderOf(key) !in old(contexts))
      ensures raised ==> checkpoints == old(checkpoints)
      ensures !raised ==> CompletesHere(old(Now()), Now(), key)
    {
      raised := FolderOf(key) !in contexts;
      if raised {
        EndPoll();
      } else {
        CompletePolled(key);
      }
    }

    /** The entry is `processing` before anything is fetched. */
    method StartEntry(key: Key)
      requires Valid() && InQueue(Now(), JobOf(key)) && Runnable(EntryOf(Now(), key).status)
      modifies this`runs, this`log
      ensures Valid() && log == old(log) + [ChangeRun(key.account, Start(key))]
      ensures SameKeys(old(runs), runs) && OthersKeep(old(runs), runs, key)
      ensures EntryAt(runs, key).Some? && EntryAt(runs, key).value.status.Processing?
    {
      var current := runs[key.account].entries[Position(runs[key.account].entries, key)];
      UpdateEntry(key, Started(current), Start(key));
    }

    /** The mail is fetched and processed; `more` is false when the batch halts or an exception leaves the poll. */
    method Attempt(key: Key, answer: Answer) returns (more: bool)
      requires Valid() && InQueue(Now(), JobOf(key)) && job.None?
      requires EntryAt(runs, key).Some? && EntryAt(runs, key).value.status.Processing?
      modifies this`runs, this`checkpoints, this`contexts, this`job, this`finished, this`log
      modifies this`halted, this`processCalls
      ensures Valid() && log == old(log) + AnswerEvents(key, Server(old(Now()), FolderOf(key)) == key.uidvalidity,
                                                        FolderOf(key) in old(contexts), answer)
      ensures job.None? && SameKeys(old(runs), runs) && OthersKeep(old(runs), runs, key)
      ensures Outcome(old(Now()), Now(), key, answer)
      ensures old(processCalls) <= processCalls <= old(processCalls) + 1
      ensures halted <==> old(halted) || Breaks(server, key, answer)
      ensures more <==> GoesOn(server, old(contexts), key, answer)
    {
      QueuedIsValid(first, log, Now(), key);
      if !Ends(server, key, answer) {
        NothingEnds(Now(), key, answer);
        more := Fetch(key, answer);
        return;
      }
      processCalls := processCalls + 1;
      var raised := Settle(key, answer.result);
      return !raised;
    }

    /** An attempt that saves nothing: an exception, another generation, or a question of relevance. */
    method Fetch(key: Key, answer: Answer) returns (more: bool)
      requires !Ends(server, key, answer) && key.uidvalidity >= 1
      modifies this`halted, this`processCalls
      ensures old(processCalls) <= processCalls <= old(processCalls) + 1
      ensures halted <==> old(halted) || Breaks(server, key, answer)
      ensures more <==> GoesOn(server, contexts, key, answer)
    {
      if !answer.Mail? {
        processCalls := processCalls + (if answer.called then 1 else 0);
        halted := halted || answer.Broken?;
        return false;
      }
      if (if FolderOf(key) in server then server[FolderOf(key)] else 0) != key.uidvalidity {
        halted := true;
        return false;
      }
      processCalls := processCalls + 1;
      more := true;
    }

    /** `_process_queued`. */
    method ProcessQueued(key: Key, waiting: set<Key>, budget: MailBudget, answer: Answer) returns (more: bool)
      requires Valid() && InQueue(Now(), JobOf(key)) && job.None? && !budget.Exhausted()
      modifies this`runs, this`checkpoints, this`contexts, this`job, this`finished, this`log
      modifies this`halted, this`processCalls, budget`remaining
      ensures Valid() && log == old(log) + QueuedEvents(old(Now()), key, waiting, answer)
      ensures job.None? && SameKeys(old(runs), runs) && OthersKeep(old(runs), runs, key)
      ensures if old(Goes(runs, waiting, key)) then Outcome(old(Now()), Now(), key, answer) else Now() == old(Now())
      ensures budget.remaining
              == if old(Goes(runs, waiting, key)) then Less(old(budget.remaining)) else old(budget.remaining)
      ensures old(processCalls) <= processCalls <= old(processCalls) + (if old(Goes(runs, waiting, key)) then 1 else 0)
      ensures halted <==> old(halted) || (old(Goes(runs, waiting, key)) && Breaks(server, key, answer))
      ensures more <==> !old(Goes(runs, waiting, key)) || GoesOn(server, old(contexts), key, answer)
    {
      if key in waiting || !Runnable(runs[key.account].entries[Position(runs[key.account].entries, key)].status) {
        return true;
      }
      StartEntry(key);
      assert InRuns(runs, JobOf(key));
      ghost var started := Now();
      budget.Take();
      more := Attempt(key, answer);
      OutcomeFromStart(old(Now()), started, Now(), key, answer);
      OthersKeepTransitive(old(runs), started.runs, runs, key);
    }

    // -------------------------------------------------------- resumed mail

    /** `complete_resumed_entry`: the queue entry first, then the checkpoint of its generation. */
    method CompleteResumed(key: Key, result: Result)
      requires Valid() && job == Some(JobOf(key)) && contexts == map[] && Durable(result)
      modifies this`runs, this`checkpoints, this`job, this`log
      ensures Valid() && log == old(log) + CompletionEvents(old(Now()), key, result)
      ensures job.None? && SameKeys(old(runs), runs) && OnlyEnds(old(runs), runs)
      ensures var e := old(EntryAt(runs, key));
        if e.Some? && e.value.terminal.None?
        then EntryAt(runs, key).Some? && Tells(EntryAt(runs, key).value, result)
             && Completes(old(checkpoints), checkpoints, key)
        else runs == old(runs) && checkpoints == old(checkpoints)
    {
      var queued := key.account in runs
                    && Position(runs[key.account].entries, key) < |runs[key.account].entries|;
      if !queued || runs[key.account].entries[Position(runs[key.account].entries, key)].terminal.Some? {
        ghost var before := Now();
        job := None;
        assert contexts == map[];
        Record(before, Forget);
        return;
      }
      ResumeEntry(key, result);
      assert InRuns(runs, JobOf(key));
      CompleteLoaded(key);
    }

    method ResumeEntry(key: Key, result: Result)
      requires Valid() && InQueue(Now(), JobOf(key)) && EntryOf(Now(), key).terminal.None? && Durable(result)
      modifies this`runs, this`log
      ensures Valid() && log == old(log) + [ChangeRun(key.account, Change.Resume(key, result))]
      ensures SameKeys(old(runs), runs) && OnlyEnds(old(runs), runs)
      ensures EntryAt(runs, key).Some? && Tells(EntryAt(runs, key).value, result)
    {
      var current := runs[key.account].entries[Position(runs[key.account].entries, key)];
      UpdateEntry(key, Finished(current, result), Change.Resume(key, result));
    }

    /** The mail is fetched and processed; only a durable result goes on. */
    method FetchResumed(key: Key, answer: Answer) returns (durable: bool)
      requires key.uidvalidity >= 1
      modifies this`processCalls
      ensures old(processCalls) <= processCalls <= old(processCalls) + 1
      ensures durable <==> Ends(server, key, answer) && !answer.result.failed
    {
      if !answer.Mail? {
        processCalls := processCalls + (if answer.called then 1 else 0);
        return false;
      }
      if (if FolderOf(key) in server then server[FolderOf(key)] else 0) != key.uidvalidity {
        return false;
      }
      processCalls := processCalls + 1;
      durable := !answer.result.failed && !answer.result.awaitingRelevance;
    }

    /** One due mail of `resume_pending`: an exception is reported and leaves everything as it is. */
    method Resume(key: Key, answer: Answer)
      requires Valid() && job.None? && contexts == map[] && key.uidvalidity >= 1
      modifies this`runs, this`checkpoints, this`job, this`finished, this`log, this`processCalls
      ensures Valid() && log == old(log) + ResumedEvents(old(Now()), key, answer)
      ensures job.None? && SameKeys(old(runs), runs) && OnlyEnds(old(runs), runs)
      ensures Resumes(old(Now()), Now(), key, answer)
      ensures old(processCalls) <= processCalls <= old(processCalls) + 1
    {
      var durable := FetchResumed(key, answer);
      if !durable {
        NothingResumes(Now(), key, answer);
        return;
      }
      Finish(JobOf(key));
      CompleteResumed(key, answer.result);
    }

    /** The next due mail; what was resumed before stays so. */
    method ResumeDue(key: Key, answers: Key -> Answer, budget: MailBudget, ghost resumed: seq<Key>,
                     ghost start: map<string, Run>)
      requires Valid() && job.None? && contexts == map[] && key.uidvalidity >= 1 && !budget.Exhausted()
      requires SameKeys(start, runs) && OnlyEnds(start, runs)
      requires forall k :: k in resumed ==> Resumed(server, finished, runs, k, answers(k))
      modifies this`runs, this`checkpoints, this`job, this`finished, this`log, this`processCalls, budget`remaining
      ensures Valid() && old(log) <= log && job.None? && SameKeys(start, runs) && OnlyEnds(start, runs)
      ensures forall k :: k in resumed + [key] ==> Resumed(server, finished, runs, k, answers(k))
      ensures old(processCalls) <= processCalls <= old(processCalls) + 1
      ensures budget.remaining == Less(old(budget.remaining))
    {
      budget.Take();
      ghost var before, earlier := Now(), log;
      Resume(key, answers(key));
      ResumedNow(first, earlier, before, Now(), key, answers(key));
      StillResumed(server, before.finished, finished, before.runs, runs, resumed, answers);
      SameKeysTransitive(start, before.runs, runs);
      OnlyEndsTransitive(start, before.runs, runs);
    }

    /** `resume_pending` over the stored mail states. */
    method ResumePending(records: seq<MailRecord>, answers: Key -> Answer, budget: MailBudget)
      returns (ghost scanned: nat, ghost resumed: seq<Key>)
      requires Valid() && job.None? && contexts == map[]
      requires forall r :: r in records ==> r.key.uidvalidity >= 1
      modifies this`runs, this`checkpoints, this`job, this`finished, this`log, this`processCalls
      modifies budget
      ensures Valid() && old(log) <= log && job.None? && SameKeys(old(runs), runs) && OnlyEnds(old(runs), runs)
      ensures Charged(old(budget.remaining), budget.remaining, processCalls - old(processCalls))
      ensures (budget.remaining, budget.blockedRemaining)
              == AfterResume(records, old(budget.remaining), old(budget.blockedRemaining))
      ensures scanned <= |records| && resumed == DueKeys(records[..scanned])
      ensures budget.remaining.Some? ==> budget.remaining.value + |resumed| == old(budget.remaining).value
      ensures budget.blockedRemaining + BlockedCount(records[..scanned]) == old(budget.blockedRemaining)
      ensures scanned < |records| ==>
        budget.Exhausted() || (budget.blockedRemaining == 0 && Blocked(records[scanned]))
      ensures forall k :: k in resumed ==> Resumed(server, finished, runs, k, answers(k))
    {
      ghost var remaining, blocked := budget.remaining, budget.blockedRemaining;
      resumed, scanned := [], 0;
      assert records[0..] == records;
      var i := 0;
      while i < |records| && !budget.Exhausted()
        invariant 0 <= i <= |records| && scanned == i
        invariant Valid() && old(log) <= log && job.None? && SameKeys(old(runs), runs) && OnlyEnds(old(runs), runs)
        invariant Charged(remaining, budget.remaining, processCalls - old(processCalls))
        invariant Scanned(records, i, resumed, remaining, blocked, budget.remaining, budget.blockedRemaining)
        invariant forall k :: k in resumed ==> Resumed(server, finished, runs, k, answers(k))
      {
        var r := records[i];
        ScannedOn(records, i, resumed, remaining, blocked, budget.remaining, budget.blockedRemaining);
        i := i + 1;
        if !r.unfinished || r.awaitingRelevance || !r.readable {
          scanned := i;
          continue;
        }
        if !r.accepted {
          if budget.blockedRemaining == 0 {
            break;
          }
          budget.TakeBlocked();
          scanned := i;
          continue;
        }
        if r.deferred {
          scanned := i;
          continue;
        }
        ResumeDue(r.key, answers, budget, resumed, old(runs));
        scanned, resumed := i, resumed + [r.key];
      }
    }

    // --------------------------------------------------------- queued mail

    /** The next position; what was done before stays so. */
    method ProcessNext(keys: seq<Key>, i: nat, waiting: set<Key>, answers: Key -> Answer, budget: MailBudget)
      returns (more: bool)
      requires Valid() && job.None? && i < |keys| && InRuns(runs, JobOf(keys[i])) && !budget.Exhausted()
      requires forall j :: 0 <= j < i ==> DoneWith(runs, keys[j], waiting, answers(keys[j]))
      modifies this`runs, this`checkpoints, this`contexts, this`job, this`finished, this`log
      modifies this`halted, this`processCalls, budget`remaining
      ensures Valid() && old(log) <= log && job.None? && SameKeys(old(runs), runs)
      ensures Charged(old(budget.remaining), budget.remaining, processCalls - old(processCalls))
      ensures more ==> contexts.Keys == old(contexts).Keys
      ensures forall j :: 0 <= j < i ==> DoneWith(runs, keys[j], waiting, answers(keys[j]))
      ensures more ==> DoneWith(runs, keys[i], waiting, answers(keys[i]))
      ensures !more ==> !GoesOn(server, old(contexts), keys[i], answers(keys[i]))
    {
      ghost var before := Now();
      more := ProcessQueued(keys[i], waiting, budget, answers(keys[i]));
      StayDone(before, Now(), keys, i, waiting, answers);
      if more {
        DoneNow(before, Now(), keys[i], waiting, answers(keys[i]));
        SameFolders(before, Now(), keys[i], waiting, answers(keys[i]));
      }
    }

    /** The queues of the batch, position by position, until the budget ends or the batch halts. */
    method ProcessRuns(keys: seq<Key>, waiting: set<Key>, answers: Key -> Answer, budget: MailBudget)
      returns (ended: bool, ghost done: nat)
      requires Valid() && job.None? && forall k :: k in keys ==> InRuns(runs, JobOf(k))
      modifies this`runs, this`checkpoints, this`contexts, this`job, this`finished, this`log
      modifies this`halted, this`processCalls, budget`remaining
      ensures Valid() && old(log) <= log && job.None? && SameKeys(old(runs), runs)
      ensures Charged(old(budget.remaining), budget.remaining, processCalls - old(processCalls))
      ensures ended ==> forall k :: k in keys ==> DoneWith(runs, k, waiting, answers(k))
      ensures done <= |keys| && (ended <==> done == |keys|)
      ensures forall j :: 0 <= j < done ==> DoneWith(runs, keys[j], waiting, answers(keys[j]))
      ensures !ended ==> budget.Exhausted() || !GoesOn(server, old(contexts), keys[done], answers(keys[done]))
      ensures old(budget.Exhausted()) ==> runs == old(runs)
    {
      done := 0;
      for i := 0 to |keys|
        invariant done == i && contexts.Keys == old(contexts).Keys
        invariant Valid() && old(log) <= log && job.None? && SameKeys(old(runs), runs)
        invariant i == 0 ==> runs == old(runs)
        invariant i > 0 ==> !old(budget.Exhausted())
        invariant forall j :: 0 <= j < i ==> DoneWith(runs, keys[j], waiting, answers(keys[j]))
        invariant Charged(old(budget.remaining), budget.remaining, processCalls - old(processCalls))
      {
        if budget.Exhausted() {
          return false, i;
        }
        assert InRuns(runs, JobOf(keys[i]));
        ghost var before := runs;
        assert FolderOf(keys[i]) in contexts.Keys <==> FolderOf(keys[i]) in old(contexts).Keys;
        var more := ProcessNext(keys, i, waiting, answers, budget);
        SameKeysTransitive(old(runs), before, runs);
        if !more {
          return false, i;
        }
        done := i + 1;
      }
      ended := true;
    }

    // ----------------------------------------------------------- discovery

    /** A new UIDVALIDITY: generation and boundary are saved before anything of it is listed. */
    method RestartGeneration(f: Folder, start: nat)
      requires Valid() && job.None? && f !in contexts && f in checkpoints && f in server
      requires checkpoints[f].startUid.Some? && checkpoints[f].uidvalidity.Some?
      requires checkpoints[f].uidvalidity.value != server[f]
      modifies this`checkpoints, this`log
      ensures Valid() && log == old(log) + [Restart(f, server[f], start)]
      ensures checkpoints == old(checkpoints)[f := Checkpoint(Some(server[f]), start, Some(start), [])]
    {
      ghost var before := Now();
      KnownGeneration(first, log, before, f);
      checkpoints := checkpoints[f := Checkpoint(Some(server[f]), start, Some(start), [])];
      Record(before, Restart(f, server[f], start));
    }

    method OpenFolder(f: Folder)
      requires Valid() && job.None? && f in checkpoints && checkpoints[f].startUid.Some?
      modifies this`contexts, this`log
      ensures Valid() && log == old(log) + [OpenContext(f)]
      ensures contexts == old(contexts)[f := Loaded(checkpoints[f])]
    {
      ghost var before := Now();
      contexts := contexts[f := Loaded(checkpoints[f])];
      Record(before, OpenContext(f));
    }

    /** An empty folder still records the generation the server reported. */
    method RememberGeneration(f: Folder)
      requires Valid() && job.None? && f in contexts && f in server && server[f] >= 1
      modifies this`contexts, this`checkpoints, this`log
      ensures Valid() && log == old(log) + [Remember(f, server[f])]
      ensures SameContexts(old(contexts), contexts, f) && f in contexts && contexts[f].ranges == old(contexts)[f].ranges
      ensures contexts[f].checkpoint == old(contexts)[f].checkpoint.(uidvalidity := contexts[f].checkpoint.uidvalidity)
      ensures contexts[f].checkpoint.uidvalidity
              == if old(contexts)[f].checkpoint.uidvalidity.None? then Some(server[f])
                 else old(contexts)[f].checkpoint.uidvalidity
    {
      ghost var before := Now();
      QueuedIsCurrent(first, log, before, f);
      var ctx := contexts[f];
      var cp := if ctx.checkpoint.uidvalidity.None? then ctx.checkpoint.(uidvalidity := Some(server[f]))
                else ctx.checkpoint;
      checkpoints := checkpoints[f := cp];
      contexts := contexts[f := ctx.(checkpoint := cp)];
      Record(before, Remember(f, server[f]));
    }

    /** The checkpoint of the folder is prepared for the generation the server reports. */
    method PrepareFolder(f: Folder, historicalStart: Option<nat>, access: Access) returns (ready: bool)
      requires Valid() && job.None? && f !in contexts
      modifies this`contexts, this`checkpoints, this`log
      ensures Valid() && old(log) <= log
      ensures ready <==> Opens(server, f, Stored(old(Now()), f), historicalStart, access)
      ensures !ready ==> contexts == old(contexts)
      ensures ready ==> OpenedIn(server, contexts, f) && contexts == old(contexts)[f := contexts[f]]
    {
      var reported := f in server && server[f] >= 1;
      var checkpoint := if f in checkpoints then checkpoints[f] else EMPTY;
      if checkpoint.startUid.None? && historicalStart.Some? && !(reported && access.boundary) {
        return false;
      }
      var _ := StartCheckpoint(f, historicalStart);
      if !reported || !access.selected {
        return false;
      }
      var current := MeetGeneration(f, historicalStart, access.boundary);
      ready := current && access.listed;
      if ready {
        OpenFolder(f);
      }
    }

    /** A changed generation is restarted; without its boundary the folder fails. */
    method MeetGeneration(f: Folder, historicalStart: Option<nat>, boundary: bool) returns (met: bool)
      requires Valid() && job.None? && f !in contexts && f in checkpoints && f in server
      requires checkpoints[f].startUid.Some?
      modifies this`checkpoints, this`log
      ensures Valid() && old(log) <= log
      ensures met <==> boundary || historicalStart.None? || !NeedsBoundary(old(checkpoints)[f], server[f])
      ensures !met ==> checkpoints == old(checkpoints) && log == old(log)
      ensures met ==> f in checkpoints && checkpoints[f].startUid.Some?
                      && (checkpoints[f].uidvalidity.None? || checkpoints[f].uidvalidity == Some(server[f]))
    {
      var known := checkpoints[f].uidvalidity;
      met := true;
      if known.Some? && known.value != server[f] {
        if historicalStart.Some? && !boundary {
          return false;
        }
        RestartGeneration(f, if historicalStart.Some? then historicalStart.value else 0);
      }
    }

    /** While queues continue only the checkpoint is prepared. */
    method ReopenFolder(f: Folder, historicalStart: Option<nat>, access: Access)
      requires Valid() && job.None? && f !in contexts
      modifies this`contexts, this`checkpoints, this`log
      ensures Valid() && old(log) <= log && SameContexts(old(contexts), contexts, f)
      ensures f in contexts <==>
        (historicalStart.Some? && Stored(old(Now()), f).startUid.None? ==>
          Server(old(Now()), f) >= 1 && access.boundary)
    {
      var checkpoint := if f in checkpoints then checkpoints[f] else EMPTY;
      if checkpoint.startUid.None? && historicalStart.Some?
         && !(f in server && server[f] >= 1 && access.boundary) {
        return;
      }
      var _ := StartCheckpoint(f, historicalStart);
      OpenFolder(f);
    }

    /** The wanted mail of an opened folder; an empty one only remembers its generation. */
    method ListFolder(f: Folder, listed: seq<(nat, int)>, next: nat) returns (found: seq<Candidate>)
      requires Valid() && job.None? && OpenedIn(server, contexts, f) && server[f] >= 1
      modifies this`contexts, this`checkpoints, this`log
      ensures Valid() && old(log) <= log && SameContexts(old(contexts), contexts, f)
      ensures forall i :: 0 <= i < |found| ==> found[i].index == next + i && Found(Now(), f, found[i].key)
      ensures OpenedIn(server, contexts, f) && found == Candidates(f, server[f], contexts[f], listed, next)
    {
      found := [];
      ghost var ctx := contexts[f];
      for i := 0 to |listed|
        invariant found == Candidates(f, server[f], ctx, listed[..i], next)
        invariant forall j :: 0 <= j < |found| ==> found[j].index == next + j && Found(Now(), f, found[j].key)
      {
        var (uid, received) := listed[i];
        assert listed[..i + 1] == listed[..i] + [listed[i]] && listed[..i + 1][..i] == listed[..i];
        if uid > Floor(contexts[f].checkpoint) && !Contains(contexts[f].ranges, uid) {
          found := found + [Candidate(Key(f.account, f.name, server[f], uid), received, next + |found|)];
        }
      }
      assert listed[..|listed|] == listed;
      if found == [] {
        RememberGeneration(f);
      }
      SameWanted(f, server[f], ctx, contexts[f], listed, next);
    }

    /** `_discover_folder`: what the search lists above the boundary and outside the finished ranges. */
    method DiscoverFolder(f: Folder, resuming: bool, historicalStart: Option<nat>, access: Access,
                          listed: seq<(nat, int)>, next: nat)
      returns (found: seq<Candidate>)
      requires Valid() && job.None? && f !in contexts
      modifies this`contexts, this`checkpoints, this`log
      ensures Valid() && old(log) <= log && SameContexts(old(contexts), contexts, f)
      ensures forall i :: 0 <= i < |found| ==> found[i].index == next + i && Found(Now(), f, found[i].key)
      ensures resuming ==> found == []
      ensures !resuming ==> (f in contexts <==> Opens(server, f, Stored(old(Now()), f), historicalStart, access))
      ensures !resuming ==>
        if f in contexts
        then OpenedIn(server, contexts, f) && found == Candidates(f, server[f], contexts[f], listed, next)
        else found == []
    {
      found := [];
      if resuming {
        ReopenFolder(f, historicalStart, access);
        return;
      }
      var ready := PrepareFolder(f, historicalStart, access);
      if !ready {
        return;
      }
      found := ListFolder(f, listed, next);
    }

    /** One new queue is durable before anything of it is fetched; a used-up budget is refused by the stored model. */
    method StoreNewRun(keys: seq<Key>, account: string, remaining: Option<nat>) returns (stored: bool)
      requires Valid() && job.None? && Distinct(keys) && forall k :: k in keys ==> Found(Now(), FolderOf(k), k)
      requires account != "" && forall k :: k in keys ==> k.folder != ""
      modifies this`runs, this`log
      ensures Valid() && stored == (remaining != Some(0))
      ensures !stored ==> runs == old(runs) && log == old(log)
      ensures stored ==> runs == old(runs)[account := NewRun(keys, account, remaining)]
                         && log == old(log) + [StoreRun(account, NewRun(keys, account, remaining))]
    {
      if remaining == Some(0) {
        return false;
      }
      var entries := QueuedEntries(OfAccount(keys, account));
      var counters := RunCounters(entries);
      NewRunAllowed(Now(), keys, account, remaining);
      SaveRun(account, Run(remaining, entries, counters), StoreRun(account, NewRun(keys, account, remaining)));
      stored := true;
    }

    /** One queue per mailbox is saved, in configuration order. */
    method StoreRuns(keys: seq<Key>, remaining: Option<nat>, accounts: seq<string>) returns (stored: bool)
      requires Valid() && job.None? && Distinct(keys) && forall k :: k in keys ==> Found(Now(), FolderOf(k), k)
      requires forall k :: k in keys ==> k.folder != ""
      requires DistinctAccounts(accounts) && forall i :: 0 <= i < |accounts| ==> accounts[i] != ""
      modifies this`runs, this`log
      ensures Valid() && old(log) <= log && stored == (remaining != Some(0) || accounts == [])
      ensures stored ==> AllStored(runs, keys, remaining, accounts)
      ensures remaining == Some(0) ==> runs == old(runs)
    {
      for i := 0 to |accounts|
        invariant Valid() && old(log) <= log && (i > 0 ==> remaining != Some(0)) && (i == 0 ==> runs == old(runs))
        invariant AllStored(runs, keys, remaining, accounts[..i])
      {
        ghost var before := runs;
        stored := StoreNewRun(keys, accounts[i], remaining);
        if !stored {
          return;
        }
        AllStoredNext(before, runs, keys, remaining, accounts, i);
      }
      assert accounts[..|accounts|] == accounts;
      stored := true;
    }

    /** `_new_runs`: one queue per mailbox for the chosen batch. */
    method NewRuns(candidates: seq<Candidate>, waiting: set<Key>, remaining: Option<nat>, batchSize: nat,
                   accounts: seq<string>)
      returns (keys: seq<Key>, stored: bool)
      requires Valid() && job.None? && InDiscoveryOrder(candidates) && DistinctAccounts(accounts)
      requires forall c :: c in candidates ==> Found(Now(), FolderOf(c.key), c.key) && c.key.folder != ""
      requires forall i :: 0 <= i < |accounts| ==> accounts[i] != ""
      requires forall c :: c in candidates ==> c.key.account in accounts
      modifies this`runs, this`log
      ensures Valid() && old(log) <= log && stored == (remaining != Some(0) || accounts == [])
      ensures keys == Batch(candidates, waiting, Limit(remaining, batchSize))
      ensures stored ==> AllStored(runs, keys, remaining, accounts)
      ensures stored ==> forall k :: k in keys ==>
        InRuns(runs, JobOf(k)) && EntryAt(runs, k) == Some(Entry(k, Queued, None, false, None))
      ensures remaining == Some(0) ==> runs == old(runs)
    {
      keys := SelectBatch(candidates, waiting, remaining, batchSize);
      BatchIsNewest(candidates, waiting, Limit(remaining, batchSize));
      ChosenAreFound(candidates, keys);
      stored := StoreRuns(keys, remaining, accounts);
      if stored {
        AllQueued(runs, keys, remaining, accounts);
      }
    }

    /** The folders in configuration order; `resuming` only prepares their checkpoints. */
    method DiscoverAll(folders: seq<Folder>, resuming: bool, outside: Outside, budget: MailBudget)
      returns (candidates: seq<Candidate>)
      requires Valid() && job.None? && contexts == map[] && DistinctFolders(folders)
      modifies this`contexts, this`checkpoints, this`log
      ensures Valid() && old(log) <= log && InDiscoveryOrder(candidates)
      ensures forall c :: c in candidates ==> FolderOf(c.key) in folders && Found(Now(), FolderOf(c.key), c.key)
      ensures if resuming || budget.Exhausted() then candidates == []
              else FindsAll(server, contexts, folders, outside, candidates)
    {
      candidates := [];
      ghost var none := resuming || budget.Exhausted();
      for i := 0 to |folders|
        invariant Valid() && old(log) <= log && job.None?
        invariant DiscoveredSoFar(Now(), folders[..i], none, outside, candidates)
      {
        if budget.Exhausted() {
          return;
        }
        var f := folders[i];
        assert f !in folders[..i];
        ghost var before := Now();
        var found := DiscoverFolder(f, resuming, outside.historicalStart(f), outside.access(f), outside.listing(f),
                                    |candidates|);
        DiscoveredNext(before, Now(), folders[..i], f, none, outside, candidates, found);
        assert folders[..i + 1] == folders[..i] + [f];
        candidates := candidates + found;
      }
      assert folders[..|folders|] == folders;
    }

    /** Without an active queue: everything is discovered, and the newest of it is queued. */
    method NewBatch(folders: seq<Folder>, accounts: seq<string>, waiting: set<Key>, outside: Outside, batchSize: nat,
                    budget: MailBudget)
      returns (keys: seq<Key>, stored: bool, candidates: seq<Candidate>, ghost prepared: State)
      requires Valid() && job.None? && contexts == map[] && Configured(folders, accounts)
      modifies this`runs, this`checkpoints, this`contexts, this`log
      ensures Valid() && old(log) <= log && stored == (budget.remaining != Some(0) || accounts == [])
      ensures Inv(prepared) && prepared.server == server && prepared.finished == finished
      ensures prepared.contexts == contexts
      ensures keys == Batch(candidates, waiting, Limit(budget.remaining, batchSize))
      ensures if budget.Exhausted() then candidates == []
              else FindsAll(server, prepared.contexts, folders, outside, candidates)
      ensures stored ==> forall k :: k in keys ==> InRuns(runs, JobOf(k))
      ensures budget.Exhausted() ==> runs == old(runs)
    {
      candidates := DiscoverAll(folders, false, outside, budget);
      prepared := Now();
      ReachedInv(first, log, prepared);
      keys, stored := NewRuns(candidates, waiting, budget.remaining, batchSize, accounts);
    }

    /** `poll_global`: unfinished queues continue alone; otherwise the newest new mail forms one batch. */
    method PollGlobal(folders: seq<Folder>, accounts: seq<string>, waiting: set<Key>, outside: Outside,
                      batchSize: nat, budget: MailBudget)
      returns (ended: bool, keys: seq<Key>, refused: bool, candidates: seq<Candidate>, ghost prepared: State,
               ghost done: nat)
      requires Valid() && job.None? && contexts == map[] && Configured(folders, accounts)
      modifies this`runs, this`checkpoints, this`contexts, this`job, this`finished, this`log
      modifies this`halted, this`processCalls, budget`remaining
      ensures Valid() && old(log) <= log && job.None? && contexts == map[]
      ensures Charged(old(budget.remaining), budget.remaining, processCalls - old(processCalls))
      ensures Inv(prepared) && prepared.server == server && prepared.finished == old(finished)
      ensures var active := ActiveKeys(old(runs), accounts, waiting);
        if active != [] then keys == active
        else keys == Batch(candidates, waiting, Limit(old(budget.remaining), batchSize))
             && if old(budget.Exhausted()) then candidates == []
                else FindsAll(server, prepared.contexts, folders, outside, candidates)
      ensures refused <==>
        accounts != [] && old(budget.remaining) == Some(0) && ActiveKeys(old(runs), accounts, waiting) == []
      ensures ended ==> forall k :: k in keys ==> DoneWith(runs, k, waiting, outside.answer(k))
      ensures done <= |keys| && forall j :: 0 <= j < done ==> DoneWith(runs, keys[j], waiting, outside.answer(keys[j]))
      ensures !ended && !refused ==> done < |keys|
      ensures !ended && !refused && !budget.Exhausted() ==>
        !GoesOn(server, prepared.contexts, keys[done], outside.answer(keys[done]))
      ensures refused ==> !ended
      ensures old(budget.Exhausted()) ==> runs == old(runs)
    {
      keys := ActiveKeys(runs, accounts, waiting);
      var stored := true;
      if keys != [] {
        ActiveInRuns(first, log, Now(), accounts, waiting);
        candidates := DiscoverAll(folders, true, outside, budget);
        prepared := Now();
        ReachedInv(first, log, prepared);
      } else {
        keys, stored, candidates, prepared := NewBatch(folders, accounts, waiting, outside, batchSize, budget);
      }
      refused, ended, done := !stored, false, 0;
      if stored {
        ended, done := ProcessRuns(keys, waiting, outside.answer, budget);
      }
      EndPoll();
    }

    /**
     `poll(max_mails=n)` processes at most n mails, resumed and queued mail together. The stored
     queue refuses a used-up budget: the call then fails exactly when the resumed mail took all
     of it and no queue has runnable mail left.
     */
    method Poll(maxMails: Option<nat>, records: seq<MailRecord>, resumed: Key -> Answer, folders: seq<Folder>,
                accounts: seq<string>, waiting: set<Key>, outside: Outside, batchSize: nat)
      returns (refused: bool)
      requires Valid() && job.None? && contexts == map[] && Configured(folders, accounts)
      requires forall r :: r in records ==> r.key.uidvalidity >= 1
      modifies this`runs, this`checkpoints, this`contexts, this`job, this`finished, this`log
      modifies this`halted, this`processCalls
      ensures Valid() && old(log) <= log && job.None? && contexts == map[]
      ensures maxMails.Some? ==> old(processCalls) <= processCalls <= old(processCalls) + maxMails.value
      ensures refused
        <==> (!old(halted) && accounts != [] && Spent(records, maxMails) && ActiveKeys(runs, accounts, waiting) == [])
      ensures old(Idle(runs, waiting)) ==> (refused <==> !old(halted) && accounts != [] && Spent(records, maxMails))
    {
      var budget := new MailBudget(maxMails);
      ghost var _, _ := ResumePending(records, resumed, budget);
      if old(Idle(runs, waiting)) {
        IdleStays(old(runs), runs, waiting);
        IdleHasNoActive(first, log, Now(), accounts, waiting);
      }
      if halted {
        return false;
      }
      var _, _, r, _, _, _ := PollGlobal(folders, accounts, waiting, outside, batchSize, budget);
      refused := r;
    }
  }

  /** A limit of one, no queue at all, and one due mail whose processing fails: the rest of the poll is refused. */
  method SpentByResumedMail() returns (refused: bool)
    ensures refused
  {
    var service := new MailboxRunService(map[]);
    var due := MailRecord(Key("a", "INBOX", 1, 1), true, false, true, true, false);
    var outside := Outside(f => None, f => Access(true, true, true), f => [], k => Broken(false));
    assert Idle(service.runs, {});
    assert AfterResume([due], Some(1), 1) == AfterResume([due][1..], Some(0), 1) == (Some(0), 1);
    refused := service.Poll(Some(1), [due], k => Broken(true), [], ["a"], {}, outside, 500);
  }
}
