/**
 Mailbox progress as a state machine over its durable saves: checkpoints per
 folder, one queue per account, the memory of a running poll, and the mail
 server, which may start a new UID generation at any time
 (src/mailhelp/mailbox/mailbox_run.py, src/mailhelp/domain/run.py).
 */
module Checkpoints {
  import opened PyText
  import opened UidRanges
  import opened RunQueue

  datatype Folder = Folder(account: string, name: string)

  datatype Checkpoint = Checkpoint(uidvalidity: Option<nat>, uid: nat, startUid: Option<nat>, ranges: seq<Range>)

  const EMPTY: Checkpoint := Checkpoint(None, 0, None, [])

  function Floor(cp: Checkpoint): nat {
    if cp.startUid.Some? then cp.startUid.value else 0
  }

  /** The stored model: a generation of at least 1, ranges in order above the start boundary. */
  predicate ValidCheckpoint(cp: Checkpoint) {
    && (cp.uidvalidity.Some? ==> cp.uidvalidity.value >= 1)
    && Ordered(cp.ranges, Floor(cp), 0)
  }

  /** A checkpoint in memory and the ranges the poll works with. */
  datatype Context = Context(checkpoint: Checkpoint, ranges: seq<Range>)

  /** An old checkpoint without ranges stands for the prefix up to its high-water mark. */
  function Loaded(cp: Checkpoint): Context {
    Context(cp, if cp.ranges == [] && cp.startUid.Some? && cp.uid > cp.startUid.value
                then [Range(cp.startUid.value + 1, cp.uid)] else cp.ranges)
  }

  /** An old checkpoint finished exactly the UIDs between its boundary and its high-water mark. */
  lemma LoadedPrefix(cp: Checkpoint, uid: int)
    requires cp.startUid.Some? && cp.ranges == []
    ensures Contains(Loaded(cp).ranges, uid) <==> cp.startUid.value < uid <= cp.uid
  {
    if cp.startUid.value < uid <= cp.uid { assert Loaded(cp).ranges[0].start <= uid <= Loaded(cp).ranges[0].end; }
  }

  /** `_complete_uid`; a UID at or below the boundary changes nothing. */
  function CompletedUid(ctx: Context, uid: nat, generation: nat): Checkpoint {
    if uid <= Floor(ctx.checkpoint) then ctx.checkpoint
    else ctx.checkpoint.(uid := Max(ctx.checkpoint.uid, uid) as nat, uidvalidity := Some(generation),
                         ranges := Added(ctx.ranges, uid))
  }

  /** The first use of a folder fixes its boundary, from the server or from an old high-water mark. */
  function WithStart(cp: Checkpoint, boundary: Option<nat>, generation: nat): Checkpoint {
    match boundary
    case Some(start) => Checkpoint(Some(generation), start, Some(start), [])
    case None => Checkpoint(cp.uidvalidity, cp.uid, Some(cp.uid), [])
  }

  // ----------------------------------------------------------------- state

  /** One message of one UID generation. */
  datatype Job = Job(folder: Folder, generation: nat, uid: nat)

  datatype State = State(
    server: map<Folder, nat>,                 // the generation the server reports
    checkpoints: map<Folder, Checkpoint>,     // durable
    runs: map<string, Run>,                   // durable
    contexts: map<Folder, Context>,           // memory of the poll
    job: Option<Job>,                         // memory: processed, not yet completed
    finished: set<Job>)                       // history: processed without failure or held relevance

  function Server(s: State, f: Folder): nat {
    if f in s.server then s.server[f] else 0
  }

  function Stored(s: State, f: Folder): Checkpoint {
    if f in s.checkpoints then s.checkpoints[f] else EMPTY
  }

  function FolderOf(k: Key): Folder {
    Folder(k.account, k.folder)
  }

  function KeyOf(j: Job): Key {
    Key(j.folder.account, j.folder.name, j.generation, j.uid)
  }

  predicate InQueue(s: State, j: Job) {
    j.folder.account in s.runs
    && Position(s.runs[j.folder.account].entries, KeyOf(j)) < |s.runs[j.folder.account].entries|
  }

  datatype Event =
    | NewGeneration(folder: Folder, generation: nat)
    | FixStart(folder: Folder, boundary: Option<nat>)
    | OpenContext(folder: Folder)
    | Restart(folder: Folder, generation: nat, start: nat)
    | Remember(folder: Folder, generation: nat)
    | StoreRun(account: string, run: Run)
    | ChangeRun(account: string, change: Change)
    | Processed(job: Job)
    | Complete(fromPoll: bool)
    | Forget                                  // the poll ends, or the process dies

  /** A candidate of a discovery: the generation was checked, the UID is above the boundary and not done. */
  predicate Discoverable(s: State, k: Key) {
    var f := FolderOf(k);
    && f in s.contexts
    && k.uidvalidity <= Server(s, f)
    && (s.contexts[f].checkpoint.uidvalidity.None? || s.contexts[f].checkpoint.uidvalidity == Some(k.uidvalidity))
    && k.uid > Floor(s.contexts[f].checkpoint)
    && !Contains(s.contexts[f].ranges, k.uid)
  }

  /** No queued identity of the folder is of a later generation. */
  ghost predicate QueuedUpTo(s: State, f: Folder, generation: nat) {
    forall a :: a in s.runs ==> RunUpTo(s.runs[a], f, generation)
  }

  predicate RunUpTo(run: Run, f: Folder, generation: nat) {
    forall i :: 0 <= i < |run.entries| ==>
      (FolderOf(run.entries[i].key) == f ==> run.entries[i].key.uidvalidity <= generation)
  }

  ghost predicate Enabled(s: State, e: Event) {
    match e
    case NewGeneration(f, g) => g > Server(s, f)
    case FixStart(f, boundary) => s.job.None? && Stored(s, f).startUid.None? && (boundary.Some? ==> Server(s, f) >= 1)
    case OpenContext(f) => s.job.None? && f in s.checkpoints && s.checkpoints[f].startUid.Some?
    case Restart(f, g, _) =>
      && s.job.None? && f in s.checkpoints && s.checkpoints[f].startUid.Some? && f !in s.contexts
      && s.checkpoints[f].uidvalidity.Some? && s.checkpoints[f].uidvalidity.value != g
      && s.checkpoints[f].uidvalidity.value <= g <= Server(s, f)
    // the server reported g after everything queued for the folder had been discovered
    case Remember(f, g) => s.job.None? && f in s.contexts && 1 <= g <= Server(s, f) && QueuedUpTo(s, f, g)
    case StoreRun(account, run) =>
      && s.job.None? && ValidRun(run)
      && forall i :: 0 <= i < |run.entries| ==>
           run.entries[i].key.account == account && Discoverable(s, run.entries[i].key)
    case ChangeRun(account, c) => account in s.runs && c.key.account == account
    case Processed(j) => j.generation == Server(s, j.folder) && j.generation >= 1
    case Complete(fromPoll) =>
      && s.job.Some? && InQueue(s, s.job.value)
      && (if fromPoll then s.job.value.folder in s.contexts else s.contexts == map[])
    case Forget => true
  }

  /** `complete_resumed_entry` leaves a checkpoint of another generation alone. */
  function CompletedJob(s: State, j: Job, fromPoll: bool): Checkpoint
    requires fromPoll ==> j.folder in s.contexts
  {
    if fromPoll then CompletedUid(s.contexts[j.folder], j.uid, j.generation)
    else
      var cp := Stored(s, j.folder);
      if cp.uidvalidity.Some? && cp.uidvalidity.value != j.generation then cp
      else CompletedUid(Loaded(cp), j.uid, j.generation)
  }

  function Apply(s: State, e: Event): State
    requires Enabled(s, e)
  {
    match e
    case NewGeneration(f, g) => s.(server := s.server[f := g])
    case FixStart(f, boundary) =>
      s.(checkpoints := s.checkpoints[f := WithStart(Stored(s, f), boundary, Server(s, f))])
    case OpenContext(f) => s.(contexts := s.contexts[f := Loaded(s.checkpoints[f])])
    case Restart(f, g, start) =>
      s.(checkpoints := s.checkpoints[f := Checkpoint(Some(g), start, Some(start), [])])
    case Remember(f, g) =>
      var ctx := s.contexts[f];
      var cp := if ctx.checkpoint.uidvalidity.None? then ctx.checkpoint.(uidvalidity := Some(g)) else ctx.checkpoint;
      s.(checkpoints := s.checkpoints[f := cp], contexts := s.contexts[f := ctx.(checkpoint := cp)])
    case StoreRun(account, run) => s.(runs := s.runs[account := run])
    case ChangeRun(account, c) => s.(runs := s.runs[account := Changed(s.runs[account], c)])
    case Processed(j) => s.(job := Some(j), finished := s.finished + {j})
    case Complete(fromPoll) =>
      var j := s.job.value;
      var cp := CompletedJob(s, j, fromPoll);
      s.(job := None, checkpoints := s.checkpoints[j.folder := cp],
         contexts := if fromPoll then s.contexts[j.folder := Context(cp, cp.ranges)] else s.contexts)
    case Forget => s.(contexts := map[], job := None)
  }

  ghost predicate Allowed(s: State, es: seq<Event>)
    decreases |es|
  {
    es == [] || (Enabled(s, es[0]) && Allowed(Apply(s, es[0]), es[1..]))
  }

  function Execute(s: State, es: seq<Event>): State
    requires Allowed(s, es)
    decreases |es|
  {
    if es == [] then s else Execute(Apply(s, es[0]), es[1..])
  }

  // ------------------------------------------------------------- invariant

  /** Every UID in the ranges was finished in the generation of the checkpoint. */
  ghost predicate Sound(s: State, f: Folder, cp: Checkpoint) {
    forall u :: Contains(cp.ranges, u) ==>
      u >= 0 && cp.uidvalidity.Some? && Job(f, cp.uidvalidity.value, u) in s.finished
  }

  predicate GoodShape(s: State, f: Folder, cp: Checkpoint) {
    && (cp.uidvalidity.Some? ==> 1 <= cp.uidvalidity.value <= Server(s, f))
    && (cp.uidvalidity.None? ==> cp.ranges == [])
    && (cp.startUid.None? ==> cp.ranges == [])
    && Ordered(cp.ranges, Floor(cp), 1)
    && (cp.startUid.Some? && cp.ranges == [] ==> cp.uid == cp.startUid.value)
  }

  ghost predicate GoodCheckpoint(s: State, f: Folder, cp: Checkpoint) {
    GoodShape(s, f, cp) && Sound(s, f, cp)
  }

  /** A queued identity belongs to a folder with a boundary, in no later generation than its checkpoint. */
  predicate GoodEntry(s: State, k: Key) {
    var f := FolderOf(k);
    && k.uidvalidity <= Server(s, f)
    && f in s.checkpoints && s.checkpoints[f].startUid.Some?
    && (s.checkpoints[f].uidvalidity.Some? ==> k.uidvalidity <= s.checkpoints[f].uidvalidity.value)
  }

  predicate GoodRun(s: State, account: string, run: Run) {
    && ValidRun(run)
    && forall i :: 0 <= i < |run.entries| ==>
         run.entries[i].key.account == account && GoodEntry(s, run.entries[i].key)
  }

  ghost predicate GoodRuns(s: State) {
    forall a :: a in s.runs ==> GoodRun(s, a, s.runs[a])
  }

  ghost predicate GoodContexts(s: State) {
    forall f :: f in s.contexts ==>
      && f in s.checkpoints && s.contexts[f] == Context(s.checkpoints[f], s.checkpoints[f].ranges)
      && s.checkpoints[f].startUid.Some?
  }

  /** The mail in hand is of a generation no older than anything stored about its folder. */
  ghost predicate GoodJob(s: State) {
    s.job.Some? ==> (
      var j := s.job.value;
      && j in s.finished
      && (Stored(s, j.folder).uidvalidity.Some? ==> Stored(s, j.folder).uidvalidity.value <= j.generation)
      && QueuedUpTo(s, j.folder, j.generation))
  }

  ghost predicate Inv(s: State) {
    && (forall f :: f in s.checkpoints ==> GoodCheckpoint(s, f, s.checkpoints[f]))
    && (forall j :: j in s.finished ==> 1 <= j.generation <= Server(s, j.folder))
    && GoodRuns(s) && GoodContexts(s) && GoodJob(s)
  }

  lemma InitialInv(server: map<Folder, nat>)
    ensures Inv(State(server, map[], map[], map[], None, {}))
  {
  }

  lemma LoadedIsStored(s: State, f: Folder, cp: Checkpoint)
    requires GoodShape(s, f, cp)
    ensures Loaded(cp) == Context(cp, cp.ranges)
  {
  }

  /** Completing a finished UID keeps the checkpoint exact. */
  lemma CompletedIsGood(s: State, j: Job, cp: Checkpoint)
    requires GoodCheckpoint(s, j.folder, cp) && cp.startUid.Some?
    requires j in s.finished && 1 <= j.generation <= Server(s, j.folder)
    requires cp.uidvalidity.None? || cp.uidvalidity == Some(j.generation)
    ensures var after := CompletedUid(Context(cp, cp.ranges), j.uid, j.generation);
      && GoodCheckpoint(s, j.folder, after)
      && after.startUid == cp.startUid
      && (after.uidvalidity == cp.uidvalidity || after.uidvalidity == Some(j.generation))
  {
    if j.uid > Floor(cp) {
      AddedIsExact(cp.ranges, j.uid, Floor(cp), 1);
    }
  }

  lemma CheckpointChange(s: State, t: State, f: Folder, cp: Checkpoint)
    requires Inv(s) && t.server == s.server && t.runs == s.runs && t.finished == s.finished
    requires t.checkpoints == s.checkpoints[f := cp] && t.job.None?
    requires GoodCheckpoint(s, f, cp)
    requires Stored(s, f).startUid.Some? ==> cp.startUid.Some?
    requires cp.uidvalidity.Some? ==> QueuedUpTo(s, f, cp.uidvalidity.value)
    requires GoodContexts(t)
    ensures Inv(t)
  {
    forall g | g in t.checkpoints ensures GoodCheckpoint(t, g, t.checkpoints[g]) {
      if g != f { assert GoodCheckpoint(s, g, s.checkpoints[g]); }
    }
    forall a | a in t.runs ensures GoodRun(t, a, t.runs[a]) {
      assert GoodRun(s, a, s.runs[a]);
      forall i | 0 <= i < |t.runs[a].entries| ensures GoodEntry(t, t.runs[a].entries[i].key) {
        assert GoodEntry(s, s.runs[a].entries[i].key);
      }
    }
  }

  /** Entries depend on the server and the checkpoints only. */
  lemma SameRun(s: State, t: State, a: string, run: Run)
    requires GoodRun(s, a, run) && t.checkpoints == s.checkpoints
    requires forall f :: Server(s, f) <= Server(t, f)
    ensures GoodRun(t, a, run)
  {
    forall i | 0 <= i < |run.entries| ensures GoodEntry(t, run.entries[i].key) {
      assert GoodEntry(s, run.entries[i].key);
    }
  }

  /** With the mail in hand still queued, its folder has a boundary and no other generation. */
  lemma QueuedJobFits(s: State)
    requires Inv(s) && s.job.Some? && InQueue(s, s.job.value)
    ensures var j := s.job.value; var cp := Stored(s, j.folder);
      && j.folder in s.checkpoints && cp.startUid.Some?
      && (cp.uidvalidity.None? || cp.uidvalidity == Some(j.generation))
      && Loaded(cp) == Context(cp, cp.ranges)
  {
    var j := s.job.value;
    var entries := s.runs[j.folder.account].entries;
    assert GoodRun(s, j.folder.account, s.runs[j.folder.account]);
    assert GoodEntry(s, entries[Position(entries, KeyOf(j))].key);
    assert GoodCheckpoint(s, j.folder, s.checkpoints[j.folder]);
    LoadedIsStored(s, j.folder, s.checkpoints[j.folder]);
  }

  lemma CompleteKeepsInv(s: State, fromPoll: bool)
    requires Inv(s) && Enabled(s, Complete(fromPoll))
    ensures Inv(Apply(s, Complete(fromPoll)))
  {
    var j := s.job.value;
    CompletedJobIs(s, fromPoll);
    var cp := s.checkpoints[j.folder];
    CompletedIsGood(s, j, cp);
    var after := CompletedUid(Context(cp, cp.ranges), j.uid, j.generation);
    CompletedContexts(s, fromPoll);
    assert QueuedUpTo(s, j.folder, j.generation);
    CheckpointChange(s, Apply(s, Complete(fromPoll)), j.folder, after);
  }

  /** Both ways of completing come to the same: the stored checkpoint with one UID more. */
  lemma CompletedJobIs(s: State, fromPoll: bool)
    requires Inv(s) && Enabled(s, Complete(fromPoll))
    ensures var j := s.job.value;
      && j.folder in s.checkpoints && s.checkpoints[j.folder].startUid.Some?
      && (s.checkpoints[j.folder].uidvalidity.None? || s.checkpoints[j.folder].uidvalidity == Some(j.generation))
      && CompletedJob(s, j, fromPoll)
         == CompletedUid(Context(s.checkpoints[j.folder], s.checkpoints[j.folder].ranges), j.uid, j.generation)
  {
    QueuedJobFits(s);
  }

  lemma CompletedContexts(s: State, fromPoll: bool)
    requires Inv(s) && Enabled(s, Complete(fromPoll))
    ensures GoodContexts(Apply(s, Complete(fromPoll)))
  {
    CompletedJobIs(s, fromPoll);
    var t := Apply(s, Complete(fromPoll));
    forall g | g in t.contexts ensures g in t.checkpoints &&
      t.contexts[g] == Context(t.checkpoints[g], t.checkpoints[g].ranges) && t.checkpoints[g].startUid.Some?
    {
      assert g in s.contexts;
    }
  }

  lemma BoundaryIsGood(s: State, e: Event)
    requires Inv(s) && Enabled(s, e) && (e.FixStart? || e.Restart? || e.Remember?)
    ensures GoodCheckpoint(s, e.folder, Apply(s, e).checkpoints[e.folder])
  {
    var f := e.folder;
    if f in s.checkpoints { assert GoodCheckpoint(s, f, s.checkpoints[f]); }
  }

  lemma BoundaryIsLatest(s: State, e: Event)
    requires Inv(s) && Enabled(s, e) && (e.FixStart? || e.Restart? || e.Remember?)
    ensures var cp := Apply(s, e).checkpoints[e.folder];
      cp.uidvalidity.Some? ==> QueuedUpTo(s, e.folder, cp.uidvalidity.value)
  {
    var f := e.folder;
    var cp := Apply(s, e).checkpoints[f];
    if cp.uidvalidity.Some? {
      forall a | a in s.runs ensures RunUpTo(s.runs[a], f, cp.uidvalidity.value) {
        assert GoodRun(s, a, s.runs[a]);
        forall i | 0 <= i < |s.runs[a].entries| && FolderOf(s.runs[a].entries[i].key) == f
          ensures s.runs[a].entries[i].key.uidvalidity <= cp.uidvalidity.value
        {
          assert GoodEntry(s, s.runs[a].entries[i].key);
        }
      }
    }
  }

  lemma BoundaryKeepsInv(s: State, e: Event)
    requires Inv(s) && Enabled(s, e) && (e.FixStart? || e.Restart? || e.Remember?)
    ensures Inv(Apply(s, e))
  {
    var f := e.folder;
    var t := Apply(s, e);
    BoundaryIsGood(s, e);
    BoundaryIsLatest(s, e);
    assert GoodContexts(t) by {
      forall g | g in t.contexts ensures g in t.checkpoints &&
        t.contexts[g] == Context(t.checkpoints[g], t.checkpoints[g].ranges) && t.checkpoints[g].startUid.Some?
      {
        assert g in s.contexts;
      }
    }
    CheckpointChange(s, t, f, t.checkpoints[f]);
  }

  lemma ServerKeepsInv(s: State, f: Folder, g: nat)
    requires Inv(s) && Enabled(s, NewGeneration(f, g))
    ensures Inv(Apply(s, NewGeneration(f, g)))
  {
    var t := Apply(s, NewGeneration(f, g));
    forall a | a in t.runs ensures GoodRun(t, a, t.runs[a]) {
      SameRun(s, t, a, s.runs[a]);
    }
  }

  lemma RunReplaced(s: State, account: string, run: Run)
    requires Inv(s) && GoodRun(s, account, run)
    requires s.job.Some? ==> RunUpTo(run, s.job.value.folder, s.job.value.generation)
    ensures Inv(s.(runs := s.runs[account := run]))
  {
    var t := s.(runs := s.runs[account := run]);
    assert GoodRuns(t) by {
      forall a | a in t.runs ensures GoodRun(t, a, t.runs[a]) { SameRun(s, t, a, t.runs[a]); }
    }
    SameCheckpoints(s, t);
    assert GoodJob(t) by {
      if s.job.Some? {
        forall a | a in t.runs ensures RunUpTo(t.runs[a], s.job.value.folder, s.job.value.generation) {
          if a != account { assert a in s.runs; }
        }
      }
    }
  }

  lemma SameCheckpoints(s: State, t: State)
    requires t.checkpoints == s.checkpoints && t.server == s.server && t.finished == s.finished
    requires forall f :: f in s.checkpoints ==> GoodCheckpoint(s, f, s.checkpoints[f])
    ensures forall f :: f in t.checkpoints ==> GoodCheckpoint(t, f, t.checkpoints[f])
  {
    forall f | f in t.checkpoints ensures GoodCheckpoint(t, f, t.checkpoints[f]) {
      assert GoodCheckpoint(s, f, s.checkpoints[f]);
    }
  }

  lemma StoreRunKeepsInv(s: State, account: string, run: Run)
    requires Inv(s) && Enabled(s, StoreRun(account, run))
    ensures Inv(Apply(s, StoreRun(account, run)))
  {
    forall i | 0 <= i < |run.entries|
      ensures run.entries[i].key.account == account && GoodEntry(s, run.entries[i].key)
    {
      assert Discoverable(s, run.entries[i].key);
    }
    RunReplaced(s, account, run);
  }

  lemma ChangeRunKeepsInv(s: State, account: string, c: Change)
    requires Inv(s) && Enabled(s, ChangeRun(account, c))
    ensures Inv(Apply(s, ChangeRun(account, c)))
  {
    var before, after := s.runs[account], Changed(s.runs[account], c);
    assert GoodRun(s, account, before);
    ChangeKeepsRun(before, c);
    forall i | 0 <= i < |after.entries|
      ensures after.entries[i].key.account == account && GoodEntry(s, after.entries[i].key)
    {
      assert after.entries[i].key == before.entries[i].key;
      assert GoodEntry(s, before.entries[i].key);
    }
    if s.job.Some? {
      assert RunUpTo(before, s.job.value.folder, s.job.value.generation);
    }
    RunReplaced(s, account, after);
  }

  lemma ProcessedKeepsInv(s: State, j: Job)
    requires Inv(s) && Enabled(s, Processed(j))
    ensures Inv(Apply(s, Processed(j)))
  {
    var t := Apply(s, Processed(j));
    if j.folder in s.checkpoints { assert GoodCheckpoint(s, j.folder, s.checkpoints[j.folder]); }
    forall a | a in t.runs ensures GoodRun(t, a, t.runs[a]) {
      SameRun(s, t, a, s.runs[a]);
    }
    forall a | a in t.runs ensures RunUpTo(t.runs[a], j.folder, j.generation) {
      assert GoodRun(s, a, s.runs[a]);
      forall i | 0 <= i < |s.runs[a].entries| && FolderOf(s.runs[a].entries[i].key) == j.folder
        ensures s.runs[a].entries[i].key.uidvalidity <= j.generation
      {
        assert GoodEntry(s, s.runs[a].entries[i].key);
      }
    }
  }

  lemma OpenKeepsInv(s: State, f: Folder)
    requires Inv(s) && Enabled(s, OpenContext(f))
    ensures Inv(Apply(s, OpenContext(f)))
  {
    var t := Apply(s, OpenContext(f));
    assert GoodCheckpoint(s, f, s.checkpoints[f]);
    LoadedIsStored(s, f, s.checkpoints[f]);
    forall a | a in t.runs ensures GoodRun(t, a, t.runs[a]) { SameRun(s, t, a, s.runs[a]); }
    SameCheckpoints(s, t);
  }

  lemma ForgetKeepsInv(s: State)
    requires Inv(s)
    ensures Inv(s.(contexts := map[], job := None))
  {
    var t := s.(contexts := map[], job := None);
    forall a | a in t.runs ensures GoodRun(t, a, t.runs[a]) { SameRun(s, t, a, s.runs[a]); }
    SameCheckpoints(s, t);
  }

  /** One step of anyone keeps the invariant. */
  lemma StepKeepsInv(s: State, e: Event)
    requires Inv(s) && Enabled(s, e)
    ensures Inv(Apply(s, e))
  {
    match e
    case NewGeneration(f, g) => ServerKeepsInv(s, f, g);
    case FixStart(_, _) => BoundaryKeepsInv(s, e);
    case OpenContext(f) => OpenKeepsInv(s, f);
    case Restart(_, _, _) => BoundaryKeepsInv(s, e);
    case Remember(_, _) => BoundaryKeepsInv(s, e);
    case StoreRun(account, run) => StoreRunKeepsInv(s, account, run);
    case ChangeRun(account, c) => ChangeRunKeepsInv(s, account, c);
    case Processed(j) => ProcessedKeepsInv(s, j);
    case Complete(fromPoll) => CompleteKeepsInv(s, fromPoll);
    case Forget => ForgetKeepsInv(s);
  }

  // ------------------------------------------------------------- all runs

  lemma {:induction false} RunKeepsInvariant(s: State, es: seq<Event>)
    requires Inv(s) && Allowed(s, es)
    ensures Inv(Execute(s, es))
    decreases |es|
  {
    if es != [] {
      StepKeepsInv(s, es[0]);
      RunKeepsInvariant(Apply(s, es[0]), es[1..]);
    }
  }

  /**
   From an empty store, over every run with crashes, restarts and new generations:
   each checkpoint is valid, with separated ranges, and every UID in them was
   processed in the checkpoint's own generation by a result that neither failed nor waits.
   */
  lemma EveryRunIsSound(server: map<Folder, nat>, es: seq<Event>, f: Folder)
    requires var s := State(server, map[], map[], map[], None, {});
      Allowed(s, es) && f in Execute(s, es).checkpoints
    ensures var t := Execute(State(server, map[], map[], map[], None, {}), es);
      && ValidCheckpoint(t.checkpoints[f]) && Ordered(t.checkpoints[f].ranges, Floor(t.checkpoints[f]), 1)
      && Sound(t, f, t.checkpoints[f])
  {
    var s := State(server, map[], map[], map[], None, {});
    InitialInv(server);
    RunKeepsInvariant(s, es);
    var cp := Execute(s, es).checkpoints[f];
    GapOneIsOrdered(cp.ranges, Floor(cp), 1);
  }

  /** Mail that was not finished in the current generation is never hidden by the checkpoint. */
  lemma UnfinishedStaysDiscoverable(s: State, k: Key)
    requires Inv(s) && FolderOf(k) in s.contexts && k.uidvalidity <= Server(s, FolderOf(k))
    requires s.contexts[FolderOf(k)].checkpoint.uidvalidity == Some(k.uidvalidity)
    requires k.uid > Floor(s.contexts[FolderOf(k)].checkpoint)
    requires Job(FolderOf(k), k.uidvalidity, k.uid) !in s.finished
    ensures Discoverable(s, k)
  {
    assert GoodCheckpoint(s, FolderOf(k), s.checkpoints[FolderOf(k)]);
  }

  /** How far a folder is: the generation, which only grows, and within it the finished UIDs. */
  ghost predicate NotBehind(a: Checkpoint, b: Checkpoint) {
    a.uidvalidity.Some? ==> (
      && b.uidvalidity.Some? && a.uidvalidity.value <= b.uidvalidity.value
      && (a.uidvalidity == b.uidvalidity ==> forall u :: Contains(a.ranges, u) ==> Contains(b.ranges, u)))
  }

  lemma NotBehindTransitive(a: Checkpoint, b: Checkpoint, c: Checkpoint)
    requires NotBehind(a, b) && NotBehind(b, c)
    ensures NotBehind(a, c)
  {
  }

  lemma StepNotBehind(s: State, e: Event, f: Folder)
    requires Inv(s) && Enabled(s, e) && f in s.checkpoints
    ensures f in Apply(s, e).checkpoints && NotBehind(s.checkpoints[f], Apply(s, e).checkpoints[f])
  {
    var cp := s.checkpoints[f];
    assert GoodCheckpoint(s, f, cp);
    match e
    case Complete(fromPoll) => CompleteNotBehind(s, fromPoll, f);
    case _ =>
  }

  lemma CompleteNotBehind(s: State, fromPoll: bool, f: Folder)
    requires Inv(s) && Enabled(s, Complete(fromPoll)) && f in s.checkpoints
    ensures var t := Apply(s, Complete(fromPoll)); f in t.checkpoints && NotBehind(s.checkpoints[f], t.checkpoints[f])
  {
    var j := s.job.value;
    CompletedJobIs(s, fromPoll);
    var cp := s.checkpoints[j.folder];
    assert GoodCheckpoint(s, j.folder, cp);
    if j.folder == f && j.uid > Floor(cp) {
      AddedIsExact(cp.ranges, j.uid, Floor(cp), 1);
    }
  }

  /** No crash, restart or repetition ever loses finished mail of the current generation. */
  lemma {:induction false} ProgressIsKept(s: State, es: seq<Event>, f: Folder)
    requires Inv(s) && Allowed(s, es) && f in s.checkpoints
    ensures f in Execute(s, es).checkpoints && NotBehind(s.checkpoints[f], Execute(s, es).checkpoints[f])
    decreases |es|
  {
    if es != [] {
      StepKeepsInv(s, es[0]);
      StepNotBehind(s, es[0], f);
      var t := Apply(s, es[0]);
      ProgressIsKept(t, es[1..], f);
      NotBehindTransitive(s.checkpoints[f], t.checkpoints[f], Execute(t, es[1..]).checkpoints[f]);
    }
  }
}
