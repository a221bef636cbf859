/** Restoring a store from its changelog: internal/runtime/restore.go and the checkpoint steps of
    `openTask` and `closeTask` in internal/runtime/task_manager.go. The broker is a log indexed by
    offset; polls arrive as a script, so every chunking and every timeout is covered. */
module Restore {
  import opened Wrappers
  import opened ByteOrder
  import opened Changelog
  import opened Collections
  import CK = CompositeKey
  import Stores

  /** What a read-committed consumer sees at an offset. Aborted records, transaction markers and offsets
      removed by compaction are hidden. An empty value is a tombstone. */
  datatype Entry = Visible(key: Bytes, value: Bytes) | Hidden

  type Log = seq<Entry>

  /** One return of `PollFetches`: the visible records between the cursor and `upTo` together with the
      last stable offset, the confirm deadline, a closed client, or an error. A deadline before the last
      stable offset has been confirmed is the caller's own deadline, which is an error. */
  datatype Poll = Fetch(upTo: nat, lso: int) | Deadline | ClientClosed | Failed

  /** The mutations of the visible records in `[a, b)`. */
  function Mutations(log: Log, a: nat, b: nat): seq<Mutation>
    requires b <= |log|
  {
    if b <= a then []
    else Mutations(log, a, b - 1)
         + if log[b - 1].Visible? then [Restored(Mutation(log[b - 1].key, Some(log[b - 1].value)))] else []
  }

  /** The last visible offset in `[a, b)`, or -1. */
  function LastVisible(log: Log, a: nat, b: nat): (o: int)
    requires b <= |log|
    ensures o == -1 || (a <= o < b && log[o].Visible?)
    ensures forall i :: a <= i < b && log[i].Visible? ==> i <= o
  {
    if b <= a then -1 else if log[b - 1].Visible? then b - 1 else LastVisible(log, a, b - 1)
  }

  predicate NoneVisible(log: Log, a: nat, b: nat)
    requires b <= |log|
  {
    forall i :: a <= i < b ==> log[i].Hidden?
  }

  lemma {:induction false} MutationsNone(log: Log, a: nat, b: nat)
    requires b <= |log|
    ensures NoneVisible(log, a, b) <==> Mutations(log, a, b) == []
  {
    if a < b { MutationsNone(log, a, b - 1); }
  }

  lemma {:induction false} MutationsConcat(log: Log, a: nat, b: nat, c: nat)
    requires a <= b <= c <= |log|
    ensures Mutations(log, a, c) == Mutations(log, a, b) + Mutations(log, b, c)
  {
    if b < c { MutationsConcat(log, a, b, c - 1); }
  }

  lemma {:induction false} MutationsOfPrefix(log: Log, log': Log, a: nat, b: nat)
    requires log <= log' && b <= |log|
    ensures Mutations(log', a, b) == Mutations(log, a, b)
  {
    if a < b { MutationsOfPrefix(log, log', a, b - 1); }
  }

  /** Where the records up to `b` end: everything after the last visible one adds nothing. */
  lemma MutationsUpToLast(log: Log, a: nat, b: nat)
    requires a <= b <= |log| && LastVisible(log, a, b) >= 0
    ensures Mutations(log, a, LastVisible(log, a, b) + 1) == Mutations(log, a, b)
  {
    var c := LastVisible(log, a, b) + 1;
    MutationsConcat(log, a, c, b);
    MutationsNone(log, c, b);
  }

  // The poll loop.

  /** How the loop ends: at a cursor, with what is known about the last stable offset, or in an error. */
  datatype Ending = Stopped(end: nat, resolved: bool) | Aborted

  /** Fetches move the cursor forward within the log. */
  predicate Delivers(log: Log, cursor: nat, polls: seq<Poll>)
    decreases |polls|
  {
    polls == []
    || (if polls[0].Fetch? then cursor <= polls[0].upTo <= |log| && Delivers(log, polls[0].upTo, polls[1..])
        else Delivers(log, cursor, polls[1..]))
  }

  /** A script that ends without a decision is the caller's context ending. */
  function Drive(log: Log, hw: int, start: nat, cursor: nat, resolved: bool, polls: seq<Poll>): (e: Ending)
    requires start <= cursor <= |log| && Delivers(log, cursor, polls)
    ensures e.Stopped? ==> cursor <= e.end <= |log|
    decreases |polls|
  {
    if polls == [] then Aborted
    else match polls[0]
      case Failed => Aborted
      case Deadline => if resolved then Stopped(cursor, resolved) else Aborted
      case ClientClosed => Stopped(cursor, resolved)
      case Fetch(upTo, lso) =>
        var resolved' := resolved || lso >= hw;
        if LastVisible(log, start, upTo) >= hw - 1 then Stopped(upTo, resolved')
        else Drive(log, hw, start, upTo, resolved', polls[1..])
  }

  /** The loop gives up, by the confirm deadline or a closed client, only when no visible record below
      the high-watermark is left. */
  predicate Fair(log: Log, hw: nat, cursor: nat, polls: seq<Poll>)
    requires hw <= |log| && Delivers(log, cursor, polls)
    decreases |polls|
  {
    polls == []
    || match polls[0]
       case Failed => true
       case Fetch(upTo, _) => Fair(log, hw, upTo, polls[1..])
       case Deadline => NoneVisible(log, cursor, hw)
       case ClientClosed => NoneVisible(log, cursor, hw)
  }

  lemma {:induction false} FairDriveDrains(log: Log, hw: nat, start: nat, cursor: nat, resolved: bool, polls: seq<Poll>)
    requires start <= cursor <= |log| && hw <= |log| && Delivers(log, cursor, polls) && Fair(log, hw, cursor, polls)
    ensures var e := Drive(log, hw, start, cursor, resolved, polls); e.Stopped? ==> NoneVisible(log, e.end, hw)
    decreases |polls|
  {
    if polls != [] && polls[0].Fetch? && !(LastVisible(log, start, polls[0].upTo) >= hw - 1) {
      FairDriveDrains(log, hw, start, polls[0].upTo, resolved || polls[0].lso >= hw, polls[1..]);
    }
  }

  /** A fetch that leaves the last visible offset below `hw - 1`. */
  predicate GoesOn(log: Log, hw: int, start: nat, p: Poll) {
    p.Fetch? && p.upTo <= |log| && LastVisible(log, start, p.upTo) < hw - 1
  }

  /** The last stable offset is known to cover the high-watermark before poll `i`. */
  predicate Resolved(hw: int, resolved: bool, polls: seq<Poll>, i: nat)
    requires i <= |polls|
  {
    resolved || exists j :: 0 <= j < i && polls[j].Fetch? && polls[j].lso >= hw
  }

  /** How the loop ends, by the broker's answers: the first one that is not a fetch below `hw - 1` decides, and
      nothing after it matters. A fetch that reaches `hw - 1` ends the loop there. */
  lemma {:induction false} FirstOtherPollDecides(log: Log, hw: int, start: nat, cursor: nat, resolved: bool,
                                                 polls: seq<Poll>, i: nat)
    requires start <= cursor <= |log| && Delivers(log, cursor, polls) && i <= |polls|
    requires forall j :: 0 <= j < i ==> GoesOn(log, hw, start, polls[j])
    requires i < |polls| ==> !GoesOn(log, hw, start, polls[i])
    ensures var e := Drive(log, hw, start, cursor, resolved, polls);
      var at := if i > 0 && GoesOn(log, hw, start, polls[i - 1]) then polls[i - 1].upTo else cursor;
      var known := Resolved(hw, resolved, polls, i);
      if i == |polls| || polls[i].Failed? then e == Aborted
      else if polls[i].Deadline? then e == if known then Stopped(at, true) else Aborted
      else if polls[i].ClientClosed? then e == Stopped(at, known)
      else e == Stopped(polls[i].upTo, known || polls[i].lso >= hw)
    decreases |polls|
  {
    if i > 0 {
      var rest, resolved' := polls[1..], resolved || polls[0].lso >= hw;
      FirstOtherPollDecides(log, hw, start, polls[0].upTo, resolved', rest, i - 1);
      ResolvedNext(hw, resolved, polls, i);
    }
  }

  lemma ResolvedNext(hw: int, resolved: bool, polls: seq<Poll>, i: nat)
    requires 0 < i <= |polls| && polls[0].Fetch?
    ensures Resolved(hw, resolved || polls[0].lso >= hw, polls[1..], i - 1) <==> Resolved(hw, resolved, polls, i)
  {
    if j :| 0 <= j < i && polls[j].Fetch? && polls[j].lso >= hw {
      if j > 0 { assert polls[1..][j - 1] == polls[j]; }
    }
  }

  // The whole call.

  /** The backend as one store sees it. */
  datatype State = State(data: Contents, checkpoint: Option<int>)

  datatype Outcome = Done(highWatermark: int) | Error

  /** What the broker answers: the log, its high-watermark and earliest offset, the stable offset the
      probe reports, and the polls. */
  datatype Broker = Broker(log: Log, hw: nat, earliest: nat, probe: int, polls: seq<Poll>) {
    predicate Valid(start: nat) {
      earliest <= hw <= |log| && (start <= |log| ==> Delivers(log, start, polls))
    }
  }

  /** `checkpoint + 1` in wrapping int64 arithmetic, not below the earliest offset. */
  function StartOffset(checkpoint: CK.Int64, earliest: nat): (start: nat) {
    var next: int := CK.Next(checkpoint);
    if next < earliest then earliest else next
  }

  /** Past the checkpoint, unless adding one wraps. */
  lemma StartPasses(checkpoint: CK.Int64, earliest: nat)
    ensures checkpoint < CK.MAX_INT64 ==> StartOffset(checkpoint, earliest) == Max(checkpoint + 1, earliest)
    ensures StartOffset(CK.MAX_INT64, earliest) == earliest
  {
  }

  function Ended(b: Broker, start: nat): Ending
    requires b.Valid(start) && start < b.hw
  {
    Drive(b.log, b.hw, start, start, b.probe >= b.hw, b.polls)
  }

  function Finish(s: State, b: Broker, start: nat, e: Ending): State
    requires e.Stopped? ==> e.end <= |b.log|
  {
    if e.Aborted? then s
    else
      var last := LastVisible(b.log, start, e.end);
      if last < 0 then State(s.data, if e.resolved then Some(b.hw - 1) else s.checkpoint)
      else State(Replay(s.data, Mutations(b.log, start, e.end)), Some(last))
  }

  function Restoring(s: State, b: Broker, checkpoint: CK.Int64): State
    requires b.Valid(StartOffset(checkpoint, b.earliest))
  {
    var start := StartOffset(checkpoint, b.earliest);
    if start >= b.hw then s else Finish(s, b, start, Ended(b, start))
  }

  /** The loop got through and has a checkpoint to write. */
  predicate Writes(b: Broker, start: nat)
    requires b.Valid(start) && start < b.hw
  {
    var e := Ended(b, start);
    e.Stopped? && (e.resolved || LastVisible(b.log, start, e.end) >= 0)
  }

  /** The log is delivered: poll `i` is the first that brings the last visible offset to `hw - 1`, and the ones
      before it are fetches. */
  predicate DeliveredBy(b: Broker, start: nat, i: nat) {
    && i < |b.polls| && b.polls[i].Fetch? && b.polls[i].upTo <= |b.log|
    && LastVisible(b.log, start, b.polls[i].upTo) >= b.hw - 1
    && forall j :: 0 <= j < i ==> GoesOn(b.log, b.hw, start, b.polls[j])
  }

  /** A log that is delivered up to `hw - 1` is restored, whatever would follow: the data is the replay of its
      visible records, and the checkpoint is the last of them. */
  lemma DeliveredIsRestored(s: State, b: Broker, checkpoint: CK.Int64, i: nat)
    requires b.Valid(StartOffset(checkpoint, b.earliest)) && StartOffset(checkpoint, b.earliest) < b.hw
    requires DeliveredBy(b, StartOffset(checkpoint, b.earliest), i)
    ensures var start, upTo := StartOffset(checkpoint, b.earliest), b.polls[i].upTo;
      && Ended(b, start).Stopped?
      && Restoring(s, b, checkpoint)
         == State(Replay(s.data, Mutations(b.log, start, upTo)), Some(LastVisible(b.log, start, upTo)))
  {
    var start := StartOffset(checkpoint, b.earliest);
    FirstOtherPollDecides(b.log, b.hw, start, start, b.probe >= b.hw, b.polls, i);
  }

  /** `RestoreFromChangelog`, on the backend. A log that is delivered up to the high-watermark is restored. */
  method RestoreFromChangelog(db: Stores.Database, storeName: Bytes, b: Broker, checkpoint: CK.Int64)
    returns (r: Outcome)
    requires b.Valid(StartOffset(checkpoint, b.earliest))
    modifies db`data, db`checkpoints
    ensures !db.closed ==>
              State(db.data, Lookup(db.checkpoints, storeName))
              == Restoring(State(old(db.data), old(Lookup(db.checkpoints, storeName))), b, checkpoint)
    ensures db.closed ==> db.data == old(db.data) && db.checkpoints == old(db.checkpoints)
    ensures forall name :: name != storeName ==> Lookup(db.checkpoints, name) == old(Lookup(db.checkpoints, name))
    ensures r == var start := StartOffset(checkpoint, b.earliest);
                 if start < b.hw && (Ended(b, start).Aborted? || (db.closed && Writes(b, start))) then Error
                 else Done(b.hw)
    ensures !db.closed ==> CallRestores(b, StartOffset(checkpoint, b.earliest), old(db.data), r, db.data,
                                        Lookup(db.checkpoints, storeName))
  {
    CallRestoresDelivered(State(db.data, Lookup(db.checkpoints, storeName)), b, checkpoint);
    var start: int := CK.Next(checkpoint);
    if start < b.earliest { start := b.earliest; }
    if b.hw == 0 || start >= b.hw { return Done(b.hw); }
    var ok, last, mutations, resolved := Consume(b, start);
    if !ok { return Error; }
    if last < 0 {
      if resolved {
        ok := db.Restore(storeName, [], b.hw - 1);
        if !ok { return Error; }
      }
      return Done(b.hw);
    }
    ok := db.Restore(storeName, mutations, last);
    return if ok then Done(b.hw) else Error;
  }

  /** Whichever poll delivers the log, the call succeeds with its visible records and their last offset. */
  ghost predicate CallRestores(b: Broker, start: nat, before: Contents, r: Outcome, data: Contents,
                               checkpoint: Option<int>) {
    start < b.hw ==> forall i: nat :: DeliveredBy(b, start, i) ==>
      var upTo := b.polls[i].upTo;
      && r == Done(b.hw) && data == Replay(before, Mutations(b.log, start, upTo))
      && checkpoint == Some(LastVisible(b.log, start, upTo))
  }

  lemma CallRestoresDelivered(s: State, b: Broker, checkpoint: CK.Int64)
    requires b.Valid(StartOffset(checkpoint, b.earliest))
    ensures var start, s' := StartOffset(checkpoint, b.earliest), Restoring(s, b, checkpoint);
      CallRestores(b, start, s.data, if start < b.hw && Ended(b, start).Aborted? then Error else Done(b.hw),
                   s'.data, s'.checkpoint)
  {
    var start := StartOffset(checkpoint, b.earliest);
    if start < b.hw {
      forall i: nat | DeliveredBy(b, start, i)
        ensures var upTo := b.polls[i].upTo;
          && Ended(b, start).Stopped?
          && Restoring(s, b, checkpoint)
             == State(Replay(s.data, Mutations(b.log, start, upTo)), Some(LastVisible(b.log, start, upTo)))
      {
        DeliveredIsRestored(s, b, checkpoint, i);
      }
    }
  }

  /** The poll loop. */
  method Consume(b: Broker, start: nat) returns (ok: bool, last: int, mutations: seq<Mutation>, resolved: bool)
    requires b.Valid(start) && start < b.hw
    ensures ok == Ended(b, start).Stopped?
    ensures ok ==> var e := Ended(b, start);
      resolved == e.resolved && last == LastVisible(b.log, start, e.end) && mutations == Mutations(b.log, start, e.end)
  {
    var cursor := start;
    last, mutations, resolved := -1, [], b.probe >= b.hw;
    for i := 0 to |b.polls|
      invariant start <= cursor <= |b.log| && Delivers(b.log, cursor, b.polls[i..])
      invariant last == LastVisible(b.log, start, cursor) && mutations == Mutations(b.log, start, cursor)
      invariant Ended(b, start) == Drive(b.log, b.hw, start, cursor, resolved, b.polls[i..])
    {
      var p := b.polls[i];
      assert b.polls[i..][0] == p && b.polls[i..][1..] == b.polls[i + 1..];
      if p.Deadline? && resolved { return true, last, mutations, resolved; }
      if p.ClientClosed? { return true, last, mutations, resolved; }
      if !p.Fetch? { return false, last, mutations, resolved; }
      last, mutations := ApplyFetch(b.log, start, cursor, p.upTo, last, mutations);
      cursor := p.upTo;
      resolved := resolved || p.lso >= b.hw;
      if last >= b.hw - 1 { return true, last, mutations, resolved; }
    }
    ok := false;
  }

  /** `applyFetches`: one mutation per record, an empty value as a tombstone. */
  method ApplyFetch(log: Log, ghost start: nat, cursor: nat, upTo: nat, last0: int, mutations0: seq<Mutation>)
    returns (last: int, mutations: seq<Mutation>)
    requires start <= cursor <= upTo <= |log|
    requires last0 == LastVisible(log, start, cursor) && mutations0 == Mutations(log, start, cursor)
    ensures last == LastVisible(log, start, upTo) && mutations == Mutations(log, start, upTo)
  {
    last, mutations := last0, mutations0;
    for o := cursor to upTo
      invariant last == LastVisible(log, start, o) && mutations == Mutations(log, start, o)
    {
      if log[o].Visible? {
        var value := if log[o].value == [] then None else Some(log[o].value);
        mutations := mutations + [Mutation(log[o].key, value)];
        last := o;
      }
    }
  }

  // What restoring achieves.

  /** The backend holds everything up to its checkpoint: `data` is `base` with the visible records of
      `[from, checkpoint]` replayed. */
  ghost predicate Holds(base: Contents, log: Log, from: nat, s: State) {
    && s.checkpoint.Some? && 0 <= s.checkpoint.value < |log|
    && s.data == Replay(base, Mutations(log, from, s.checkpoint.value + 1))
  }

  /** The call reaches the loop, which gives up only when nothing visible is left, and writes a
      checkpoint. */
  predicate Completes(b: Broker, start: nat) {
    b.Valid(start) && start < b.hw && Fair(b.log, b.hw, start, b.polls) && Writes(b, start)
  }

  /** `s'` follows `s` by replaying `[start, till)`, and its checkpoint matches its data and leaves
      nothing visible below `hw` behind. */
  ghost predicate Restores(s: State, s': State, log: Log, start: nat, till: nat, hw: nat)
    requires till <= |log| && hw <= |log|
  {
    && s'.data == Replay(s.data, Mutations(log, start, till))
    && Holds(s.data, log, start, s')
    && start <= s'.checkpoint.value
    && NoneVisible(log, s'.checkpoint.value + 1, hw)
  }

  lemma TailAddsNothing(log: Log, a: nat, b: nat, c: nat)
    requires a <= b <= |log| && c <= |log| && NoneVisible(log, b, c)
    ensures Mutations(log, a, Max(b, c)) == Mutations(log, a, b)
  {
    if b <= c {
      MutationsConcat(log, a, b, c);
      MutationsNone(log, b, c);
    }
  }

  lemma FinishRestores(s: State, b: Broker, start: nat, e: Ending)
    requires start < b.hw <= |b.log| && e.Stopped? && start <= e.end <= |b.log|
    requires e.resolved || LastVisible(b.log, start, e.end) >= 0
    requires NoneVisible(b.log, e.end, b.hw)
    ensures Restores(s, Finish(s, b, start, e), b.log, start, Max(e.end, b.hw), b.hw)
  {
    if LastVisible(b.log, start, e.end) >= 0 {
      UpToLast(b.log, start, e.end, b.hw);
    } else {
      NothingVisible(b.log, start, e.end, b.hw);
    }
  }

  /** Everything up to the last visible record, and nothing visible after it. */
  lemma UpToLast(log: Log, start: nat, end: nat, hw: nat)
    requires start <= end <= |log| && hw <= |log| && LastVisible(log, start, end) >= 0 && NoneVisible(log, end, hw)
    ensures Mutations(log, start, LastVisible(log, start, end) + 1) == Mutations(log, start, end)
    ensures Mutations(log, start, Max(end, hw)) == Mutations(log, start, end)
    ensures NoneVisible(log, LastVisible(log, start, end) + 1, hw)
  {
    TailAddsNothing(log, start, end, hw);
    MutationsUpToLast(log, start, end);
    forall i | LastVisible(log, start, end) + 1 <= i < hw ensures log[i].Hidden? {}
  }

  lemma NothingVisible(log: Log, a: nat, b: nat, c: nat)
    requires a <= b <= |log| && c <= |log| && LastVisible(log, a, b) < 0 && NoneVisible(log, b, c)
    ensures Mutations(log, a, b) == [] && Mutations(log, a, c) == [] && Mutations(log, a, Max(b, c)) == []
  {
    assert NoneVisible(log, a, b) && NoneVisible(log, a, c);
    MutationsNone(log, a, b);
    MutationsNone(log, a, c);
  }

  /** A restore that completes leaves the replay of all visible records from the start offset; no visible
      record lies between the checkpoint it writes and the high-watermark; the data matches the
      checkpoint exactly; and the checkpoint moves forward unless the caller's one wrapped. */
  lemma RestoreComplete(s: State, b: Broker, checkpoint: CK.Int64)
    requires Completes(b, StartOffset(checkpoint, b.earliest))
    ensures var start, s' := StartOffset(checkpoint, b.earliest), Restoring(s, b, checkpoint);
      && Restores(s, s', b.log, start, Max(Ended(b, start).end, b.hw), b.hw)
      && (checkpoint < CK.MAX_INT64 ==> checkpoint < s'.checkpoint.value)
  {
    StartPasses(checkpoint, b.earliest);
    CompletedRestores(s, b, StartOffset(checkpoint, b.earliest));
  }

  lemma CompletedRestores(s: State, b: Broker, start: nat)
    requires Completes(b, start)
    ensures Restores(s, Finish(s, b, start, Ended(b, start)), b.log, start, Max(Ended(b, start).end, b.hw), b.hw)
  {
    FairDriveDrains(b.log, b.hw, start, start, b.probe >= b.hw, b.polls);
    FinishRestores(s, b, start, Ended(b, start));
  }

  /** Two restores in a row are one. */
  lemma RestoresCompose(base: Contents, s: State, s': State, log: Log, from: nat, till: nat, hw: nat)
    requires hw <= |log| && Holds(base, log, from, s) && from <= s.checkpoint.value + 1 <= till <= |log|
    requires Restores(s, s', log, s.checkpoint.value + 1, till, hw)
    ensures Restores(State(base, None), s', log, from, till, hw)
  {
    var start: nat := s.checkpoint.value + 1;
    MutationsConcat(log, from, start, till);
    ReplayConcat(base, Mutations(log, from, start), Mutations(log, start, till));
    MutationsConcat(log, from, start, s'.checkpoint.value + 1);
    ReplayConcat(base, Mutations(log, from, start), Mutations(log, start, s'.checkpoint.value + 1));
  }

  /** Resuming from the written checkpoint, on a log that may have grown, is one longer restore: no
      record is skipped, and the checkpoint moves forward. */
  lemma RestoreResumes(base: Contents, s: State, b: Broker, from: nat)
    requires Holds(base, b.log, from, s) && from <= s.checkpoint.value + 1 && s.checkpoint.value < CK.MAX_INT64
    requires b.earliest <= s.checkpoint.value + 1 && Completes(b, s.checkpoint.value + 1)
    ensures var s' := Restoring(s, b, s.checkpoint.value);
      && Restores(State(base, None), s', b.log, from, Max(Ended(b, s.checkpoint.value + 1).end, b.hw), b.hw)
      && s.checkpoint.value < s'.checkpoint.value
  {
    var start: nat := s.checkpoint.value + 1;
    StartPasses(s.checkpoint.value, b.earliest);
    ResumedRestores(base, s, b, from, start);
  }

  lemma ResumedRestores(base: Contents, s: State, b: Broker, from: nat, start: nat)
    requires Holds(base, b.log, from, s) && from <= s.checkpoint.value + 1 == start && Completes(b, start)
    ensures var s' := Finish(s, b, start, Ended(b, start));
      && Restores(State(base, None), s', b.log, from, Max(Ended(b, start).end, b.hw), b.hw)
      && s.checkpoint.value < s'.checkpoint.value
  {
    CompletedRestores(s, b, start);
    RestoresCompose(base, s, Finish(s, b, start, Ended(b, start)), b.log, from, Max(Ended(b, start).end, b.hw), b.hw);
  }

  /** Restoring again from the written checkpoint, whatever the polls do, changes no data when nothing was
      appended above the high-watermark, and never lowers the checkpoint. */
  lemma RestoreAgain(s: State, b: Broker, b': Broker, checkpoint: CK.Int64)
    requires Completes(b, StartOffset(checkpoint, b.earliest)) && b.hw == |b.log| < CK.MAX_INT64
    requires b'.log == b.log && b'.hw == b.hw && b'.earliest == b.earliest
    requires var s' := Restoring(s, b, checkpoint);
      s'.checkpoint.Some? && 0 <= s'.checkpoint.value < b.hw && b'.Valid(StartOffset(s'.checkpoint.value, b'.earliest))
    ensures var s' := Restoring(s, b, checkpoint);
      var s'' := Restoring(s', b', s'.checkpoint.value);
      s''.data == s'.data && s''.checkpoint.Some? && s''.checkpoint.value >= s'.checkpoint.value
  {
    RestoreComplete(s, b, checkpoint);
    NothingLeft(Restoring(s, b, checkpoint), b');
  }

  lemma NothingLeft(s: State, b: Broker)
    requires s.checkpoint.Some? && 0 <= s.checkpoint.value < b.hw == |b.log| < CK.MAX_INT64
    requires b.Valid(StartOffset(s.checkpoint.value, b.earliest)) && NoneVisible(b.log, s.checkpoint.value + 1, b.hw)
    ensures var s' := Restoring(s, b, s.checkpoint.value);
      s'.data == s.data && s'.checkpoint.Some? && s'.checkpoint.value >= s.checkpoint.value
  {
    var start := StartOffset(s.checkpoint.value, b.earliest);
    if start < b.hw && Ended(b, start).Stopped? {
      assert LastVisible(b.log, start, Ended(b, start).end) == -1;
    }
  }

  // Whether the checkpoint is honest.

  /** The broker's answers end the loop, by the confirm deadline or a closed client, while the last stable
      offset is known to cover the high-watermark, nothing has been delivered, and something visible remains. */
  predicate Starves(log: Log, hw: nat, start: nat, cursor: nat, resolved: bool, polls: seq<Poll>)
    requires start <= cursor <= |log| && hw <= |log| && Delivers(log, cursor, polls)
    decreases |polls|
  {
    polls != []
    && match polls[0]
       case Failed => false
       case Deadline => resolved && LastVisible(log, start, cursor) < 0 && !NoneVisible(log, cursor, hw)
       case ClientClosed => resolved && LastVisible(log, start, cursor) < 0 && !NoneVisible(log, cursor, hw)
       case Fetch(upTo, lso) =>
         LastVisible(log, start, upTo) < 0 && Starves(log, hw, start, upTo, resolved || lso >= hw, polls[1..])
  }

  lemma {:induction false} StarvesIff(log: Log, hw: nat, start: nat, cursor: nat, resolved: bool, polls: seq<Poll>)
    requires start <= cursor <= |log| && start < hw <= |log| && Delivers(log, cursor, polls)
    ensures var e := Drive(log, hw, start, cursor, resolved, polls);
      Starves(log, hw, start, cursor, resolved, polls)
      <==> e.Stopped? && e.resolved && LastVisible(log, start, e.end) < 0 && !NoneVisible(log, e.end, hw)
    decreases |polls|
  {
    if polls != [] && polls[0].Fetch? {
      var upTo := polls[0].upTo;
      if LastVisible(log, start, upTo) < hw - 1 {
        StarvesIff(log, hw, start, upTo, resolved || polls[0].lso >= hw, polls[1..]);
        if LastVisible(log, start, upTo) >= 0 {
          LastVisibleStays(log, hw, start, upTo, resolved || polls[0].lso >= hw, polls[1..]);
        }
      }
    }
  }

  lemma {:induction false} LastVisibleStays(log: Log, hw: nat, start: nat, cursor: nat, resolved: bool,
                                            polls: seq<Poll>)
    requires start <= cursor <= |log| && Delivers(log, cursor, polls) && LastVisible(log, start, cursor) >= 0
    ensures var e := Drive(log, hw, start, cursor, resolved, polls); e.Stopped? ==> LastVisible(log, start, e.end) >= 0
    decreases |polls|
  {
    if polls != [] && polls[0].Fetch? {
      assert LastVisible(log, start, polls[0].upTo) >= LastVisible(log, start, cursor);
      if LastVisible(log, start, polls[0].upTo) < hw - 1 {
        LastVisibleStays(log, hw, start, polls[0].upTo, resolved || polls[0].lso >= hw, polls[1..]);
      }
    }
  }

  /** Every visible record up to the checkpoint was delivered before the loop ended. */
  predicate NothingSkipped(log: Log, start: nat, end: nat, checkpoint: nat)
    requires checkpoint < |log|
  {
    forall o :: start <= o <= checkpoint && log[o].Visible? ==> o < end
  }

  /** The checkpoint a call writes never runs ahead of the data if and only if the broker's answers do not
      starve it. The failing branch checkpoints `hw - 1` on an empty result: it trusts the last stable offset,
      not the way the loop ended. */
  lemma CheckpointHonestIff(s: State, b: Broker, checkpoint: CK.Int64)
    requires b.Valid(StartOffset(checkpoint, b.earliest)) && StartOffset(checkpoint, b.earliest) < b.hw
    ensures var start, s' := StartOffset(checkpoint, b.earliest), Restoring(s, b, checkpoint);
      && (Writes(b, start) ==> s'.checkpoint.Some? && start <= s'.checkpoint.value < |b.log|)
      && ((Writes(b, start) ==> NothingSkipped(b.log, start, Ended(b, start).end, s'.checkpoint.value))
          <==> !Starves(b.log, b.hw, start, start, b.probe >= b.hw, b.polls))
  {
    var start := StartOffset(checkpoint, b.earliest);
    StarvesIff(b.log, b.hw, start, start, b.probe >= b.hw, b.polls);
    var e := Ended(b, start);
    if e.Stopped? && !NoneVisible(b.log, e.end, b.hw) {
      var o :| e.end <= o < b.hw && b.log[o].Visible?;
    }
  }

  /** An instance: one committed record, the probe reports everything stable, and the first confirm poll times
      out. The call reports success, the record is not applied, the checkpoint says it was, and the next
      restore skips it. */
  lemma ConfirmTimeoutSkipsRecord(key: Bytes, value: Bytes, polls: seq<Poll>)
    requires value != [] && Delivers([Visible(key, value)], 1, polls)
    ensures var b := Broker([Visible(key, value)], 1, 0, 1, [Deadline]);
      var s := Restoring(State(map[], None), b, -1);
      && s == State(map[], Some(0))
      && Restoring(s, b.(polls := polls), 0) == s
      && Replay(map[], Mutations(b.log, 0, 1)) == map[key := value]
  {
    OneRecord(key, value);
  }

  lemma OneRecord(key: Bytes, value: Bytes)
    requires value != []
    ensures var log := [Visible(key, value)];
      Mutations(log, 0, 1) == [Mutation(key, Some(value))] && Replay(map[], Mutations(log, 0, 1)) == map[key := value]
  {
    var log := [Visible(key, value)];
    assert Mutations(log, 0, 0) == [];
    assert Mutations(log, 0, 1) == [Mutation(key, Some(value))];
    assert Mutations(log, 0, 1)[..0] == [];
  }

  // Closing a task.

  /** `closeTask` for one store: restore with MaxInt64, whose successor wraps to the earliest offset, then
      checkpoint `hw - 1` unless the restore failed or the log is empty. */
  function Closing(s: State, b: Broker): State
    requires b.Valid(b.earliest)
  {
    if b.hw == 0 || (b.earliest < b.hw && Ended(b, b.earliest).Aborted?) then s
    else State(Restoring(s, b, CK.MAX_INT64).data, Some(b.hw - 1))
  }

  method CloseStore(db: Stores.Database, storeName: Bytes, b: Broker)
    requires b.Valid(b.earliest)
    modifies db`data, db`checkpoints
    ensures !db.closed ==>
              State(db.data, Lookup(db.checkpoints, storeName))
              == Closing(State(old(db.data), old(Lookup(db.checkpoints, storeName))), b)
    ensures db.closed ==> db.data == old(db.data) && db.checkpoints == old(db.checkpoints)
    ensures forall name :: name != storeName ==> Lookup(db.checkpoints, name) == old(Lookup(db.checkpoints, name))
  {
    StartPasses(CK.MAX_INT64, b.earliest);
    var r := RestoreFromChangelog(db, storeName, b, CK.MAX_INT64);
    if r.Done? && r.highWatermark > 0 {
      var ok := db.WriteCheckpoint(storeName, r.highWatermark - 1);
    }
  }

  /** If the loop gives up only when nothing visible is left, closing a store that holds the first `n` records
      is harmless, although the whole retained log is replayed on top, and the checkpoint is the truth. */
  lemma FairCloseReplays(base: Contents, s: State, b: Broker, n: nat)
    requires Completes(b, b.earliest)
    requires b.earliest <= n <= b.hw && s.data == Replay(base, Mutations(b.log, 0, n))
    ensures var s', end := Closing(s, b), Ended(b, b.earliest).end;
      && s'.data == Replay(base, Mutations(b.log, 0, Max(end, b.hw)))
      && (end <= b.hw ==> Holds(base, b.log, 0, s'))
  {
    ClosingReplays(s, b);
    ClosedHolds(base, s, b.log, b.earliest, n, Max(Ended(b, b.earliest).end, b.hw), b.hw);
  }

  lemma ClosedHolds(base: Contents, s: State, log: Log, from: nat, n: nat, till: nat, hw: nat)
    requires from <= n <= hw <= till <= |log| && hw > 0 && s.data == Replay(base, Mutations(log, 0, n))
    ensures var s' := State(Replay(s.data, Mutations(log, from, till)), Some(hw - 1));
      s'.data == Replay(base, Mutations(log, 0, till)) && (till == hw ==> Holds(base, log, 0, s'))
  {
    OverlapOfLog(base, log, from, n, till);
  }

  lemma ClosingReplays(s: State, b: Broker)
    requires Completes(b, b.earliest)
    ensures Closing(s, b) == State(Replay(s.data, Mutations(b.log, b.earliest, Max(Ended(b, b.earliest).end, b.hw))),
                                   Some(b.hw - 1))
  {
    StartPasses(CK.MAX_INT64, b.earliest);
    var e := Ended(b, b.earliest);
    FairDriveDrains(b.log, b.hw, b.earliest, b.earliest, b.probe >= b.hw, b.polls);
    FinishData(s, b, b.earliest, e);
    TailAddsNothing(b.log, b.earliest, e.end, b.hw);
  }

  lemma OverlapOfLog(base: Contents, log: Log, from: nat, n: nat, till: nat)
    requires from <= n <= till <= |log|
    ensures Replay(Replay(base, Mutations(log, 0, n)), Mutations(log, from, till))
            == Replay(base, Mutations(log, 0, till))
  {
    MutationsConcat(log, 0, from, till);
    MutationsConcat(log, 0, n, till);
    MutationsConcat(log, 0, from, n);
    var all := Mutations(log, 0, till);
    var i, m := |Mutations(log, 0, from)|, |Mutations(log, 0, n)|;
    assert all[..m] == Mutations(log, 0, n) && all[i..] == Mutations(log, from, till);
    OverlappingReplay(base, all, i, m);
  }

  /** The broker's answers end the loop at an offset such that replaying up to it undoes a later write. */
  ghost predicate RollsBack(log: Log, hw: nat, start: nat, cursor: nat, resolved: bool, polls: seq<Poll>)
    requires start <= cursor <= |log| && hw <= |log| && Delivers(log, cursor, polls)
    decreases |polls|
  {
    polls != []
    && match polls[0]
       case Failed => false
       case Deadline => resolved && Undoes(log, start, cursor, hw)
       case ClientClosed => Undoes(log, start, cursor, hw)
       case Fetch(upTo, lso) =>
         if LastVisible(log, start, upTo) >= hw - 1 then false
         else RollsBack(log, hw, start, upTo, resolved || lso >= hw, polls[1..])
  }

  /** Some key's last write in `[a, b)` differs from its last write in `[b, c)`. */
  ghost predicate Undoes(log: Log, a: nat, b: nat, c: nat)
    requires b <= |log| && c <= |log|
  {
    !SameOutcomes(Mutations(log, a, b), Mutations(log, b, c))
  }

  lemma NothingToUndo(log: Log, a: nat, b: nat, c: nat)
    requires b <= |log| && c <= |log| && NoneVisible(log, b, c)
    ensures !Undoes(log, a, b, c)
  {
    MutationsNone(log, b, c);
  }

  lemma {:induction false} RollsBackIff(log: Log, hw: nat, start: nat, cursor: nat, resolved: bool, polls: seq<Poll>)
    requires start <= cursor <= |log| && hw <= |log| && Delivers(log, cursor, polls)
    ensures var e := Drive(log, hw, start, cursor, resolved, polls);
      RollsBack(log, hw, start, cursor, resolved, polls) <==> e.Stopped? && Undoes(log, start, e.end, hw)
    decreases |polls|
  {
    if polls != [] && polls[0].Fetch? {
      var upTo := polls[0].upTo;
      if LastVisible(log, start, upTo) >= hw - 1 {
        NothingToUndo(log, start, upTo, hw);
      } else {
        RollsBackIff(log, hw, start, upTo, resolved || polls[0].lso >= hw, polls[1..]);
      }
    }
  }

  /** How far the log was read: the high-watermark, or further if records above it were delivered. */
  function Read(b: Broker): (till: nat)
    requires b.Valid(b.earliest)
    ensures b.hw <= till <= |b.log|
  {
    if b.earliest < b.hw && Ended(b, b.earliest).Stopped? then Max(Ended(b, b.earliest).end, b.hw) else b.hw
  }

  /** Closing a store that holds the log up to the high-watermark, whatever the broker answers: it still holds
      it, and the checkpoint is the truth, if and only if the answers do not roll it back. */
  lemma CloseHarmlessIff(base: Contents, s: State, b: Broker)
    requires b.Valid(b.earliest) && s.data == Replay(base, Mutations(b.log, 0, b.hw))
    ensures Closing(s, b).data == Replay(base, Mutations(b.log, 0, Read(b)))
       <==> (b.earliest < b.hw ==> !RollsBack(b.log, b.hw, b.earliest, b.earliest, b.probe >= b.hw, b.polls))
  {
    StartPasses(CK.MAX_INT64, b.earliest);
    if b.earliest < b.hw {
      RollsBackIff(b.log, b.hw, b.earliest, b.earliest, b.probe >= b.hw, b.polls);
      var e := Ended(b, b.earliest);
      if e.Stopped? {
        FinishData(s, b, b.earliest, e);
        if e.end <= b.hw {
          StoppedReplay(base, s, b.log, b.earliest, e.end, b.hw);
        } else {
          OverlapOfLog(base, b.log, b.earliest, b.hw, e.end);
          NothingToUndo(b.log, b.earliest, e.end, b.hw);
        }
      }
    }
  }

  lemma FinishData(s: State, b: Broker, start: nat, e: Ending)
    requires e.Stopped? && start <= e.end <= |b.log|
    ensures Finish(s, b, start, e).data == Replay(s.data, Mutations(b.log, start, e.end))
  {
    MutationsNone(b.log, start, e.end);
  }

  lemma StoppedReplay(base: Contents, s: State, log: Log, from: nat, end: nat, hw: nat)
    requires from <= end <= hw <= |log| && s.data == Replay(base, Mutations(log, 0, hw))
    ensures Replay(s.data, Mutations(log, from, end)) == s.data <==> !Undoes(log, from, end, hw)
  {
    MutationsConcat(log, 0, end, hw);
    MutationsConcat(log, 0, from, end);
    RepeatHarmlessIff(base, Mutations(log, 0, from), Mutations(log, from, end), Mutations(log, end, hw));
  }

  /** An instance: two writes of one key, a first fetch with one of them, then a confirm timeout. The live store
      is rolled back to the first write, and the checkpoint makes that permanent. */
  lemma CloseRollsBack(key: Bytes)
    ensures var b := Broker([Visible(key, [1]), Visible(key, [2])], 2, 0, 2, [Fetch(1, 2), Deadline]);
      && Replay(map[], Mutations(b.log, 0, 2)) == map[key := [2]]
      && Closing(State(map[key := [2]], None), b) == State(map[key := [1]], Some(1))
  {
    var log := [Visible(key, [1]), Visible(key, [2])];
    var polls := [Fetch(1, 2), Deadline];
    assert polls[1..] == [Deadline];
    assert Mutations(log, 0, 0) == [];
    var one := Mutations(log, 0, 1);
    assert one == [Mutation(key, Some([1]))] && one[..0] == [];
    assert Mutations(log, 0, 2) == one + [Mutation(key, Some([2]))];
    ReplaySnoc(map[], one, Mutation(key, Some([2])));
    assert Replay(map[key := [2]], one) == map[key := [1]];
    assert LastVisible(log, 0, 1) == 0;
    assert StartOffset(CK.MAX_INT64, 0) == 0;
  }
}
