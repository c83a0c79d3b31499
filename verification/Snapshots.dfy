/**
 * Many members that snapshot into one directory while others purge it: every interleaving of listing,
 * reading the revision, copying, renaming and removing.
 */
module Snapshots {
  import opened Clock
  import opened FileStore
  import opened Metadata
  import opened Wrappers
  import Runs
  import Operators

  /** The size of a finished copy, and when it was finished. */
  datatype Written = Written(size: int, now: int)

  /** Where Snapshot is: `rev` is the revision it has read, `content` what the backend snapshot reached
      once it is taken, `tmp` its temporary file, which is `written` once the copy is finished. */
  datatype Pc =
    | Idle
    | Looked(minRev: int)
    | Named(rev: int, content: Option<int>)
    | Copying(rev: int, content: Option<int>, tmp: string, written: Option<Written>)

  /** A member with the revision it has applied. */
  datatype Writer = Writer(name: string, kv: int, pc: Pc)

  /** `used` are the temporary names handed out so far, `doomed` the names some purge has found expired. */
  datatype State = State(files: Files, writers: seq<Writer>, used: set<string>, doomed: set<string>)

  datatype Step =
    | Advance(w: nat, rev: int)
    | Look(w: nat, readable: bool, info: InfoResult)
    | Skip(w: nat)
    | ReadRevision(w: nat)
    | Freeze(w: nat)
    | Create(w: nat, random: string, now: int)
    | Fill(w: nat, size: int, now: int)
    | Rename(w: nat)
    | Abort(w: nat)
    | Crash(w: nat)
    | ListExpired(now: int, ttl: int)
    | Remove(name: string)

  function Current(w: Writer): Metadata
    requires w.pc.Named? || w.pc.Copying?
  {
    Metadata(w.name, w.pc.rev, -1)
  }

  /** The file that a rename leaves. */
  function Saved(pc: Pc): Entry
    requires pc.Copying? && pc.content.Some? && pc.written.Some?
  {
    File(pc.written.value.size, pc.written.value.now, pc.content.value, true)
  }

  function MinRev(info: InfoResult): int { if info.Found? then info.metadata.revision else 0 }

  predicate Enabled(s: State, step: Step) {
    match step
    case Advance(w, rev) => w < |s.writers| && s.writers[w].kv <= rev <= MAX_INT64
    case Look(w, readable, info) => w < |s.writers| && s.writers[w].pc.Idle? && IsInfo(s.files, readable, info)
    case Skip(w) => w < |s.writers| && s.writers[w].pc.Looked? && s.writers[w].kv <= s.writers[w].pc.minRev
    case ReadRevision(w) => w < |s.writers| && s.writers[w].pc.Looked? && s.writers[w].kv > s.writers[w].pc.minRev
    case Freeze(w) => w < |s.writers| && (s.writers[w].pc.Named? || s.writers[w].pc.Copying?) && s.writers[w].pc.content.None?
    case Create(w, random, now) =>
      && w < |s.writers| && s.writers[w].pc.Named? && IsRandom(random)
      && TempName(Current(s.writers[w]), random) !in s.files && TempName(Current(s.writers[w]), random) !in s.used
    case Fill(w, size, now) =>
      && w < |s.writers| && s.writers[w].pc.Copying? && s.writers[w].pc.content.Some? && s.writers[w].pc.written.None?
      && s.writers[w].pc.tmp in s.files
    case Rename(w) =>
      && w < |s.writers| && s.writers[w].pc.Copying? && s.writers[w].pc.content.Some? && s.writers[w].pc.written.Some?
      && s.writers[w].pc.tmp in s.files && !IsDirectory(s.files, Filename(Current(s.writers[w])))
    case Abort(w) => w < |s.writers| && (s.writers[w].pc.Named? || s.writers[w].pc.Copying?)
    case Crash(w) => w < |s.writers|
    case ListExpired(now, ttl) => true
    case Remove(name) => name in s.doomed && name in s.files
  }

  function With(s: State, w: nat, pc: Pc): State
    requires w < |s.writers|
  {
    s.(writers := s.writers[w := s.writers[w].(pc := pc)])
  }

  function Do(s: State, step: Step): State
    requires Enabled(s, step)
  {
    match step
    case Advance(w, rev) => s.(writers := s.writers[w := s.writers[w].(kv := rev)])
    case Look(w, _, info) => With(s, w, if info.Crashed? then Idle else Looked(MinRev(info)))
    case Skip(w) => With(s, w, Idle)
    case ReadRevision(w) => With(s, w, Named(s.writers[w].kv, None))
    case Freeze(w) => With(s, w, s.writers[w].pc.(content := Some(s.writers[w].kv)))
    case Create(w, random, now) =>
      var pc := s.writers[w].pc;
      var tmp := TempName(Current(s.writers[w]), random);
      With(s, w, Copying(pc.rev, pc.content, tmp, None)).(files := s.files[tmp := File(0, now, -1, false)], used := s.used + {tmp})
    case Fill(w, size, now) =>
      var pc := s.writers[w].pc;
      With(s, w, pc.(written := Some(Written(size, now)))).(
        files := s.files[pc.tmp := File(size, now, pc.content.value, false)])
    case Rename(w) =>
      With(s, w, Idle).(files := (s.files - {s.writers[w].pc.tmp})[Filename(Current(s.writers[w])) := Saved(s.writers[w].pc)])
    case Abort(w) =>
      With(s, w, Idle).(files := if s.writers[w].pc.Copying? then s.files - {s.writers[w].pc.tmp} else s.files)
    case Crash(w) => With(s, w, Idle)
    case ListExpired(now, ttl) => s.(doomed := s.doomed + set n | n in s.files && Expired(s.files[n], now, ttl))
    case Remove(name) => s.(files := s.files - {name})
  }

  // ---- runs ---------------------------------------------------------------------------------------

  /** A complete file: written by Save, labelled with a revision that its content reaches. */
  predicate Sound(n: string, e: Entry) {
    n != "" && n[|n| - 1] == 'p' && e.File? && Counts(n, e) && 0 <= Label(n) <= e.content
  }

  /** What was in the directory before is unfinished, foreign, or sound. */
  predicate Init(s: State) {
    && (forall n | n in s.files && s.files[n].File? && s.files[n].complete :: Sound(n, s.files[n]))
    && (forall w | 0 <= w < |s.writers| :: s.writers[w].pc.Idle? && 1 <= s.writers[w].kv <= MAX_INT64 && '_' !in s.writers[w].name)
    && s.used == {} && s.doomed == {}
  }

  /** The state after a step, if the step is possible. */
  function Next(s: State, step: Step): Option<State> { if Enabled(s, step) then Some(Do(s, step)) else None }

  function After(s: State, steps: seq<Step>, n: nat): State
    requires n <= |steps|
  {
    Runs.After(Next, s, steps, n)
  }

  predicate IsRun(s: State, steps: seq<Step>) { Init(s) && Runs.AllPossible(Next, s, steps) }

  lemma {:induction false} StepAt(s: State, steps: seq<Step>, n: nat)
    requires IsRun(s, steps) && n < |steps|
    ensures Enabled(After(s, steps, n), steps[n]) && After(s, steps, n + 1) == Do(After(s, steps, n), steps[n])
  {
    Runs.AfterNext(Next, s, steps, n);
  }

  // ---- invariant ------------------------------------------------------------------------------------

  predicate IsTemp(n: string) { n != "" && '0' <= n[|n| - 1] <= '9' }

  predicate WriterOk(w: Writer) {
    && 1 <= w.kv <= MAX_INT64 && '_' !in w.name
    && (w.pc.Named? || w.pc.Copying? ==> 1 <= w.pc.rev <= w.kv && (w.pc.content.Some? ==> w.pc.rev <= w.pc.content.value))
    && (w.pc.Copying? ==> IsTemp(w.pc.tmp) && Label(w.pc.tmp) == w.pc.rev)
  }

  predicate Inv(s: State) {
    && (forall n | n in s.files && s.files[n].File? && s.files[n].complete :: Sound(n, s.files[n]))
    && (forall w | 0 <= w < |s.writers| :: WriterOk(s.writers[w]))
  }

  /** The file that a rename leaves is sound. */
  lemma {:induction false} RenamedSound(w: Writer)
    requires WriterOk(w) && w.pc.Copying? && w.pc.content.Some? && w.pc.written.Some?
    ensures Sound(Filename(Current(w)), Saved(w.pc)) && Label(Filename(Current(w))) == w.pc.rev
  {
    LastChar(Current(w), "0");
    TempLabel(w.name, w.pc.rev, "0");
    SizeOnly(Filename(Current(w)), w.pc.written.value.size);
  }

  lemma {:induction false} StepWriters(s: State, step: Step, v: nat)
    requires Inv(s) && Enabled(s, step) && v < |s.writers|
    ensures |Do(s, step).writers| == |s.writers| && WriterOk(Do(s, step).writers[v])
  {
    assert WriterOk(s.writers[v]);
    if step.Create? {
      var w := s.writers[step.w];
      assert WriterOk(w);
      LastChar(Current(w), step.random);
      TempLabel(w.name, w.pc.rev, step.random);
    }
  }

  lemma {:induction false} StepInv(s: State, step: Step)
    requires Inv(s) && Enabled(s, step)
    ensures Inv(Do(s, step))
  {
    var t := Do(s, step);
    forall v | 0 <= v < |t.writers| ensures WriterOk(t.writers[v]) { StepWriters(s, step, v); }
    if step.Rename? {
      assert WriterOk(s.writers[step.w]);
      RenamedSound(s.writers[step.w]);
    }
  }

  lemma {:induction false} RunInv(s: State, steps: seq<Step>, n: nat)
    requires IsRun(s, steps) && n <= |steps|
    ensures Inv(After(s, steps, n))
  {
    if n == 0 {
      forall w | 0 <= w < |s.writers| ensures WriterOk(s.writers[w]) {}
    } else {
      RunInv(s, steps, n - 1);
      StepAt(s, steps, n - 1);
      StepInv(After(s, steps, n - 1), steps[n - 1]);
    }
  }

  /** Throughout every run the label of a complete snapshot is at most the revision it contains. */
  lemma {:induction false} LabelsAreReached(s: State, steps: seq<Step>, n: nat, name: string)
    requires IsRun(s, steps) && n <= |steps| && IsComplete(After(s, steps, n).files, name)
    ensures 0 <= Label(name) <= After(s, steps, n).files[name].content
  {
    RunInv(s, steps, n);
  }

  // ---- nothing complete is lost --------------------------------------------------------------------------

  lemma {:induction false} RenameKeeps(files: Files, tmp: string, n: string, e: Entry, name: string)
    requires IsComplete(files, name) && name != tmp && e.File? && e.complete && Counts(n, e)
    ensures IsComplete((files - {tmp})[n := e], name)
  {
  }

  lemma {:induction false} StepKeeps(s: State, step: Step, name: string)
    requires Inv(s) && Enabled(s, step) && IsComplete(s.files, name) && step != Remove(name)
    ensures IsComplete(Do(s, step).files, name)
  {
    assert Sound(name, s.files[name]);
    if step.Rename? {
      var w := s.writers[step.w];
      assert WriterOk(w);
      RenamedSound(w);
      RenameKeeps(s.files, w.pc.tmp, Filename(Current(w)), Saved(w.pc), name);
    } else if step.Abort? {
      assert WriterOk(s.writers[step.w]);
    }
  }

  /** A complete snapshot stays until a purge removes it: saving, in particular, never lowers the highest label. */
  lemma {:induction false} CompleteStays(s: State, steps: seq<Step>, i: nat, j: nat, name: string)
    requires IsRun(s, steps) && i <= j <= |steps| && IsComplete(After(s, steps, i).files, name)
    requires forall k | i <= k < j :: steps[k] != Remove(name)
    ensures IsComplete(After(s, steps, j).files, name)
    decreases j
  {
    if i < j {
      CompleteStays(s, steps, i, j - 1, name);
      RunInv(s, steps, j - 1);
      StepAt(s, steps, j - 1);
      StepKeeps(After(s, steps, j - 1), steps[j - 1], name);
    }
  }

  predicate RenamesTo(s: State, step: Step, name: string) {
    && step.Rename? && step.w < |s.writers| && s.writers[step.w].pc.Copying?
    && Filename(Current(s.writers[step.w])) == name
  }

  /** What a step does to one complete snapshot. */
  lemma {:induction false} StepStored(s: State, step: Step, name: string)
    requires Inv(s) && Enabled(s, step)
    ensures IsComplete(Do(s, step).files, name) <==>
              RenamesTo(s, step, name) || (IsComplete(s.files, name) && step != Remove(name))
  {
    if RenamesTo(s, step, name) {
      assert WriterOk(s.writers[step.w]);
      RenamedSound(s.writers[step.w]);
    } else if IsComplete(s.files, name) && step != Remove(name) {
      StepKeeps(s, step, name);
    }
  }

  /** Where the run saves a file, and where it removes it. */
  function Saves(s: State, steps: seq<Step>, name: string): seq<bool> {
    seq(|steps|, k requires 0 <= k < |steps| => RenamesTo(After(s, steps, k), steps[k], name))
  }

  function Removes(steps: seq<Step>, name: string): seq<bool> {
    seq(|steps|, k requires 0 <= k < |steps| => steps[k] == Remove(name))
  }

  predicate Untouched(removes: seq<bool>, i: nat, j: nat)
    requires j <= |removes|
  {
    forall k | i <= k < j :: !removes[k]
  }

  /** There at position i, or saved from there on, and not removed after that. */
  predicate StillThere(there: bool, saves: seq<bool>, removes: seq<bool>, i: nat, j: nat)
    requires i <= j <= |removes| && |saves| == |removes|
  {
    || (there && Untouched(removes, i, j))
    || exists k: nat :: i <= k < j && saves[k] && Untouched(removes, k + 1, j)
  }

  lemma {:induction false} StillThereStep(there: bool, saves: seq<bool>, removes: seq<bool>, i: nat, j: nat)
    requires i <= j < |removes| && |saves| == |removes|
    ensures StillThere(there, saves, removes, i, j + 1) <==> saves[j] || (StillThere(there, saves, removes, i, j) && !removes[j])
  {
    if saves[j] { assert Untouched(removes, j + 1, j + 1); }
    if StillThere(there, saves, removes, i, j) && !removes[j] && !(there && Untouched(removes, i, j)) {
      var k: nat :| i <= k < j && saves[k] && Untouched(removes, k + 1, j);
      assert Untouched(removes, k + 1, j + 1);
    }
  }

  /** The file was complete at step i or has been saved since, and was not removed after that. */
  predicate Stored(s: State, steps: seq<Step>, i: nat, j: nat, name: string)
    requires i <= j <= |steps|
  {
    StillThere(IsComplete(After(s, steps, i).files, name), Saves(s, steps, name), Removes(steps, name), i, j)
  }

  lemma {:induction false} StillThereRun(there: seq<bool>, saves: seq<bool>, removes: seq<bool>, i: nat, j: nat)
    requires i <= j <= |removes| == |saves| && |there| == |saves| + 1
    requires forall n | 0 <= n < |saves| :: there[n + 1] <==> saves[n] || (there[n] && !removes[n])
    ensures there[j] <==> StillThere(there[i], saves, removes, i, j)
    decreases j
  {
    if i < j {
      StillThereRun(there, saves, removes, i, j - 1);
      StillThereStep(there[i], saves, removes, i, j - 1);
      assert there[j - 1 + 1] <==> saves[j - 1] || (there[j - 1] && !removes[j - 1]);
    }
  }

  function Completes(s: State, steps: seq<Step>, name: string): (c: seq<bool>)
    ensures |c| == |steps| + 1
  {
    seq(|steps| + 1, n requires 0 <= n <= |steps| => IsComplete(After(s, steps, n).files, name))
  }

  lemma {:induction false} CompletesAt(s: State, steps: seq<Step>, n: nat, name: string)
    requires n <= |steps|
    ensures Completes(s, steps, name)[n] <==> IsComplete(After(s, steps, n).files, name)
  {
  }

  lemma {:induction false} StoredAt(s: State, steps: seq<Step>, n: nat, name: string)
    requires IsRun(s, steps) && n < |steps|
    ensures Completes(s, steps, name)[n + 1] <==>
              Saves(s, steps, name)[n] || (Completes(s, steps, name)[n] && !Removes(steps, name)[n])
  {
    RunInv(s, steps, n);
    StepAt(s, steps, n);
    StepStored(After(s, steps, n), steps[n], name);
    CompletesAt(s, steps, n, name);
    CompletesAt(s, steps, n + 1, name);
  }

  lemma {:induction false} CompletesRun(s: State, steps: seq<Step>, name: string, c: seq<bool>, v: seq<bool>, r: seq<bool>)
    requires IsRun(s, steps) && c == Completes(s, steps, name) && v == Saves(s, steps, name) && r == Removes(steps, name)
    ensures forall n | 0 <= n < |v| :: c[n + 1] <==> v[n] || (c[n] && !r[n])
  {
    forall n | 0 <= n < |v| ensures c[n + 1] <==> v[n] || (c[n] && !r[n]) { StoredAt(s, steps, n, name); }
  }

  /** In terms of what happens in the run: a file is a complete snapshot iff it was one or has been saved,
      and has not been removed since. */
  lemma {:induction false} StoredExactly(s: State, steps: seq<Step>, i: nat, j: nat, name: string)
    requires IsRun(s, steps) && i <= j <= |steps|
    ensures IsComplete(After(s, steps, j).files, name) <==> Stored(s, steps, i, j, name)
  {
    var c, v, r := Completes(s, steps, name), Saves(s, steps, name), Removes(steps, name);
    CompletesRun(s, steps, name, c, v, r);
    StillThereRun(c, v, r, i, j);
    CompletesAt(s, steps, i, name);
    CompletesAt(s, steps, j, name);
  }

  /** The file was found older than the ttl in an earlier listing. */
  predicate WasExpired(s: State, steps: seq<Step>, k: nat, name: string)
    requires k < |steps|
  {
    && steps[k].ListExpired? && name in After(s, steps, k).files
    && Expired(After(s, steps, k).files[name], steps[k].now, steps[k].ttl)
  }

  lemma {:induction false} DoomedWasExpired(s: State, steps: seq<Step>, n: nat, name: string) returns (k: nat)
    requires IsRun(s, steps) && n <= |steps| && name in After(s, steps, n).doomed
    ensures k < n && WasExpired(s, steps, k, name)
  {
    StepAt(s, steps, n - 1);
    if name in After(s, steps, n - 1).doomed {
      k := DoomedWasExpired(s, steps, n - 1, name);
    } else {
      k := n - 1;
    }
  }

  /** A purge removes only names it has found expired; by then a newer file may have taken the name. */
  lemma {:induction false} RemovedWasExpired(s: State, steps: seq<Step>, n: nat, name: string) returns (k: nat)
    requires IsRun(s, steps) && n < |steps| && steps[n] == Remove(name)
    ensures k < n && WasExpired(s, steps, k, name)
  {
    StepAt(s, steps, n);
    k := DoomedWasExpired(s, steps, n, name);
  }

  // ---- one call of Snapshot ---------------------------------------------------------------------------------

  /** The call of Snapshot that member `w` began with a listing at step `i` is still on before step `j`. */
  predicate OneCall(steps: seq<Step>, w: nat, i: nat, j: nat) {
    && i < j <= |steps| && steps[i].Look? && steps[i].w == w && !steps[i].info.Crashed?
    && forall k | i < k < j :: !Ends(steps[k], w)
  }

  predicate Ends(step: Step, w: nat) {
    step == Skip(w) || step == Rename(w) || step == Abort(w) || step == Crash(w)
  }

  /** In a call the member is past its listing, and its label is above what the listing found. */
  predicate InCall(s: State, w: nat, minRev: int) {
    && w < |s.writers| && !s.writers[w].pc.Idle?
    && (s.writers[w].pc.Looked? ==> s.writers[w].pc.minRev == minRev)
    && (s.writers[w].pc.Named? || s.writers[w].pc.Copying? ==> s.writers[w].pc.rev > minRev)
  }

  lemma {:induction false} StepInCall(s: State, step: Step, w: nat, minRev: int)
    requires Enabled(s, step) && InCall(s, w, minRev) && !Ends(step, w)
    ensures InCall(Do(s, step), w, minRev)
  {
  }

  lemma {:induction false} CallState(s: State, steps: seq<Step>, w: nat, i: nat, j: nat)
    requires IsRun(s, steps) && OneCall(steps, w, i, j)
    ensures InCall(After(s, steps, j), w, MinRev(steps[i].info))
    decreases j
  {
    StepAt(s, steps, j - 1);
    if j > i + 1 {
      CallState(s, steps, w, i, j - 1);
      StepInCall(After(s, steps, j - 1), steps[j - 1], w, MinRev(steps[i].info));
    }
  }

  /** The revision that the call has read when it skips or renames. */
  function RevisionRead(s: State, w: nat): int
    requires w < |s.writers|
  {
    if s.writers[w].pc.Copying? then s.writers[w].pc.rev else s.writers[w].kv
  }

  /** The file that the listing at step `i` found had not been renamed, or has been purged since; and it has
      not been saved again. */
  predicate Misled(s: State, steps: seq<Step>, i: nat, j: nat)
    requires i < j <= |steps| && steps[i].Look? && steps[i].info.Found?
  {
    !Stored(s, steps, i, j, steps[i].info.metadata.name)
  }

  /** When a call skips, the file it skips for is a complete snapshot iff the call was not misled. */
  lemma {:induction false} SkippedExactly(s: State, steps: seq<Step>, w: nat, i: nat, j: nat)
    requires IsRun(s, steps) && OneCall(steps, w, i, j) && j < |steps| && steps[j] == Skip(w)
    ensures steps[i].info.Found?
    ensures IsComplete(After(s, steps, j + 1).files, steps[i].info.metadata.name) <==> !Misled(s, steps, i, j)
  {
    SkipFound(s, steps, w, i, j);
    StoredExactly(s, steps, i, j, steps[i].info.metadata.name);
    StepAt(s, steps, j);
  }

  lemma {:induction false} SkipFound(s: State, steps: seq<Step>, w: nat, i: nat, j: nat)
    requires IsRun(s, steps) && OneCall(steps, w, i, j) && j < |steps| && steps[j] == Skip(w)
    ensures w < |After(s, steps, j).writers| && steps[i].info.Found?
    ensures RevisionRead(After(s, steps, j), w) <= Label(steps[i].info.metadata.name)
  {
    CallState(s, steps, w, i, j);
    StepAt(s, steps, i);
    StepAt(s, steps, j);
    RunInv(s, steps, j);
    assert WriterOk(After(s, steps, j).writers[w]);
  }

  lemma {:induction false} RenameCovers(s: State, steps: seq<Step>, w: nat, j: nat)
    requires IsRun(s, steps) && j < |steps| && steps[j] == Rename(w)
    ensures w < |After(s, steps, j).writers| && Holds(After(s, steps, j + 1).files, RevisionRead(After(s, steps, j), w))
  {
    StepAt(s, steps, j);
    RunInv(s, steps, j);
    var x := After(s, steps, j).writers[w];
    assert WriterOk(x);
    RenamedSound(x);
    assert IsComplete(After(s, steps, j + 1).files, Filename(Current(x)));
  }

  /** After a Snapshot without an error the store holds a complete snapshot of at least the revision that
      was read, unless it was skipped because of a file that had not been renamed or was purged meanwhile. */
  lemma {:induction false} SnapshotCovers(s: State, steps: seq<Step>, w: nat, i: nat, j: nat)
    requires IsRun(s, steps) && OneCall(steps, w, i, j) && j < |steps|
    requires steps[j] == Skip(w) || steps[j] == Rename(w)
    ensures w < |After(s, steps, j).writers|
    ensures steps[j] == Skip(w) ==> steps[i].info.Found?
    ensures Holds(After(s, steps, j + 1).files, RevisionRead(After(s, steps, j), w)) || (steps[j] == Skip(w) && Misled(s, steps, i, j))
  {
    if steps[j] == Skip(w) {
      SkipFound(s, steps, w, i, j);
      if !Misled(s, steps, i, j) {
        SkippedExactly(s, steps, w, i, j);
        assert IsComplete(After(s, steps, j + 1).files, steps[i].info.metadata.name);
      }
    } else {
      RenameCovers(s, steps, w, j);
    }
  }

  /** What a call saves is above everything complete that its listing saw. */
  lemma {:induction false} SavesAreNew(s: State, steps: seq<Step>, w: nat, i: nat, j: nat, name: string)
    requires IsRun(s, steps) && OneCall(steps, w, i, j) && j < |steps| && steps[j] == Rename(w)
    requires steps[i].readable && IsComplete(After(s, steps, i).files, name)
    ensures w < |After(s, steps, j).writers| && Label(name) < RevisionRead(After(s, steps, j), w)
  {
    CallState(s, steps, w, i, j);
    StepAt(s, steps, i);
    StepAt(s, steps, j);
    assert Counts(name, After(s, steps, i).files[name]);
  }

  /** When no file counts as a snapshot, for instance after a purge of everything, the next call does not skip. */
  lemma {:induction false} EmptyStoreIsFilled(s: State, steps: seq<Step>, w: nat, i: nat, j: nat)
    requires IsRun(s, steps) && OneCall(steps, w, i, j) && j < |steps|
    requires forall n | n in After(s, steps, i).files :: !Counts(n, After(s, steps, i).files[n])
    ensures steps[j] != Skip(w)
    ensures j == i + 1 ==> Enabled(After(s, steps, j), ReadRevision(w))
  {
    CallState(s, steps, w, i, j);
    StepAt(s, steps, i);
    StepAt(s, steps, j);
    RunInv(s, steps, j);
    assert WriterOk(After(s, steps, j).writers[w]);
  }

  // ---- where it goes wrong -------------------------------------------------------------------------------

  lemma {:induction false} OnlyFile(name: string, e: Entry, r: int)
    requires e.File? && Counts(name, e) && Label(name) == r
    ensures IsInfo(map[name := e], true, Found(Metadata(name, r, e.size)))
  {
    SizeOnly(name, e.size);
    var files := map[name := e];
    forall n | n in files ensures n == name {}
  }

  lemma {:induction false} TempCounts(w: Writer, random: string, e: Entry)
    requires WriterOk(w) && w.pc.Copying? && e.File?
    ensures Counts(TempName(Current(w), random), e) && Label(TempName(Current(w), random)) == w.pc.rev
  {
    TempLabel(w.name, w.pc.rev, random);
    SizeOnly(TempName(Current(w), random), e.size);
  }

  /** Member `v` is copying into an otherwise empty directory. Another member that has not got further sees
      the temporary file and skips; if the copy then fails, both calls are over and nothing is stored. */
  lemma {:induction false} TempFileMisleads(s: State, v: nat, w: nat, random: string, e: Entry)
    requires Inv(s) && v < |s.writers| && w < |s.writers| && v != w
    requires s.writers[v].pc.Copying? && s.writers[w].pc.Idle? && s.writers[w].kv <= s.writers[v].pc.rev
    requires s.writers[v].pc.tmp == TempName(Current(s.writers[v]), random)
    requires s.files == map[s.writers[v].pc.tmp := e] && e.File?
    ensures var tmp := s.writers[v].pc.tmp;
            var look := Look(w, true, Found(Metadata(tmp, s.writers[v].pc.rev, e.size)));
            && Enabled(s, look) && Enabled(Do(s, look), Skip(w)) && Enabled(Do(Do(s, look), Skip(w)), Abort(v))
            && Do(Do(Do(s, look), Skip(w)), Abort(v)).files == map[]
  {
    var x := s.writers[v];
    assert WriterOk(x);
    TempCounts(x, random, e);
    OnlyFile(x.pc.tmp, e, x.pc.rev);
    var look := Look(w, true, Found(Metadata(x.pc.tmp, x.pc.rev, e.size)));
    var t := Do(s, look);
    assert t == With(s, w, Looked(x.pc.rev));
    var u := Do(t, Skip(w));
    assert u.files == s.files && u.writers[v] == x;
  }

  lemma {:induction false} Grow(s: State, steps: seq<Step>, step: Step) returns (longer: seq<Step>)
    requires IsRun(s, steps) && Enabled(After(s, steps, |steps|), step)
    ensures longer == steps + [step] && IsRun(s, longer)
    ensures After(s, longer, |longer|) == Do(After(s, steps, |steps|), step)
  {
    longer := steps + [step];
    Runs.Grow(Next, s, steps, step);
  }

  /** The first member has begun to copy. */
  lemma {:induction false} CopyingRun(x: string, y: string, r: int, random: string) returns (s: State, steps: seq<Step>)
    requires '_' !in x && '_' !in y && 1 <= r <= MAX_INT64 && IsRandom(random)
    ensures s.writers == [Writer(x, r, Idle), Writer(y, r, Idle)]
    ensures IsRun(s, steps) && |steps| == 3 && s.files == map[]
    ensures var tmp := TempName(Metadata(x, r, -1), random);
            && After(s, steps, 3).writers == [Writer(x, r, Copying(r, None, tmp, None)), Writer(y, r, Idle)]
            && After(s, steps, 3).files == map[tmp := File(0, 0, -1, false)]
  {
    s := State(map[], [Writer(x, r, Idle), Writer(y, r, Idle)], {}, {});
    steps := [];
    steps := Grow(s, steps, Look(0, true, NoSnapshot));
    steps := Grow(s, steps, ReadRevision(0));
    assert After(s, steps, 2).writers == [Writer(x, r, Named(r, None)), Writer(y, r, Idle)];
    steps := Grow(s, steps, Create(0, random, 0));
  }

  /** A run of this kind: both members have applied revision `r`, neither call stores anything, and one of
      them reports no error. */
  lemma {:induction false} MisledRun(x: string, y: string, r: int, random: string) returns (s: State, steps: seq<Step>)
    requires '_' !in x && '_' !in y && 1 <= r <= MAX_INT64 && IsRandom(random)
    ensures IsRun(s, steps) && |steps| == 6 && OneCall(steps, 1, 3, 4) && steps[4] == Skip(1)
    ensures s.writers == [Writer(x, r, Idle), Writer(y, r, Idle)]
    ensures After(s, steps, 6).files == map[]
  {
    s, steps := CopyingRun(x, y, r, random);
    var t, tmp := After(s, steps, 3), TempName(Metadata(x, r, -1), random);
    RunInv(s, steps, 3);
    assert Current(t.writers[0]) == Metadata(x, r, -1);
    TempFileMisleads(t, 0, 1, random, File(0, 0, -1, false));
    steps := Grow(s, steps, Look(1, true, Found(Metadata(tmp, r, 0))));
    steps := Grow(s, steps, Skip(1));
    steps := Grow(s, steps, Abort(0));
  }

  // ---- what Info answers --------------------------------------------------------------------------------

  /** What the operator gets to know of the provider's highest snapshot, and what it would get from it. */
  function Answer(files: Files, info: InfoResult): Operators.CfgInfo
    requires !info.Crashed?
    requires info.Found? ==> info.metadata.name in files && files[info.metadata.name].File?
  {
    match info
    case Found(m) => Operators.CfgFound(m.revision, files[m.name].content)
    case NoSnapshot => Operators.CfgNone
    case Failed => Operators.CfgFailed
  }

  /** No file is unfinished. */
  predicate Finished(files: Files) { forall n | n in files && files[n].File? :: files[n].complete }

  /** A file that was not renamed has the label of a snapshot, and either nothing to restore or all of it. */
  predicate Unrenamed(n: string, e: Entry)
    requires e.File?
  {
    Label(n) >= 1 && (e.content == -1 || e.content >= Label(n))
  }

  predicate TempInv(s: State) {
    && (forall n | n in s.files && s.files[n].File? && !s.files[n].complete :: Unrenamed(n, s.files[n]))
    && (forall w | 0 <= w < |s.writers| && s.writers[w].pc.Copying? :: s.writers[w].pc.tmp in s.used)
  }

  lemma {:induction false} StepTemp(s: State, step: Step)
    requires Inv(s) && TempInv(s) && Enabled(s, step)
    ensures TempInv(Do(s, step))
  {
    if step.Create? {
      var w := s.writers[step.w];
      assert WriterOk(w);
      TempLabel(w.name, w.pc.rev, step.random);
    } else if step.Fill? {
      assert WriterOk(s.writers[step.w]);
    }
  }

  /** The step finishes the copy into the file. */
  predicate Fills(s: State, step: Step, name: string) {
    step.Fill? && step.w < |s.writers| && s.writers[step.w].pc.Copying? && s.writers[step.w].pc.tmp == name
  }

  /** Some step before step `n` finished the copy into the file. */
  predicate FilledBefore(s: State, steps: seq<Step>, n: nat, name: string)
    requires n <= |steps|
  {
    n > 0 && (FilledBefore(s, steps, n - 1, name) || Fills(After(s, steps, n - 1), steps[n - 1], name))
  }

  /** A file that was not renamed has something to restore iff its copy was finished. */
  predicate FilledInv(s: State, name: string, filled: bool) {
    && (filled ==> name in s.used)
    && (name in s.files && s.files[name].File? && !s.files[name].complete ==> (s.files[name].content != -1 <==> filled))
  }

  lemma {:induction false} StepFilled(s: State, step: Step, name: string, filled: bool)
    requires Inv(s) && TempInv(s) && Enabled(s, step) && FilledInv(s, name, filled)
    ensures FilledInv(Do(s, step), name, filled || Fills(s, step, name))
  {
    if step.Fill? { assert WriterOk(s.writers[step.w]); }
  }

  lemma {:induction false} RunTemp(s: State, steps: seq<Step>, n: nat, name: string)
    requires IsRun(s, steps) && Finished(s.files) && n <= |steps|
    ensures TempInv(After(s, steps, n)) && FilledInv(After(s, steps, n), name, FilledBefore(s, steps, n, name))
  {
    if n > 0 {
      RunTemp(s, steps, n - 1, name);
      RunInv(s, steps, n - 1);
      StepAt(s, steps, n - 1);
      StepTemp(After(s, steps, n - 1), steps[n - 1]);
      StepFilled(After(s, steps, n - 1), steps[n - 1], name, FilledBefore(s, steps, n - 1, name));
    }
  }

  /** From a finished store on: what Info answers contains what its label says iff the copy of the file it
      has found was finished, whether or not the file has been renamed since. */
  lemma {:induction false} AnswerReachesExactly(s: State, steps: seq<Step>, n: nat, info: InfoResult)
    requires IsRun(s, steps) && Finished(s.files) && n <= |steps|
    requires IsInfo(After(s, steps, n).files, true, info) && info.Found?
    ensures var a, name := Answer(After(s, steps, n).files, info), info.metadata.name;
            Operators.ReachesLabel(Some(Operators.Provided(a.revision, a.content)))
            <==> After(s, steps, n).files[name].complete || FilledBefore(s, steps, n, name)
  {
    var files, name := After(s, steps, n).files, info.metadata.name;
    RunInv(s, steps, n);
    RunTemp(s, steps, n, name);
    assert if files[name].complete then Sound(name, files[name]) else Unrenamed(name, files[name]);
  }

  /** A member that dies before its copy is finished leaves a file whose label nothing reaches, for good:
      this is the answer that another member then gets. */
  lemma {:induction false} UnfinishedAnswer(x: string, y: string, r: int, random: string)
    returns (s: State, steps: seq<Step>, info: InfoResult)
    requires '_' !in x && '_' !in y && 1 <= r <= MAX_INT64 && IsRandom(random)
    ensures IsRun(s, steps) && Finished(s.files) && |steps| == 5 && steps[3] == Crash(0) && steps[4] == Look(1, true, info)
    ensures info.Found? && info.metadata.revision == r && IsInfo(After(s, steps, 5).files, true, info)
    ensures Answer(After(s, steps, 5).files, info) == Operators.CfgFound(r, -1)
    ensures After(s, steps, 5).writers == [Writer(x, r, Idle), Writer(y, r, Looked(r))]
  {
    s, steps := CopyingRun(x, y, r, random);
    var tmp := TempName(Metadata(x, r, -1), random);
    info := Found(Metadata(tmp, r, 0));
    RunInv(s, steps, 3);
    assert WriterOk(After(s, steps, 3).writers[0]);
    assert Current(After(s, steps, 3).writers[0]) == Metadata(x, r, -1);
    TempCounts(After(s, steps, 3).writers[0], random, File(0, 0, -1, false));
    OnlyFile(tmp, File(0, 0, -1, false), r);
    steps := Grow(s, steps, Crash(0));
    steps := Grow(s, steps, Look(1, true, info));
  }

  /** A member that dies after its copy is finished and before it is renamed leaves a file that is not
      complete and reaches its label. */
  lemma {:induction false} UnrenamedAnswer(x: string, y: string, r: int, random: string, size: int)
    returns (s: State, steps: seq<Step>, info: InfoResult)
    requires '_' !in x && '_' !in y && 1 <= r <= MAX_INT64 && IsRandom(random)
    ensures IsRun(s, steps) && Finished(s.files) && |steps| == 6 && steps[5] == Crash(0)
    ensures info.Found? && info.metadata.revision == r && IsInfo(After(s, steps, 6).files, true, info)
    ensures !After(s, steps, 6).files[info.metadata.name].complete
    ensures Answer(After(s, steps, 6).files, info) == Operators.CfgFound(r, r)
  {
    s, steps := CopyingRun(x, y, r, random);
    var tmp := TempName(Metadata(x, r, -1), random);
    info := Found(Metadata(tmp, r, size));
    RunInv(s, steps, 3);
    assert WriterOk(After(s, steps, 3).writers[0]);
    assert Current(After(s, steps, 3).writers[0]) == Metadata(x, r, -1);
    TempCounts(After(s, steps, 3).writers[0], random, File(size, 0, r, false));
    OnlyFile(tmp, File(size, 0, r, false), r);
    steps := Grow(s, steps, Freeze(0));
    steps := Grow(s, steps, Fill(0, size, 0));
    assert After(s, steps, 5).files == map[tmp := File(size, 0, r, false)];
    steps := Grow(s, steps, Crash(0));
  }

  /** A purge looks at ages only: if everything is old, the newest snapshot goes too. */
  lemma {:induction false} PurgeTakesNewest(files: Files, clock: string -> int, ttl: int)
    requires IsDuration(ttl)
    ensures Purged(files, clock, ttl) == map[] <==> forall n | n in files :: Expired(files[n], clock(n), ttl)
    ensures forall n | n in files && files[n].File? && files[n].mtime <= clock(n) && clock(n) - files[n].mtime <= MAX_DURATION ::
              n in Purged(files, clock, ttl) <==> clock(n) - files[n].mtime <= ttl
  {
    if Purged(files, clock, ttl) == map[] {
      forall n | n in files ensures Expired(files[n], clock(n), ttl) { assert n !in Purged(files, clock, ttl); }
    }
  }

  // ---- the provider's methods take these steps -------------------------------------------------------------

  /** After its listing a call skips, as Snapshot does, iff a file with at least the member's revision counts;
      otherwise it goes on. */
  lemma {:induction false} SkipsExactly(s: State, w: nat, readable: bool, info: InfoResult)
    requires Inv(s) && Enabled(s, Look(w, readable, info)) && !info.Crashed?
    ensures var t := Do(s, Look(w, readable, info));
            && (Enabled(t, Skip(w)) <==>
                  readable && exists n | n in s.files :: Counts(n, s.files[n]) && Label(n) >= s.writers[w].kv)
            && (Enabled(t, ReadRevision(w)) <==> !Enabled(t, Skip(w)))
  {
    assert WriterOk(s.writers[w]);
    if info.Found? { assert Counts(info.metadata.name, s.files[info.metadata.name]); }
  }

  /** Create, copy and rename together are Save. */
  lemma {:induction false} SaveIsSteps(s: State, w: nat, random: string, start: int, size: int, now: int)
    requires Inv(s) && w < |s.writers| && s.writers[w].pc.Named? && s.writers[w].pc.content.Some?
    requires Enabled(s, Create(w, random, start)) && !IsDirectory(s.files, Filename(Current(s.writers[w])))
    ensures var t := Do(s, Create(w, random, start));
            Enabled(t, Fill(w, size, now)) && Enabled(Do(t, Fill(w, size, now)), Rename(w))
    ensures Do(Do(Do(s, Create(w, random, start)), Fill(w, size, now)), Rename(w)).files
         == s.files[Filename(Current(s.writers[w])) := File(size, now, s.writers[w].pc.content.value, true)]
  {
    var m := Current(s.writers[w]);
    LastChar(m, random);
    var t := Do(Do(s, Create(w, random, start)), Fill(w, size, now));
    assert Current(t.writers[w]) == m;
    assert t.files - {TempName(m, random)} == s.files;
  }
}
