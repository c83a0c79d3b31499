/** One instance: the embedded server with its data directory, and the operator that drives it. */
module Operators {
  import opened Wrappers
  import opened Statuses
  import Strings

  /** A snapshot that can be seeded from: the local data directory, or a file of the configured provider,
      with the revision in its name and the revision that its content reaches. */
  datatype Snap = Local(revision: int) | Provided(revision: int, content: int)

  /** What the configured provider's Info answers. Nothing ties the content of a file to its name. */
  datatype CfgInfo = CfgFound(revision: int, content: int) | CfgNone | CfgFailed

  /** What SnapshotInfo answers. Panicked is a nil dereference. */
  datatype Info = Found(snap: Snap) | NoSnapshot | Failed | Panicked

  /** Outcomes of foreign calls made by Seed: fetching the snapshot, restoring it, starting etcd; the
      revision of a brand new store. */
  datatype SeedEnv = SeedEnv(getOk: bool, restoreOk: bool, startOk: bool, empty: int)

  /** Outcomes of foreign calls made by Join. */
  datatype JoinEnv = JoinEnv(listOk: bool, isMember: bool, unreadable: bool, rejoinOk: bool,
                             addOk: bool, startOk: bool, synced: int)

  datatype Env = Env(unreadable: bool, cfg: CfgInfo, seed: SeedEnv, join: JoinEnv, aclOk: bool)

  // ---- what the calls on the server do to (running, data directory) ------------------

  /** Info of the local provider: the revision of the database in the data directory, if any. */
  function LocalInfo(disk: Option<int>, unreadable: bool): Info {
    match disk
    case None => NoSnapshot
    case Some(r) => if unreadable then Failed else Found(Local(r))
  }

  /** The highest snapshot, or the one source that worked. With the server running the local source
      is not asked, and a successful provider answer is then compared with a nil snapshot. */
  function ChooseSnapshot(running: bool, disk: Option<int>, unreadable: bool, cfg: CfgInfo): Info {
    if running then
      if cfg.CfgFound? then Panicked else NoSnapshot
    else
      match (LocalInfo(disk, unreadable), cfg)
      case (Found(l), CfgFound(r, c)) => if l.revision >= r then Found(l) else Found(Provided(r, c))
      case (Found(l), _) => Found(l)
      case (_, CfgFound(r, c)) => Found(Provided(r, c))
      case (NoSnapshot, CfgNone) => NoSnapshot
      case (_, _) => Failed
  }

  /** The data directory can be read, or the provider's highest snapshot makes up for it. */
  predicate CapturesCover(disk: Option<int>, unreadable: bool, cfg: CfgInfo) {
    disk.Some? && (!unreadable || (cfg.CfgFound? && cfg.revision >= disk.value))
  }

  /** With a stopped server and some data, exactly then SnapshotInfo's answer is as recent as the data;
      it is then as recent as the provider's highest snapshot, too. */
  lemma {:induction false} ChosenCoversDisk(disk: Option<int>, unreadable: bool, cfg: CfgInfo)
    requires disk.Some?
    ensures var info := ChooseSnapshot(false, disk, unreadable, cfg);
            && (info.Found? && info.snap.revision >= disk.value <==> CapturesCover(disk, unreadable, cfg))
            && (info.Found? && cfg.CfgFound? ==> info.snap.revision >= cfg.revision)
  {
  }

  /** The data directory cannot be read, and all the provider has is older. */
  predicate CapturesOlder(disk: Option<int>, unreadable: bool, cfg: CfgInfo) {
    disk.Some? && unreadable && cfg.CfgFound? && cfg.revision < disk.value
  }

  /** With a stopped server SnapshotInfo covers the data directory unless it fails, or an older snapshot
      than the data is returned, which is exactly so if this predicate holds. */
  lemma {:induction false} OlderSnapshotExactly(disk: Option<int>, unreadable: bool, cfg: CfgInfo)
    requires disk.Some?
    ensures var info := ChooseSnapshot(false, disk, unreadable, cfg);
            (info.Found? && info.snap.revision < disk.value) <==> CapturesOlder(disk, unreadable, cfg)
  {
  }

  /** The source of the bytes that Seed restores: None if they cannot be fetched. */
  function SeedContent(disk: Option<int>, snap: Snap, env: SeedEnv): Option<int> {
    if !env.getOk then None
    else if snap.Local? then disk
    else Some(snap.content)
  }

  /** There is something to fetch, and it is fetched. */
  predicate CanFetch(snap: Snap, disk: Option<int>, env: SeedEnv) { env.getOk && (snap.Local? ==> disk.Some?) }

  datatype Started = Started(running: bool, disk: Option<int>, ok: bool)

  function SeedResult(running: bool, disk: Option<int>, snap: Option<Snap>, env: SeedEnv): Started {
    match snap
    case Some(sn) =>
      (match SeedContent(disk, sn, env)
       case None => Started(running, disk, false)
       case Some(c) =>
         if !env.restoreOk then Started(running, None, false)
         else if !env.startOk then Started(running, Some(c), false)
         else Started(true, Some(c), true))
    case None =>
      if !env.startOk then Started(running, None, false) else Started(true, Some(env.empty), true)
  }

  /** A file of the provider contains at least the revision in its name. */
  predicate ReachesLabel(snap: Option<Snap>) {
    snap.Some? && snap.value.Provided? ==> snap.value.content >= snap.value.revision
  }

  /** Once restoring the local snapshot has failed the data is gone, and no later attempt succeeds. */
  lemma {:induction false} FailedRestoreIsFinal(disk: Option<int>, snap: Snap, env: SeedEnv, again: SeedEnv)
    requires snap.Local? && env.getOk && !env.restoreOk && disk.Some?
    ensures SeedResult(false, disk, Some(snap), env) == Started(false, None, false)
    ensures SeedResult(false, None, Some(snap), again) == Started(false, None, false)
  {
  }

  /** Calls of Seed with one local snapshot, made until one of them starts the server. */
  function SeedAgain(disk: Option<int>, snap: Snap, tries: seq<SeedEnv>): Started
    decreases |tries|
  {
    if tries == [] then Started(false, disk, false)
    else
      var first := SeedResult(false, disk, Some(snap), tries[0]);
      if first.ok then first else SeedAgain(first.disk, snap, tries[1..])
  }

  /** A start that fails after the restore costs nothing: the data stays, and the next call can succeed. Only
      a restore that fails ends it: the calls succeed iff one of them would, and no restore has failed before
      it; and without success the data is still there iff no restore has failed. */
  lemma {:induction false} RetriesSucceedExactly(disk: int, snap: Snap, tries: seq<SeedEnv>)
    requires snap.Local?
    ensures SeedAgain(Some(disk), snap, tries).ok <==>
              exists k :: 0 <= k < |tries| && tries[k].getOk && tries[k].restoreOk && tries[k].startOk
                          && forall j | 0 <= j < k :: tries[j].getOk ==> tries[j].restoreOk
    ensures SeedAgain(Some(disk), snap, tries).disk == Some(disk) <==>
              SeedAgain(Some(disk), snap, tries).ok || forall k | 0 <= k < |tries| && tries[k].getOk :: tries[k].restoreOk
  {
    if tries != [] {
      var t, rest := tries[0], tries[1..];
      if t.getOk && !t.restoreOk {
        RuinedForGood(snap, rest);
      } else {
        RetriesSucceedExactly(disk, snap, rest);
        assert forall k | 0 <= k < |rest| :: rest[k] == tries[k + 1];
        if k :| 0 <= k < |rest| && rest[k].getOk && rest[k].restoreOk && rest[k].startOk
                && forall j | 0 <= j < k :: rest[j].getOk ==> rest[j].restoreOk {
          assert tries[k + 1].getOk;
        }
      }
    }
  }

  /** Once restoring has failed there is nothing to fetch any more. */
  lemma {:induction false} RuinedForGood(snap: Snap, tries: seq<SeedEnv>)
    requires snap.Local?
    ensures SeedAgain(None, snap, tries) == Started(false, None, false)
  {
    if tries != [] { RuinedForGood(snap, tries[1..]); }
  }

  function JoinResult(running: bool, disk: Option<int>, env: JoinEnv): Started {
    if !env.listOk then Started(running, disk, false)
    else if env.isMember && LocalInfo(disk, env.unreadable).Found? && env.rejoinOk then Started(true, disk, true)
    else if !env.addOk || !env.startOk then Started(running, None, false)
    else Started(true, Some(env.synced), true)
  }

  /** The calls of Join succeed: as a member that still has its data, or as a new one. */
  predicate Joins(disk: Option<int>, env: JoinEnv) {
    && env.listOk
    && ((env.isMember && disk.Some? && !env.unreadable && env.rejoinOk) || (env.addOk && env.startOk))
  }

  /** Whether Join removes the data directory. */
  predicate JoinWipes(disk: Option<int>, env: JoinEnv) {
    env.listOk && !(env.isMember && LocalInfo(disk, env.unreadable).Found? && env.rejoinOk)
  }

  class Server {
    var isRunning: bool
    var disk: Option<int>

    constructor (disk: Option<int>)
      ensures !isRunning && this.disk == disk
    {
      isRunning := false;
      this.disk := disk;
    }

    method SnapshotInfo(unreadable: bool, cfg: CfgInfo) returns (info: Info)
      ensures info == ChooseSnapshot(isRunning, disk, unreadable, cfg)
      ensures !isRunning ==>
                && (info == NoSnapshot <==> disk.None? && cfg.CfgNone?)
                && (info == Failed <==> !cfg.CfgFound? && (if disk.Some? then unreadable else cfg.CfgFailed?))
                && (forall r :: info == Found(Local(r)) <==>
                      disk == Some(r) && !unreadable && (cfg.CfgFound? ==> cfg.revision <= r))
                && (forall r, c :: info == Found(Provided(r, c)) <==>
                      cfg == CfgFound(r, c) && !(disk.Some? && !unreadable && disk.value >= r))
      ensures isRunning ==> info == if cfg.CfgFound? then Panicked else NoSnapshot
    {
      var localSnap: Option<Snap> := None;
      var localErr: Option<Info> := None;
      if !isRunning {
        var local := LocalInfo(disk, unreadable);
        if local.Found? { localSnap := Some(local.snap); } else { localErr := Some(local); }
      }
      if localErr == Some(NoSnapshot) && cfg.CfgNone? {
        return NoSnapshot;
      }
      if localErr.Some? && !cfg.CfgFound? {
        return Failed;
      }
      if !cfg.CfgFound? {
        return if localSnap.Some? then Found(localSnap.value) else NoSnapshot;
      }
      if localErr.None? {
        if localSnap.None? { return Panicked; }
        if localSnap.value.revision >= cfg.revision { return Found(localSnap.value); }
      }
      info := Found(Provided(cfg.revision, cfg.content));
    }

    method Stop()
      modifies this
      ensures !isRunning && disk == old(disk)
    {
      if !isRunning { return; }
      isRunning := false;
    }

    method Restore(snap: Snap, env: SeedEnv) returns (ok: bool)
      modifies this
      ensures isRunning == old(isRunning)
      ensures ok <==> CanFetch(snap, old(disk), env) && env.restoreOk
      ensures !CanFetch(snap, old(disk), env) ==> disk == old(disk)
      ensures CanFetch(snap, old(disk), env) ==>
                disk == if !env.restoreOk then None else if snap.Local? then old(disk) else Some(snap.content)
    {
      var content := SeedContent(disk, snap, env);
      if content.None? { return false; }
      disk := None;
      if !env.restoreOk { return false; }
      disk := content;
      ok := true;
    }

    method Seed(snap: Option<Snap>, env: SeedEnv) returns (ok: bool)
      modifies this
      ensures Started(isRunning, disk, ok) == SeedResult(old(isRunning), old(disk), snap, env)
      ensures ok <==> env.startOk && (snap.Some? ==> CanFetch(snap.value, old(disk), env) && env.restoreOk)
      ensures isRunning == (ok || old(isRunning))
      ensures snap.Some? && !CanFetch(snap.value, old(disk), env) ==> disk == old(disk)
      ensures snap.Some? && CanFetch(snap.value, old(disk), env) ==>
                disk == if !env.restoreOk then None else if snap.value.Local? then old(disk) else Some(snap.value.content)
      ensures snap.None? ==> disk == if ok then Some(env.empty) else None
    {
      match snap {
        case Some(sn) =>
          var restored := Restore(sn, env);
          if !restored { return false; }
        case None =>
          disk := None;
      }
      if !env.startOk { return false; }
      isRunning := true;
      if disk.None? { disk := Some(env.empty); }
      ok := true;
    }

    method Join(env: JoinEnv) returns (ok: bool)
      modifies this
      ensures Started(isRunning, disk, ok) == JoinResult(old(isRunning), old(disk), env)
      ensures ok <==> Joins(old(disk), env)
      ensures isRunning == (ok || old(isRunning))
      ensures !env.listOk ==> disk == old(disk)
      ensures env.listOk && env.isMember && old(disk).Some? && !env.unreadable && env.rejoinOk ==> disk == old(disk)
      ensures env.listOk && !(env.isMember && old(disk).Some? && !env.unreadable && env.rejoinOk) ==>
                disk == if env.addOk && env.startOk then Some(env.synced) else None
      ensures !JoinWipes(old(disk), env) ==> disk == old(disk)
      ensures JoinWipes(old(disk), env) ==> disk == if ok then Some(env.synced) else None
    {
      if !env.listOk { return false; }
      if env.isMember && LocalInfo(disk, env.unreadable).Found? {
        if env.rejoinOk {
          isRunning := true;
          return true;
        }
      }
      disk := None;
      if !env.addOk { return false; }
      if !env.startOk { return false; }
      isRunning := true;
      disk := Some(env.synced);
      ok := true;
    }
  }

  // ---- the decision --------------------------------------------------------------------

  datatype Action = Exit | Join | Standby | Confirm | StopNow | Prepare | SeedNow

  /** The switch of execute(). */
  function Decide(shutdown: bool, healthy: bool, running: bool, states: map<PubState, nat>,
                  clusterSize: nat, isSeeder: bool): Action
  {
    if shutdown then Exit
    else if healthy then (if running then Standby else Join)
    else if running then (if Lookup(states, OK) >= clusterSize / 2 + 1 then Confirm else StopNow)
    else if Lookup(states, START) != clusterSize || !isSeeder then Prepare
    else SeedNow
  }

  /** What an instance shows and holds between two actions. */
  datatype Instance = Instance(running: bool, disk: Option<int>, state: PubState, snap: Option<Snap>)

  /** The instance after an action, given the outcomes of the foreign calls. */
  function After(n: Instance, a: Action, env: Env): Instance {
    match a
    case Exit => n.(state := PENDING, running := false)
    case Join =>
      var j := JoinResult(n.running, n.disk, env.join);
      n.(state := PENDING, running := j.running, disk := j.disk)
    case Standby => n.(state := OK)
    case Confirm => n.(state := PENDING)
    case StopNow => n.(state := PENDING, running := false)
    case Prepare =>
      if n.state == START then n
      else
        (match ChooseSnapshot(n.running, n.disk, env.unreadable, env.cfg)
         case Found(sn) => n.(state := START, snap := Some(sn))
         case NoSnapshot => n.(state := START, snap := None)
         case Failed => n.(snap := None)
         case Panicked => n)
    case SeedNow =>
      var r := SeedResult(n.running, n.disk, n.snap, env.seed);
      n.(state := START, running := r.running, disk := r.disk)
  }

  /** The revision an operator publishes. */
  function Published(snap: Option<Snap>): int {
    if snap.Some? then snap.value.revision else 0
  }

  datatype Evaluated = EvalDone | AsgFailed | EvalCrashed
  datatype Executed = ExecDone | ExecError | ExecExited | ExecCrashed

  class Operator {
    const name: string
    const server: Server
    const initACL: bool
    var shutdown: bool
    var etcdHealthy: bool
    var etcdRunning: bool
    var etcdSnapshot: Option<Snap>
    var state: PubState
    var states: map<PubState, nat>
    var isSeeder: bool
    var clusterSize: nat

    constructor (name: string, server: Server, initACL: bool)
      ensures this.name == name && this.server == server && this.initACL == initACL
      ensures state == UNKNOWN && etcdSnapshot == None && !shutdown
    {
      this.name := name;
      this.server := server;
      this.initACL := initACL;
      shutdown, etcdHealthy, etcdRunning, isSeeder := false, false, false, false;
      etcdSnapshot, state, states, clusterSize := None, UNKNOWN, map[], 0;
    }

    ghost function Value(): Instance
      reads this, server
    {
      Instance(server.isRunning, server.disk, state, etcdSnapshot)
    }

    function Decision(): Action
      reads this
    {
      Decide(shutdown, etcdHealthy, etcdRunning, states, clusterSize, isSeeder)
    }

    /** `size` is None when the auto-scaling group cannot be read. */
    method Evaluate(size: Option<nat>, healthy: bool, replies: seq<Option<Status>>) returns (r: Evaluated)
      modifies this`etcdRunning, this`etcdHealthy, this`isSeeder, this`states, this`clusterSize
      ensures size.None? <==> r.AsgFailed?
      ensures size.Some? ==> (r.EvalCrashed? <==> Answered(replies) == [])
      ensures r.EvalDone? ==>
                && etcdRunning == server.isRunning && etcdHealthy == healthy && clusterSize == size.value
                && (forall k :: Lookup(states, k) == CountState(Answered(replies), k))
                && (UniqueNames(Answered(replies)) ==>
                      (isSeeder <==>
                         exists mine | mine in Answered(replies) ::
                           && mine.name == name
                           && (forall other | other in Answered(replies) :: other.revision <= mine.revision)
                           && (forall other | other in Answered(replies) && other.revision == mine.revision && other != mine ::
                                 Strings.Less(other.name, name))))
      ensures r.AsgFailed? ==> etcdRunning == old(etcdRunning)
      ensures !r.EvalDone? ==>
                && states == old(states) && isSeeder == old(isSeeder)
                && etcdHealthy == old(etcdHealthy) && clusterSize == old(clusterSize)
    {
      if size.None? { return AsgFailed; }
      etcdRunning := server.isRunning;
      var f := FetchStatuses(replies, name);
      if f.NobodyAnswered? { return EvalCrashed; }
      etcdHealthy, isSeeder, states := healthy, f.isSeeder, f.states;
      clusterSize := size.value;
      r := EvalDone;
    }

    /** Carries out the decision; the last branch of the switch is never reached. */
    method Execute(env: Env) returns (r: Executed)
      modifies this`state, this`etcdSnapshot, server
      ensures Value() == After(old(Value()), old(Decision()), env)
      ensures r.ExecExited? <==> shutdown
      ensures r.ExecCrashed? ==> old(server.isRunning) && !etcdRunning
      // Healthy: join if stopped, stand by if running.
      ensures !shutdown && etcdHealthy && !etcdRunning ==>
                && state == PENDING && etcdSnapshot == old(etcdSnapshot)
                && server.isRunning == (old(server.isRunning) || Joins(old(server.disk), env.join))
      ensures !shutdown && etcdHealthy && !etcdRunning && Joins(old(server.disk), env.join) ==> server.disk.Some?
      ensures !shutdown && etcdHealthy && etcdRunning ==>
                && Value() == old(Value()).(state := OK)
                && (r.ExecError? <==> isSeeder && initACL && !env.aclOk)
      // Unhealthy and running: stop, unless a majority of the cluster says that it is fine.
      ensures !shutdown && !etcdHealthy && etcdRunning ==>
                && state == PENDING && etcdSnapshot == old(etcdSnapshot) && server.disk == old(server.disk)
                && server.isRunning == (old(server.isRunning) && 2 * Lookup(states, OK) > clusterSize)
      // Unhealthy and stopped: get ready, and seed once everybody is ready and we are first.
      ensures !shutdown && !etcdHealthy && !etcdRunning && !(isSeeder && Lookup(states, START) == clusterSize) ==>
                && server.isRunning == old(server.isRunning) && server.disk == old(server.disk)
                && (old(state) == START ==> Value() == old(Value()))
      ensures !shutdown && !etcdHealthy && !etcdRunning && !(isSeeder && Lookup(states, START) == clusterSize)
              && old(state) != START && !old(server.isRunning) ==>
                && (state == START <==> env.cfg.CfgFound? || (if server.disk.Some? then !env.unreadable else env.cfg.CfgNone?))
                && (state != START ==> state == old(state) && etcdSnapshot == None && r == ExecError)
                && (state == START ==> (etcdSnapshot == None <==> server.disk.None? && env.cfg.CfgNone?))
      ensures !shutdown && !etcdHealthy && !etcdRunning && isSeeder && Lookup(states, START) == clusterSize ==>
                && state == START && etcdSnapshot == old(etcdSnapshot)
                && server.isRunning == (old(server.isRunning) || (env.seed.startOk &&
                     (etcdSnapshot.Some? ==> CanFetch(etcdSnapshot.value, old(server.disk), env.seed) && env.seed.restoreOk)))
      // Shutting down.
      ensures shutdown ==> Value() == old(Value()).(state := PENDING, running := false)
    {
      var quorum := clusterSize / 2 + 1;
      if shutdown {
        state := PENDING;
        server.Stop();
        return ExecExited;
      } else if etcdHealthy && !etcdRunning {
        state := PENDING;
        var _ := server.Join(env.join);
      } else if etcdHealthy && etcdRunning {
        state := OK;
      } else if !etcdHealthy && etcdRunning && Lookup(states, OK) >= quorum {
        state := PENDING;
      } else if !etcdHealthy && etcdRunning && Lookup(states, OK) < quorum {
        state := PENDING;
        server.Stop();
      } else if !etcdHealthy && !etcdRunning && (Lookup(states, START) != clusterSize || !isSeeder) {
        if state != START {
          var info := server.SnapshotInfo(env.unreadable, env.cfg);
          if info.Panicked? { return ExecCrashed; }
          etcdSnapshot := if info.Found? then Some(info.snap) else None;
          if info.Failed? { return ExecError; }
        }
        state := START;
      } else if !etcdHealthy && !etcdRunning && Lookup(states, START) == clusterSize && isSeeder {
        state := START;
        var _ := server.Seed(etcdSnapshot, env.seed);
      } else {
        assert false;
      }
      if state == OK && isSeeder && initACL && !env.aclOk {
        return ExecError;
      }
      r := ExecDone;
    }
  }
}
