/**
 Any number of workers, each with any number of `run` calls, against one Redis
 key. Every event is one atomic step: a stretch of JavaScript between two awaits,
 Redis executing one command that is still on the network, a reply or a failure
 reaching its caller, a connection change, a crash, or time passing.
 */
module LeaseSystem {
  import opened Wrappers
  import opened LeaseRedis
  import opened LeaseLocal

  type Worker = string

  /** Lease and renewal periods, in the time unit of Redis. */
  datatype Config = Config(ttl: nat, renewInterval: nat)

  /** A command of one run: not sent, on the network since a time, or executed at a log position. */
  datatype Net = Idle | Sent(since: nat) | Executed(since: nat, pos: nat)

  /** The operation handed to `run`. */
  datatype Operation = Running | ReturnedValue | Threw

  /**
   What a `run` call knows. `confirmedFrom` and `confirmedTo` are the log positions of
   the SET and of the latest renewal or release whose success it was told about.
   */
  datatype Stage =
    | Requesting
    | NotAcquired
    | Leased(lease: Lease, operation: Operation, confirmedFrom: nat, confirmedTo: nat, nextTick: nat)

  datatype Run = Run(worker: Worker, stage: Stage, setNet: Net, renewNet: Net, releaseNet: Net)

  datatype System = System(
    redis: Redis,
    runs: map<Token, Run>,
    locks: map<Worker, Lock<Token>>,
    crashed: set<Worker>,
    sent: seq<(Token, Command)>)

  const INITIAL := System(EMPTY, map[], map[], {}, [])

  datatype Event =
    | BeginRun(worker: Worker, token: Token)
    | ExecuteCommand(token: Token, command: Command)
    | SetReplied(token: Token)
    | SetRejected(token: Token)
    | IntervalFired(token: Token)
    | RenewReplied(token: Token)
    | RenewRejected(token: Token)
    | HeldAsserted(token: Token)
    | OperationSettled(token: Token, threw: bool)
    | ReleaseResumes(token: Token)
    | ReleaseReplied(token: Token)
    | ReleaseRejected(token: Token)
    | ConnectionChanged(worker: Worker, ready: bool)
    | CloseCalled(worker: Worker)
    | WorkerCrashed(worker: Worker)
    | TimePasses(delta: nat)

  function LockOf(s: System, w: Worker): Lock<Token> {
    if w in s.locks then s.locks[w] else Lock(false, None, false)
  }

  function NetOf(r: Run, command: Command): Net {
    match command
    case SetNx => r.setNet
    case Renew => r.renewNet
    case Release => r.releaseNet
  }

  function WithNet(r: Run, command: Command, net: Net): Run {
    match command
    case SetNx => r.(setNet := net)
    case Renew => r.(renewNet := net)
    case Release => r.(releaseNet := net)
  }

  /** The worker of the run is up and the run holds a lease object. */
  predicate HasLease(s: System, token: Token) {
    && token in s.runs
    && s.runs[token].stage.Leased?
    && s.runs[token].worker !in s.crashed
  }

  predicate IsRequesting(s: System, token: Token) {
    && token in s.runs
    && s.runs[token].stage.Requesting?
    && s.runs[token].worker !in s.crashed
  }

  predicate Enabled(s: System, e: Event) {
    match e
    case BeginRun(w, token) =>
      // tokens are fresh random identifiers
      token !in s.runs && w !in s.crashed && RunRefusal(LockOf(s, w)).None?
    case ExecuteCommand(token, command) =>
      // the command may outlive its caller: a failure may be reported before Redis executes it
      token in s.runs && NetOf(s.runs[token], command).Sent?
    case SetReplied(token) =>
      IsRequesting(s, token) && s.runs[token].setNet.Executed? && s.runs[token].setNet.pos < |s.redis.log|
    case SetRejected(token) =>
      IsRequesting(s, token)
    case IntervalFired(token) =>
      // `release` clears the interval
      HasLease(s, token) && !s.runs[token].stage.lease.Releasing() && s.runs[token].stage.nextTick <= s.redis.now
    case RenewReplied(token) =>
      HasLease(s, token) && s.runs[token].stage.lease.renewalPending
      && s.runs[token].renewNet.Executed? && s.runs[token].renewNet.pos < |s.redis.log|
    case RenewRejected(token) =>
      HasLease(s, token) && s.runs[token].stage.lease.renewalPending
    case HeldAsserted(token) =>
      HasLease(s, token) && s.runs[token].stage.operation.Running?
    case OperationSettled(token, threw) =>
      HasLease(s, token) && s.runs[token].stage.operation.Running?
    case ReleaseResumes(token) =>
      HasLease(s, token) && s.runs[token].stage.lease.phase.AwaitingRenewal?
      && !s.runs[token].stage.lease.renewalPending
    case ReleaseReplied(token) =>
      HasLease(s, token) && s.runs[token].stage.lease.phase.ScriptSent?
      && s.runs[token].releaseNet.Executed? && s.runs[token].releaseNet.pos < |s.redis.log|
    case ReleaseRejected(token) =>
      HasLease(s, token) && s.runs[token].stage.lease.phase.ScriptSent?
    case ConnectionChanged(w, ready) => w !in s.crashed
    case CloseCalled(w) => w !in s.crashed
    case WorkerCrashed(w) => true
    case TimePasses(delta) => true
  }

  function WithRun(s: System, token: Token, r: Run): System {
    s.(runs := s.runs[token := r])
  }

  /** Puts a command of a run on the network. */
  function Send(s: System, token: Token, command: Command): System
    requires token in s.runs
  {
    WithRun(s, token, WithNet(s.runs[token], command, Sent(s.redis.now))).(sent := s.sent + [(token, command)])
  }

  function WithLease(s: System, token: Token, lease: Lease): System
    requires token in s.runs && s.runs[token].stage.Leased?
  {
    WithRun(s, token, s.runs[token].(stage := s.runs[token].stage.(lease := lease)))
  }

  /** A settled release drops the lease from its lock if it still is the active one. */
  function Forgotten(s: System, token: Token): System
    requires token in s.runs
  {
    var w := s.runs[token].worker;
    if LockOf(s, w).active == Some(token) then s.(locks := s.locks[w := LockOf(s, w).(active := None)]) else s
  }

  /** Applies `f` to the active lease of a worker, if there is one. */
  function OnActive(s: System, w: Worker, f: Lease -> Lease): System {
    match LockOf(s, w).active
    case None => s
    case Some(token) =>
      if token in s.runs && s.runs[token].stage.Leased? then WithLease(s, token, f(s.runs[token].stage.lease)) else s
  }

  function AfterSet(s: System, token: Token, cfg: Config): System
    requires Enabled(s, SetReplied(token))
  {
    var r := s.runs[token];
    var k := LockOf(s, r.worker);
    if !s.redis.log[r.setNet.pos].ok then
      WithRun(s, token, r.(stage := NotAcquired))
    else
      var operation := if k.ready then Running else Threw;
      var stage := Leased(Granted(k.ready), operation, r.setNet.pos, r.setNet.pos, s.redis.now + cfg.renewInterval);
      WithRun(s, token, r.(stage := stage)).(locks := s.locks[r.worker := k.(active := Some(token))])
  }

  function AfterInterval(s: System, token: Token, cfg: Config): System
    requires Enabled(s, IntervalFired(token))
  {
    var stage := s.runs[token].stage;
    var ticked := stage.(lease := Ticked(stage.lease), nextTick := s.redis.now + cfg.renewInterval);
    var s' := WithRun(s, token, s.runs[token].(stage := ticked));
    if SendsRenewal(stage.lease) then Send(s', token, Renew) else s'
  }

  function AfterRenewReply(s: System, token: Token): System
    requires Enabled(s, RenewReplied(token))
  {
    var r := s.runs[token];
    var renewed := s.redis.log[r.renewNet.pos].ok;
    var stage := r.stage.(
      lease := RenewalReplied(r.stage.lease, renewed),
      confirmedTo := if renewed then r.renewNet.pos else r.stage.confirmedTo);
    WithRun(s, token, r.(stage := stage, renewNet := Idle))
  }

  function AfterOperation(s: System, token: Token, threw: bool): System
    requires Enabled(s, OperationSettled(token, threw))
  {
    var r := s.runs[token];
    var ready := LockOf(s, r.worker).ready;
    var stage := r.stage.(
      lease := OperationEnded(r.stage.lease, threw, ready),
      operation := if ReturnsValue(r.stage.lease, threw, ready) then ReturnedValue else Threw);
    WithRun(s, token, r.(stage := stage))
  }

  function AfterResume(s: System, token: Token): System
    requires Enabled(s, ReleaseResumes(token))
  {
    var lease := s.runs[token].stage.lease;
    var s' := WithLease(s, token, ReleaseResumed(lease));
    if SkipsScript(lease) then Forgotten(s', token) else Send(s', token, Release)
  }

  function AfterReleaseReply(s: System, token: Token): System
    requires Enabled(s, ReleaseReplied(token))
  {
    var r := s.runs[token];
    var stage := r.stage.(
      lease := ReleaseSettled(r.stage.lease),
      confirmedTo := if s.redis.log[r.releaseNet.pos].ok then r.releaseNet.pos else r.stage.confirmedTo);
    Forgotten(WithRun(s, token, r.(stage := stage)), token)
  }

  function AfterConnection(s: System, w: Worker, ready: bool): System {
    var k := LockOf(s, w);
    var s' := s.(locks := s.locks[w := k.(ready := ready)]);
    if ready || k.closed then s' else OnActive(s', w, l => Lose(l, ConnectionLost))
  }

  function AfterClose(s: System, w: Worker): System {
    var s' := s.(locks := s.locks[w := LockOf(s, w).(closed := true)]);
    OnActive(s', w, l => ReleaseBegun(Lose(l, Shutdown)))
  }

  function Apply(s: System, e: Event, cfg: Config): System
    requires Enabled(s, e)
  {
    match e
    case BeginRun(w, token) =>
      Send(WithRun(s, token, Run(w, Requesting, Idle, Idle, Idle)), token, SetNx)
    case ExecuteCommand(token, command) =>
      WithRun(s, token, WithNet(s.runs[token], command, Executed(NetOf(s.runs[token], command).since, |s.redis.log|)))
      .(redis := Execute(s.redis, token, command, cfg.ttl))
    case SetReplied(token) => AfterSet(s, token, cfg)
    case SetRejected(token) => WithRun(s, token, s.runs[token].(stage := NotAcquired))
    case IntervalFired(token) => AfterInterval(s, token, cfg)
    case RenewReplied(token) => AfterRenewReply(s, token)
    case RenewRejected(token) => WithLease(s, token, RenewalFailed(s.runs[token].stage.lease))
    case HeldAsserted(token) =>
      WithLease(s, token, HeldChecked(s.runs[token].stage.lease, LockOf(s, s.runs[token].worker).ready))
    case OperationSettled(token, threw) => AfterOperation(s, token, threw)
    case ReleaseResumes(token) => AfterResume(s, token)
    case ReleaseReplied(token) => AfterReleaseReply(s, token)
    case ReleaseRejected(token) =>
      Forgotten(WithLease(s, token, ReleaseSettled(s.runs[token].stage.lease)), token)
    case ConnectionChanged(w, ready) => AfterConnection(s, w, ready)
    case CloseCalled(w) => AfterClose(s, w)
    case WorkerCrashed(w) => s.(crashed := s.crashed + {w})
    case TimePasses(delta) => s.(redis := s.redis.(now := s.redis.now + delta))
  }

  /** The state after a whole run of events, if each is enabled in its turn. */
  function Exec(s: System, events: seq<Event>, cfg: Config): Option<System>
    decreases |events|
  {
    if events == [] then Some(s)
    else if Enabled(s, events[0]) then Exec(Apply(s, events[0], cfg), events[1..], cfg)
    else None
  }

  ghost predicate Reachable(s: System, cfg: Config) {
    exists events :: Exec(INITIAL, events, cfg) == Some(s)
  }

  // ---------- The invariant ----------

  /** An executed command of a run is an entry of the log carrying the run's token. */
  predicate NetMatchesLog(log: seq<Entry>, token: Token, command: Command, net: Net) {
    net.Executed? ==>
      && net.pos < |log|
      && log[net.pos].token == token
      && log[net.pos].command == command
      && net.since <= log[net.pos].at
  }

  predicate RanAt(net: Net, i: nat) {
    net.Executed? && net.pos == i
  }

  predicate RunInv(r: Run, token: Token, log: seq<Entry>) {
    && NetMatchesLog(log, token, SetNx, r.setNet)
    && NetMatchesLog(log, token, Renew, r.renewNet)
    && NetMatchesLog(log, token, Release, r.releaseNet)
    && !r.setNet.Idle?
    && match r.stage
       case Leased(lease, operation, from, to, nextTick) =>
         && r.setNet.Executed? && r.setNet.pos == from && log[from].ok
         && from <= to < |log| && log[to].ok && log[to].token == token
         && (lease.renewalPending ==> !r.renewNet.Idle? && !(lease.phase.ScriptSent? || lease.phase.Settled?))
         && (lease.renewalPending && r.renewNet.Executed? ==> to < r.renewNet.pos)
         && (r.releaseNet.Executed? ==> to <= r.releaseNet.pos)
         && (!r.renewNet.Idle? ==> lease.renewalPending || lease.lost.Some?)
         && (!r.releaseNet.Idle? ==> lease.phase.ScriptSent? || lease.phase.Settled?)
         && (!operation.Running? ==> lease.Releasing())
       case _ => r.renewNet.Idle? && r.releaseNet.Idle?
  }

  predicate SentInThePast(r: Run, now: nat) {
    && (r.setNet.Sent? ==> r.setNet.since <= now)
    && (r.renewNet.Sent? ==> r.renewNet.since <= now)
    && (r.releaseNet.Sent? ==> r.releaseNet.since <= now)
  }

  ghost predicate RunsInv(s: System) {
    forall token :: token in s.runs ==>
      RunInv(s.runs[token], token, s.redis.log) && SentInThePast(s.runs[token], s.redis.now)
  }

  /** A SET or release in the log is the one SET or release its run ever sent. */
  ghost predicate LogInv(s: System) {
    forall i :: 0 <= i < |s.redis.log| ==>
      var e := s.redis.log[i];
      && e.token in s.runs
      && (!e.command.Renew? ==> RanAt(NetOf(s.runs[e.token], e.command), i))
  }

  ghost predicate Inv(s: System, cfg: Config) {
    RedisInv(s.redis, cfg.ttl) && RunsInv(s) && LogInv(s)
  }

  /** Steps other than an execution leave the log alone and change only one run. */
  lemma LocalStepKeepsLogInv(s: System, s': System)
    requires LogInv(s) && s'.redis.log == s.redis.log
    requires forall token :: token in s.runs ==>
               token in s'.runs && s'.runs[token].setNet == s.runs[token].setNet
               && (s.runs[token].releaseNet.Executed? ==> s'.runs[token].releaseNet == s.runs[token].releaseNet)
    ensures LogInv(s')
  {
  }

  lemma ExecutionKeepsRun(r: Run, token: Token, command: Command, redis: Redis, t: Token, cfg: Config)
    requires RunInv(r, t, redis.log) && SentInThePast(r, redis.now)
    requires t == token ==> NetOf(r, command).Sent?
    ensures var redis' := Execute(redis, token, command, cfg.ttl);
            var r' := if t == token then WithNet(r, command, Executed(NetOf(r, command).since, |redis.log|)) else r;
            RunInv(r', t, redis'.log) && SentInThePast(r', redis'.now)
  {
  }

  lemma ExecutionKeepsRunsInv(s: System, token: Token, command: Command, cfg: Config)
    requires RunsInv(s) && Enabled(s, ExecuteCommand(token, command))
    ensures RunsInv(Apply(s, ExecuteCommand(token, command), cfg))
  {
    var s' := Apply(s, ExecuteCommand(token, command), cfg);
    forall t | t in s'.runs
      ensures RunInv(s'.runs[t], t, s'.redis.log) && SentInThePast(s'.runs[t], s'.redis.now)
    {
      assert t in s.runs;
      ExecutionKeepsRun(s.runs[t], token, command, s.redis, t, cfg);
    }
  }

  lemma ExecutionKeepsLogInv(s: System, token: Token, command: Command, cfg: Config)
    requires Inv(s, cfg) && Enabled(s, ExecuteCommand(token, command))
    ensures LogInv(Apply(s, ExecuteCommand(token, command), cfg))
  {
    var s' := Apply(s, ExecuteCommand(token, command), cfg);
    forall i | 0 <= i < |s'.redis.log|
      ensures s'.redis.log[i].token in s'.runs
      ensures !s'.redis.log[i].command.Renew? ==>
                RanAt(NetOf(s'.runs[s'.redis.log[i].token], s'.redis.log[i].command), i)
    {
      if i < |s.redis.log| {
        assert s.redis.log[i].token in s.runs;
      }
    }
  }

  /** The run of t keeps its invariant and the step never rewrites what Redis did. */
  predicate RunKept(s: System, s': System, t: Token) {
    && (t in s.runs ==>
          && t in s'.runs
          && s'.runs[t].setNet == s.runs[t].setNet
          && (s.runs[t].releaseNet.Executed? ==> s'.runs[t].releaseNet == s.runs[t].releaseNet))
    && (t in s'.runs ==> RunInv(s'.runs[t], t, s.redis.log) && SentInThePast(s'.runs[t], s'.redis.now))
  }

  /** Asking for the key. */
  lemma RequestStepKeepsRun(s: System, e: Event, cfg: Config, t: Token)
    requires Enabled(s, e) && (e.BeginRun? || e.SetReplied? || e.SetRejected? || e.TimePasses?)
    requires t in s.runs ==> RunInv(s.runs[t], t, s.redis.log) && SentInThePast(s.runs[t], s.redis.now)
    ensures RunKept(s, Apply(s, e, cfg), t)
  {
  }

  /** Renewing and using the lease. */
  lemma RenewalStepKeepsRun(s: System, e: Event, cfg: Config, t: Token)
    requires Enabled(s, e)
    requires e.IntervalFired? || e.RenewReplied? || e.RenewRejected? || e.HeldAsserted? || e.OperationSettled?
    requires t in s.runs ==> RunInv(s.runs[t], t, s.redis.log) && SentInThePast(s.runs[t], s.redis.now)
    ensures RunKept(s, Apply(s, e, cfg), t)
  {
  }

  /** The run whose state a local step may change. */
  function Affects(s: System, e: Event): Option<Token>
  {
    match e
    case BeginRun(_, token) => Some(token)
    case ConnectionChanged(w, _) => LockOf(s, w).active
    case CloseCalled(w) => LockOf(s, w).active
    case WorkerCrashed(_) => None
    case TimePasses(_) => None
    case _ => Some(e.token)
  }

  lemma OtherRunsUntouched(s: System, e: Event, cfg: Config, t: Token)
    requires Enabled(s, e) && Affects(s, e) != Some(t)
    ensures t in s.runs <==> t in Apply(s, e, cfg).runs
    ensures t in s.runs ==> Apply(s, e, cfg).runs[t] == s.runs[t]
  {
  }

  /** Releasing the lease: the script is sent or skipped, and its reply comes or fails. */
  lemma ReleaseResumesKeepsRun(s: System, t: Token, cfg: Config)
    requires Enabled(s, ReleaseResumes(t))
    requires RunInv(s.runs[t], t, s.redis.log) && SentInThePast(s.runs[t], s.redis.now)
    ensures RunKept(s, Apply(s, ReleaseResumes(t), cfg), t)
  {
  }

  lemma ReleaseRepliedKeepsRun(s: System, t: Token, cfg: Config)
    requires Enabled(s, ReleaseReplied(t))
    requires RunInv(s.runs[t], t, s.redis.log) && SentInThePast(s.runs[t], s.redis.now)
    ensures RunKept(s, Apply(s, ReleaseReplied(t), cfg), t)
  {
  }

  lemma ReleaseRejectedKeepsRun(s: System, t: Token, cfg: Config)
    requires Enabled(s, ReleaseRejected(t))
    requires RunInv(s.runs[t], t, s.redis.log) && SentInThePast(s.runs[t], s.redis.now)
    ensures RunKept(s, Apply(s, ReleaseRejected(t), cfg), t)
  {
  }

  /** What happens to a whole worker. */
  lemma WorkerStepKeepsRun(s: System, e: Event, cfg: Config, t: Token)
    requires Enabled(s, e) && (e.ConnectionChanged? || e.CloseCalled? || e.WorkerCrashed?)
    requires t in s.runs ==> RunInv(s.runs[t], t, s.redis.log) && SentInThePast(s.runs[t], s.redis.now)
    ensures RunKept(s, Apply(s, e, cfg), t)
  {
  }

  lemma LocalStepKeepsRun(s: System, e: Event, cfg: Config, t: Token)
    requires Enabled(s, e) && !e.ExecuteCommand?
    requires t in s.runs ==> RunInv(s.runs[t], t, s.redis.log) && SentInThePast(s.runs[t], s.redis.now)
    ensures RunKept(s, Apply(s, e, cfg), t)
  {
    if e.BeginRun? || e.SetReplied? || e.SetRejected? || e.TimePasses? {
      RequestStepKeepsRun(s, e, cfg, t);
    } else if e.ReleaseResumes? || e.ReleaseReplied? || e.ReleaseRejected? {
      if e.token != t {
        OtherRunsUntouched(s, e, cfg, t);
        assert Apply(s, e, cfg).redis == s.redis;
      } else {
        match e {
          case ReleaseResumes(_) => ReleaseResumesKeepsRun(s, t, cfg);
          case ReleaseReplied(_) => ReleaseRepliedKeepsRun(s, t, cfg);
          case ReleaseRejected(_) => ReleaseRejectedKeepsRun(s, t, cfg);
        }
      }
    } else if e.ConnectionChanged? || e.CloseCalled? || e.WorkerCrashed? {
      WorkerStepKeepsRun(s, e, cfg, t);
    } else {
      RenewalStepKeepsRun(s, e, cfg, t);
    }
  }

  lemma StepKeepsInv(s: System, e: Event, cfg: Config)
    requires Inv(s, cfg) && Enabled(s, e)
    ensures Inv(Apply(s, e, cfg), cfg)
  {
    var s' := Apply(s, e, cfg);
    if e.ExecuteCommand? {
      ExecuteKeepsInv(s.redis, e.token, e.command, cfg.ttl);
      ExecutionKeepsRunsInv(s, e.token, e.command, cfg);
      ExecutionKeepsLogInv(s, e.token, e.command, cfg);
    } else {
      LocalStepLeavesRedis(s, e, cfg);
      forall t | t in s.runs || t in s'.runs
        ensures t in s'.runs && RunInv(s'.runs[t], t, s'.redis.log) && SentInThePast(s'.runs[t], s'.redis.now)
        ensures t in s.runs ==>
                  && s'.runs[t].setNet == s.runs[t].setNet
                  && (s.runs[t].releaseNet.Executed? ==> s'.runs[t].releaseNet == s.runs[t].releaseNet)
      {
        LocalStepKeepsRun(s, e, cfg, t);
      }
      LocalStepKeepsLogInv(s, s');
    }
  }

  /** Only an execution changes Redis, apart from its clock. */
  lemma LocalStepLeavesRedis(s: System, e: Event, cfg: Config)
    requires Enabled(s, e) && !e.ExecuteCommand?
    ensures Apply(s, e, cfg).redis == s.redis.(now := Apply(s, e, cfg).redis.now)
    ensures if e.TimePasses? then Apply(s, e, cfg).redis.now == s.redis.now + e.delta
            else Apply(s, e, cfg).redis.now == s.redis.now
  {
  }

  lemma {:induction false} ExecKeepsInv(s: System, events: seq<Event>, cfg: Config)
    requires Inv(s, cfg) && Exec(s, events, cfg).Some?
    ensures Inv(Exec(s, events, cfg).value, cfg)
    decreases |events|
  {
    if events != [] {
      StepKeepsInv(s, events[0], cfg);
      ExecKeepsInv(Apply(s, events[0], cfg), events[1..], cfg);
    }
  }

  lemma ReachableInv(s: System, cfg: Config)
    requires Reachable(s, cfg)
    ensures Inv(s, cfg)
  {
    var events :| Exec(INITIAL, events, cfg) == Some(s);
    ExecKeepsInv(INITIAL, events, cfg);
  }
}
