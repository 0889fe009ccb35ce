/** The high-availability protocol (internal/branch/ha.go, with the primary pointer and `up`, `down` and
    `suspend` of internal/branch/branch.go): two servers, a pointer file that says which one serves `main`,
    and commands that may fail. Every docker or psql command is one step; client writes, replication and
    crashes happen between any two of them. */
module HA {
  import opened Text

  type Write = nat

  // ---------------------------------------------------------------- state

  datatype Container = Absent | Stopped | Running

  /** A data directory: none (or an unusable part of one), or a log that the server starts from, as a
      replica while the recovery settings of the base backup are in it. */
  datatype Disk = NoData | Data(log: seq<Write>, replica: bool)

  datatype Server = Server(container: Container, disk: Disk)

  datatype Name = Main | Standby

  /** Which command of which action comes next. `base` is the log the standby was promoted with, `clean`
      whether the standby shut down in order, `final` the end of its log as read from its control file. */
  datatype Pc =
    | Idle
    | EnAllow | EnRemove | EnReset | EnChown | EnBackup | EnStart | EnWait
    | FoPromote | FoStop(base: seq<Write>) | FoPoint(base: seq<Write>)
    | FbAllow | FbRemove | FbWipe | FbChown | FbBackup | FbStart | FbWait | FbCatchUp | FbStop
    | FbReadEnd(clean: bool) | FbReplay(clean: bool, final: nat) | FbPromote(clean: bool)
    | FbPoint(clean: bool) | FbRecover | FbDrop | FbDestroy
    | UndoStop | UndoStart | UndoRemove
    | DiRemove | DiDestroy | DiPoint
    | DnMain | DnStandby
    | UpPrepare | UpRemove | UpMain | UpLaunch | UpResume | UpWait
    | SuStop(name: Name)

  datatype State = State(main: Server, standby: Server, pointer: Name, pc: Pc)

  predicate IsReplica(d: Disk) { d.Data? && d.replica }
  predicate IsPrimary(d: Disk) { d.Data? && !d.replica }

  /** The server accepts writes. */
  predicate Writable(x: Server) { x.container == Running && IsPrimary(x.disk) }

  function Log(d: Disk): seq<Write> { if d.Data? then d.log else [] }

  function Get(s: State, n: Name): Server { if n == Main then s.main else s.standby }

  function Put(s: State, n: Name, x: Server): State {
    if n == Main then s.(main := x) else s.(standby := x)
  }

  function Other(n: Name): Name { if n == Main then Standby else Main }

  /** The history clients are served: the log of the server recorded as primary. */
  function Served(s: State): seq<Write> { Log(Get(s, s.pointer).disk) }

  // ---------------------------------------------------------------- guards

  datatype Action = Enable | Failover | Failback | Disable | Up | Down | Suspend(name: Name) | Wake(name: Name)

  /** haGuard: enable, failover and disable would destroy or stop a promoted standby; failback needs one. */
  predicate HaGuard(a: Action, pointer: Name) {
    if a == Failback then pointer == Standby else pointer == Main
  }

  function ContainerName(branch: string): string { "oxyn-" + branch }

  /** Whether suspending a branch is refused: main always, whatever serves main, and the standby. */
  predicate SuspendRefused(branch: string, primary: string, haEnabled: bool) {
    branch == "main" || ContainerName(branch) == primary || (branch == "standby" && haEnabled)
  }

  function BranchOf(n: Name): string { if n == Main then "main" else "standby" }

  /** The first command of an action, Idle when it is refused or has nothing to do. Waking `main` only
      routes to the current primary. */
  function Begin(s: State, a: Action): Pc {
    match a
    case Enable => if HaGuard(a, s.pointer) then EnAllow else Idle
    case Failover => if HaGuard(a, s.pointer) && s.standby.container == Running then FoPromote else Idle
    case Failback => if HaGuard(a, s.pointer) && s.standby.container == Running then FbAllow else Idle
    case Disable => if HaGuard(a, s.pointer) then DiRemove else Idle
    case Down => DnMain
    case Up =>
      if s.pointer == Standby then
        if s.standby.container == Running then UpWait
        else if s.standby.container == Stopped then UpResume
        else if s.standby.disk.NoData? then Idle
        else UpLaunch
      else if s.main.container == Running then Idle
      else UpPrepare
    case Suspend(n) =>
      if SuspendRefused(BranchOf(n), ContainerName(BranchOf(s.pointer)), s.standby.container != Absent) then Idle
      else SuStop(n)
    case Wake(_) => Idle
  }

  // ---------------------------------------------------------------- commands

  /** How a command turned out. `partial` says what a failed command left behind; `clean`, `final` and
      `received` are what stopping the standby and reading its control file yield. */
  datatype Outcome = Outcome(ok: bool, partial: bool, clean: bool, final: nat, received: nat)

  function Removed(x: Server): Server { x.(container := Absent) }
  function Halted(x: Server): Server { if x.container == Running then x.(container := Stopped) else x }
  function Started(x: Server): Server { x.(container := Running) }
  function Failed(x: Server, partial: bool): Server { if partial then x.(container := Stopped) else x }

  /** The first start on an empty directory initialises an empty cluster. */
  function Launched(x: Server): Server {
    Server(Running, if x.disk.NoData? then Data([], false) else x.disk)
  }

  function Wiped(x: Server, done: bool): Server { if done then x.(disk := NoData) else x }

  /** A replica's log brought up to the first `n` entries of its upstream's. */
  predicate CanReceive(replica: Server, upstream: Server, n: nat) {
    replica.container == Running && IsReplica(replica.disk) &&
    Log(replica.disk) <= Log(upstream.disk) && |Log(replica.disk)| <= n <= |Log(upstream.disk)|
  }

  function Received(replica: Server, upstream: Server, n: nat): Server
    requires CanReceive(replica, upstream, n)
  {
    replica.(disk := replica.disk.(log := Log(upstream.disk)[..n]))
  }

  function Promoted(x: Server): Server {
    if x.disk.Data? then x.(disk := x.disk.(replica := false)) else x
  }

  /** A command of the engine. */
  datatype Task =
    | AllowReplication(primary: Name)  // on the server that is to be copied
    | RemoveContainer(name: Name)      // docker rm -f
    | ResetStandby | WipeMain          // empty the directory a copy is made into
    | Chown(name: Name)
    | BaseBackup(from: Name)           // pg_basebackup -R into the other server's directory
    | Launch(name: Name)               // docker run
    | Resume(name: Name)               // docker start
    | WaitReady
    | Promote(name: Name)              // SELECT pg_promote()
    | StopContainer(name: Name)        // docker stop
    | StopStandby                      // docker stop, while main replicates from it
    | ReadControlFile(clean: bool)     // the end of the standby's log, by its control file
    | PollCaughtUp
    | PollReplayed(final: nat)
    | SetPointer(name: Name)
    | DestroyStandby

  function TaskAt(pc: Pc): Task
    requires pc != Idle
  {
    match pc
    case EnAllow => AllowReplication(Main)
    case EnRemove => RemoveContainer(Standby)
    case EnReset => ResetStandby
    case EnChown => Chown(Standby)
    case EnBackup => BaseBackup(Main)
    case EnStart => Launch(Standby)
    case EnWait => WaitReady
    case FoPromote => Promote(Standby)
    case FoStop(_) => StopContainer(Main)
    case FoPoint(_) => SetPointer(Standby)
    case FbAllow => AllowReplication(Standby)
    case FbRemove => RemoveContainer(Main)
    case FbWipe => WipeMain
    case FbChown => Chown(Main)
    case FbBackup => BaseBackup(Standby)
    case FbStart => Launch(Main)
    case FbWait => WaitReady
    case FbCatchUp => PollCaughtUp
    case FbStop => StopStandby
    case FbReadEnd(clean) => ReadControlFile(clean)
    case FbReplay(_, final) => PollReplayed(final)
    case FbPromote(_) => Promote(Main)
    case FbPoint(_) => SetPointer(Main)
    case FbRecover => WaitReady
    case FbDrop => RemoveContainer(Standby)
    case FbDestroy => DestroyStandby
    case UndoStop => RemoveContainer(Main)
    case UndoStart => Resume(Standby)
    case UndoRemove => RemoveContainer(Main)
    case DiRemove => RemoveContainer(Standby)
    case DiDestroy => DestroyStandby
    case DiPoint => SetPointer(Main)
    case DnMain => RemoveContainer(Main)
    case DnStandby => RemoveContainer(Standby)
    case UpPrepare => Chown(Main)
    case UpRemove => RemoveContainer(Main)
    case UpMain => Launch(Main)
    case UpLaunch => Launch(Standby)
    case UpResume => Resume(Standby)
    case UpWait => WaitReady
    case SuStop(n) => StopContainer(n)
  }

  /** What a command does to the servers and the pointer, None when it cannot turn out so. Removing a
      container, stopping the old primary in a failover and writing the pointer take effect; a failed
      promotion of the standby did not promote it, one of main may have. */
  function Effect(task: Task, s: State, o: Outcome): Option<State> {
    match task
    case AllowReplication(n) => if o.ok && Get(s, n).container != Running then None else Some(s)
    case RemoveContainer(n) => Some(Put(s, n, Removed(Get(s, n))))
    case ResetStandby => Some(s.(standby := Wiped(s.standby, o.ok || o.partial)))
    case WipeMain => Some(s.(main := Wiped(s.main, o.ok || o.partial)))
    case Chown(_) => Some(s)
    case BaseBackup(from) =>
      var to := Get(s, Other(from));
      if !o.ok then Some(Put(s, Other(from), Wiped(to, true)))
      else if Get(s, from).container != Running then None
      else Some(Put(s, Other(from), to.(disk := Data(Log(Get(s, from).disk), true))))
    case Launch(n) => Some(Put(s, n, if o.ok then Launched(Get(s, n)) else Failed(Get(s, n), o.partial)))
    case Resume(n) =>
      if !o.ok then Some(s)
      else if Get(s, n).container == Absent then None
      else Some(Put(s, n, Started(Get(s, n))))
    case WaitReady => Some(s)
    case Promote(n) =>
      var x := Get(s, n);
      if x.container == Running && IsReplica(x.disk) then
        Some(Put(s, n, if o.ok || (o.partial && n == Main) then Promoted(x) else x))
      else if o.ok then None
      else Some(s)
    case StopContainer(n) => Some(Put(s, n, Halted(Get(s, n))))
    case StopStandby =>
      if !o.ok then Some(s.(standby := if o.partial then Halted(s.standby) else s.standby))
      else if o.clean && s.standby.container != Running then None
      else
        var main := if CanReceive(s.main, s.standby, o.received) then Received(s.main, s.standby, o.received) else s.main;
        Some(s.(main := main, standby := Halted(s.standby)))
    case ReadControlFile(clean) =>
      var end := |Log(s.standby.disk)|;
      if o.ok && (o.final > end || (clean && o.final != end)) then None else Some(s)
    case PollCaughtUp => if o.ok && Log(s.main.disk) != Log(s.standby.disk) then None else Some(s)
    case PollReplayed(final) =>
      if o.ok && !(s.main.container == Running && final <= |Log(s.main.disk)|) then None else Some(s)
    case SetPointer(n) => Some(s.(pointer := n))
    case DestroyStandby => Some(s.(standby := Wiped(s.standby, o.ok)))
  }

  /** The command after the one at `pc`; `received` is the standby's log, where its promotion happens. */
  function Next(pc: Pc, o: Outcome, received: seq<Write>): Pc
    requires pc != Idle
  {
    match pc
    case EnAllow => if o.ok then EnRemove else Idle
    case EnRemove => EnReset
    case EnReset => if o.ok then EnChown else Idle
    case EnChown => if o.ok then EnBackup else Idle
    case EnBackup => if o.ok then EnStart else Idle
    case EnStart => if o.ok then EnWait else Idle
    case EnWait => Idle
    case FoPromote => if o.ok then FoStop(received) else Idle
    case FoStop(base) => FoPoint(base)
    case FoPoint(_) => Idle
    case FbAllow => if o.ok then FbRemove else UndoRemove
    case FbRemove => FbWipe
    case FbWipe => if o.ok then FbChown else UndoRemove
    case FbChown => if o.ok then FbBackup else UndoRemove
    case FbBackup => if o.ok then FbStart else UndoRemove
    case FbStart => if o.ok then FbWait else UndoRemove
    case FbWait => if o.ok then FbCatchUp else UndoRemove
    case FbCatchUp => if o.ok then FbStop else UndoRemove
    case FbStop => if o.ok then FbReadEnd(o.clean) else UndoStop
    case FbReadEnd(clean) => if o.ok then FbReplay(clean, o.final) else UndoStop
    case FbReplay(clean, _) => if o.ok then FbPromote(clean) else UndoStop
    case FbPromote(clean) => if o.ok then FbPoint(clean) else UndoStop
    case FbPoint(_) => FbRecover
    case FbRecover => if o.ok then FbDrop else Idle
    case FbDrop => FbDestroy
    case FbDestroy => Idle
    case UndoStop => UndoStart
    case UndoStart => UndoRemove
    case UndoRemove => Idle
    case DiRemove => DiDestroy
    case DiDestroy => DiPoint
    case DiPoint => Idle
    case DnMain => DnStandby
    case DnStandby => Idle
    case UpPrepare => if o.ok then UpRemove else Idle
    case UpRemove => UpMain
    case UpMain => if o.ok then UpWait else Idle
    case UpLaunch => if o.ok then UpWait else Idle
    case UpResume => if o.ok then UpWait else Idle
    case UpWait => Idle
    case SuStop(_) => Idle
  }

  /** The state after the command at `s.pc`, None when the command cannot turn out so. */
  function Execute(s: State, o: Outcome): Option<State>
    requires s.pc != Idle
  {
    var r := Effect(TaskAt(s.pc), s, o);
    if r.None? then None else Some(r.value.(pc := Next(s.pc, o, Log(s.standby.disk))))
  }

  // ---------------------------------------------------------------- the environment

  datatype Event =
    | Accept(at: Name, write: Write)  // a client write, on whatever server accepts it
    | Stream(to: Name, n: nat)        // replication
    | Crash(at: Name)

  function Happen(s: State, e: Event): Option<State> {
    match e
    case Accept(n, w) =>
      var x := Get(s, n);
      if Writable(x) then Some(Put(s, n, x.(disk := x.disk.(log := x.disk.log + [w])))) else None
    case Stream(n, k) =>
      var x, up := Get(s, n), Get(s, Other(n));
      if up.container == Running && CanReceive(x, up, k) then Some(Put(s, n, Received(x, up, k))) else None
    case Crash(n) => Some(Put(s, n, Halted(Get(s, n))))
  }

  datatype Step = Start(action: Action) | Command(outcome: Outcome) | Environment(event: Event)

  /** One step of the system: one action at a time, the environment at any time. */
  function Apply(s: State, t: Step): Option<State> {
    match t
    case Start(a) => if s.pc == Idle then Some(s.(pc := Begin(s, a))) else None
    case Command(o) => if s.pc == Idle then None else Execute(s, o)
    case Environment(e) => Happen(s, e)
  }

  ghost predicate Run(states: seq<State>, steps: seq<Step>) {
    |states| == |steps| + 1 && forall i :: 0 <= i < |steps| ==> Apply(states[i], steps[i]) == Some(states[i + 1])
  }

  /** A fresh install: no containers, main not initialised, no standby. */
  const FRESH := State(Server(Absent, NoData), Server(Absent, NoData), Main, Idle)

  // ---------------------------------------------------------------- the invariant

  /** main serves: its data is no replica's, and a running standby only follows it. */
  predicate MainServes(s: State) {
    s.pointer == Main && !IsReplica(s.main.disk) && !Writable(s.standby) &&
    (IsReplica(s.standby.disk) ==> Log(s.standby.disk) <= Log(s.main.disk))
  }

  /** The promoted standby serves. */
  predicate StandbyServes(s: State) {
    s.pointer == Standby && IsPrimary(s.standby.disk)
  }

  /** main's data is a copy of the standby's, up to some point. */
  predicate MainFollows(s: State) {
    IsReplica(s.main.disk) && Log(s.main.disk) <= Log(s.standby.disk)
  }

  predicate Inv(s: State) {
    match s.pc
    case Idle => MainServes(s) || (StandbyServes(s) && s.main.container != Running)
    case EnAllow | EnRemove | FoPromote | UpPrepare | UpRemove | UpMain => MainServes(s)
    case EnWait => MainServes(s) && IsReplica(s.standby.disk)
    case EnReset | EnChown | EnBackup | DiDestroy | DiPoint => MainServes(s) && s.standby.container == Absent
    case EnStart => MainServes(s) && s.standby.container == Absent && IsReplica(s.standby.disk)
    case DiRemove | FbRecover | FbDrop => MainServes(s)
    case FbDestroy => MainServes(s) && s.standby.container == Absent
    case FoStop(base) =>
      s.pointer == Main && !IsReplica(s.main.disk) && IsPrimary(s.standby.disk) &&
      base <= Log(s.main.disk) && base <= Log(s.standby.disk)
    case FoPoint(base) =>
      s.pointer == Main && !IsReplica(s.main.disk) && IsPrimary(s.standby.disk) && s.main.container != Running &&
      base <= Log(s.main.disk) && base <= Log(s.standby.disk)
    case FbAllow | FbRemove | UpLaunch | UpResume => StandbyServes(s) && s.main.container != Running
    case FbWipe | FbChown | FbBackup => StandbyServes(s) && s.main.container == Absent
    case FbStart => StandbyServes(s) && s.main.container == Absent && MainFollows(s)
    case FbWait | FbCatchUp | FbStop => StandbyServes(s) && MainFollows(s)
    case FbReadEnd(_) => StandbyServes(s) && MainFollows(s) && s.standby.container != Running
    case FbReplay(clean, final) =>
      StandbyServes(s) && MainFollows(s) && s.standby.container != Running &&
      final <= |Log(s.standby.disk)| && (clean ==> final == |Log(s.standby.disk)|)
    case FbPromote(clean) =>
      StandbyServes(s) && MainFollows(s) && s.standby.container != Running &&
      (clean ==> Log(s.main.disk) == Log(s.standby.disk))
    case FbPoint(clean) =>
      StandbyServes(s) && IsPrimary(s.main.disk) && s.standby.container != Running &&
      (clean ==> Log(s.standby.disk) <= Log(s.main.disk))
    case UndoStop => StandbyServes(s) && (Writable(s.main) ==> s.standby.container != Running)
    case UndoStart => StandbyServes(s) && s.main.container == Absent
    case UndoRemove => StandbyServes(s) && !Writable(s.main)
    case DnMain | UpWait => MainServes(s) || (StandbyServes(s) && s.main.container != Running)
    case DnStandby => (MainServes(s) || StandbyServes(s)) && s.main.container == Absent
    case SuStop(n) => n == Standby && MainServes(s) && s.standby.container == Absent
  }

  lemma StartKeepsInv(s: State, a: Action)
    requires Inv(s) && s.pc == Idle
    ensures Inv(s.(pc := Begin(s, a)))
  {
    assert BranchOf(Main) == "main" && BranchOf(Standby) == "standby";
    assert ContainerName("main") != ContainerName("standby") by {
      assert ContainerName("main")[5] == 'm' && ContainerName("standby")[5] == 's';
    }
  }

  lemma AcceptKeepsInv(s: State, n: Name, w: Write)
    requires Inv(s) && Happen(s, Accept(n, w)).Some?
    ensures Inv(Happen(s, Accept(n, w)).value)
  {
  }

  lemma StreamKeepsInv(s: State, n: Name, k: nat)
    requires Inv(s) && Happen(s, Stream(n, k)).Some?
    ensures Inv(Happen(s, Stream(n, k)).value)
  {
  }

  lemma CrashHappens(s: State, n: Name)
    ensures Happen(s, Crash(n)).Some?
  {
  }

  lemma CrashKeepsInv(s: State, n: Name)
    requires Inv(s)
    ensures Inv(Happen(s, Crash(n)).value)
  {
  }

  predicate Enabling(pc: Pc) {
    pc.EnAllow? || pc.EnRemove? || pc.EnReset? || pc.EnChown? || pc.EnBackup? || pc.EnStart? || pc.EnWait?
  }

  predicate FailingOver(pc: Pc) {
    pc.FoPromote? || pc.FoStop? || pc.FoPoint?
  }

  predicate Copying(pc: Pc) {
    pc.FbAllow? || pc.FbRemove? || pc.FbWipe? || pc.FbChown? || pc.FbBackup?
  }

  predicate CatchingUp(pc: Pc) {
    pc.FbStart? || pc.FbWait? || pc.FbCatchUp?
  }

  predicate HandingOver(pc: Pc) {
    pc.FbStop? || Taking(pc)
  }

  predicate Taking(pc: Pc) {
    pc.FbReadEnd? || pc.FbReplay? || pc.FbPromote?
  }

  predicate Finishing(pc: Pc) {
    pc.FbPoint? || pc.FbRecover? || pc.FbDrop? || pc.FbDestroy?
  }

  predicate Undoing(pc: Pc) {
    pc.UndoStop? || pc.UndoStart? || pc.UndoRemove?
  }

  predicate Disabling(pc: Pc) {
    pc.DiRemove? || pc.DiDestroy? || pc.DiPoint?
  }

  predicate GoingUp(pc: Pc) {
    pc.UpPrepare? || pc.UpRemove? || pc.UpMain?
  }

  predicate StandbyGoingUp(pc: Pc) {
    pc.UpLaunch? || pc.UpResume? || pc.UpWait?
  }

  predicate Stopping(pc: Pc) {
    pc.DnMain? || pc.DnStandby? || pc.SuStop?
  }

  lemma EveryCommandBelongs(pc: Pc)
    requires pc != Idle
    ensures Enabling(pc) || FailingOver(pc) || Copying(pc) || CatchingUp(pc) || HandingOver(pc) ||
            Finishing(pc) || Undoing(pc) || Disabling(pc) || GoingUp(pc) || StandbyGoingUp(pc) || Stopping(pc)
  {
  }

  lemma EnablingKeepsInv(s: State, o: Outcome)
    requires Inv(s) && Enabling(s.pc) && Execute(s, o).Some?
    ensures Inv(Execute(s, o).value)
  {
  }

  lemma FailingOverKeepsInv(s: State, o: Outcome)
    requires Inv(s) && FailingOver(s.pc) && Execute(s, o).Some?
    ensures Inv(Execute(s, o).value)
  {
  }

  lemma CopyingKeepsInv(s: State, o: Outcome)
    requires Inv(s) && Copying(s.pc) && Execute(s, o).Some?
    ensures Inv(Execute(s, o).value)
  {
  }

  lemma CatchingUpKeepsInv(s: State, o: Outcome)
    requires Inv(s) && CatchingUp(s.pc) && Execute(s, o).Some?
    ensures Inv(Execute(s, o).value)
  {
  }

  lemma StandbyStopKeepsInv(s: State, o: Outcome)
    requires Inv(s) && s.pc.FbStop? && Execute(s, o).Some?
    ensures Inv(Execute(s, o).value)
  {
  }

  lemma TakingKeepsInv(s: State, o: Outcome)
    requires Inv(s) && Taking(s.pc) && Execute(s, o).Some?
    ensures Inv(Execute(s, o).value)
  {
  }

  lemma HandingOverKeepsInv(s: State, o: Outcome)
    requires Inv(s) && HandingOver(s.pc) && Execute(s, o).Some?
    ensures Inv(Execute(s, o).value)
  {
    hide Inv; hide Execute; hide Taking;
    if s.pc.FbStop? {
      StandbyStopKeepsInv(s, o);
    } else {
      TakingKeepsInv(s, o);
    }
  }

  lemma FinishingKeepsInv(s: State, o: Outcome)
    requires Inv(s) && Finishing(s.pc) && Execute(s, o).Some?
    ensures Inv(Execute(s, o).value)
  {
  }

  lemma UndoingKeepsInv(s: State, o: Outcome)
    requires Inv(s) && Undoing(s.pc) && Execute(s, o).Some?
    ensures Inv(Execute(s, o).value)
  {
  }

  lemma DisablingKeepsInv(s: State, o: Outcome)
    requires Inv(s) && Disabling(s.pc) && Execute(s, o).Some?
    ensures Inv(Execute(s, o).value)
  {
  }

  lemma StandbyGoingUpKeepsInv(s: State, o: Outcome)
    requires Inv(s) && StandbyGoingUp(s.pc) && Execute(s, o).Some?
    ensures Inv(Execute(s, o).value)
  {
  }

  lemma GoingUpKeepsInv(s: State, o: Outcome)
    requires Inv(s) && GoingUp(s.pc) && Execute(s, o).Some?
    ensures Inv(Execute(s, o).value)
  {
  }

  lemma StoppingKeepsInv(s: State, o: Outcome)
    requires Inv(s) && Stopping(s.pc) && Execute(s, o).Some?
    ensures Inv(Execute(s, o).value)
  {
  }

  lemma CommandKeepsInv(s: State, o: Outcome)
    requires Inv(s) && s.pc != Idle && Execute(s, o).Some?
    ensures Inv(Execute(s, o).value)
  {
    hide *;
    EveryCommandBelongs(s.pc);
    if Enabling(s.pc) { EnablingKeepsInv(s, o); }
    if FailingOver(s.pc) { FailingOverKeepsInv(s, o); }
    if Copying(s.pc) { CopyingKeepsInv(s, o); }
    if CatchingUp(s.pc) { CatchingUpKeepsInv(s, o); }
    if HandingOver(s.pc) { HandingOverKeepsInv(s, o); }
    if Finishing(s.pc) { FinishingKeepsInv(s, o); }
    if Undoing(s.pc) { UndoingKeepsInv(s, o); }
    if Disabling(s.pc) { DisablingKeepsInv(s, o); }
    if GoingUp(s.pc) { GoingUpKeepsInv(s, o); }
    if StandbyGoingUp(s.pc) { StandbyGoingUpKeepsInv(s, o); }
    if Stopping(s.pc) { StoppingKeepsInv(s, o); }
  }

  lemma {:induction false} RunKeepsInv(states: seq<State>, steps: seq<Step>, i: nat)
    requires Run(states, steps) && states[0] == FRESH && i < |states|
    ensures Inv(states[i])
  {
    hide Inv; hide Execute; hide Happen; hide Begin;
    if i == 0 {
      FreshInv();
    } else {
      RunKeepsInv(states, steps, i - 1);
      assert Apply(states[i - 1], steps[i - 1]) == Some(states[i - 1 + 1]);
      StepKeepsInv(states[i - 1], steps[i - 1]);
    }
  }

  lemma FreshInv()
    ensures Inv(FRESH)
  {
  }

  lemma StepKeepsInv(s: State, t: Step)
    requires Inv(s) && Apply(s, t).Some?
    ensures Inv(Apply(s, t).value)
  {
    hide Inv; hide Execute; hide Happen; hide Begin;
    match t {
      case Start(a) => StartKeepsInv(s, a);
      case Command(o) => CommandKeepsInv(s, o);
      case Environment(Accept(n, w)) => AcceptKeepsInv(s, n, w);
      case Environment(Stream(n, k)) => StreamKeepsInv(s, n, k);
      case Environment(Crash(n)) =>
        assert Happen(s, Crash(n)).Some? by { CrashHappens(s, n); }
        CrashKeepsInv(s, n);
    }
  }

  // ---------------------------------------------------------------- one writable server

  /** Over every run: two servers accept writes only between failover's promotion and its stop of the old
      primary, and whenever no action is under way the only server that may accept writes is the one the
      one recorded as primary. */
  lemma NoSplitBrain(states: seq<State>, steps: seq<Step>, i: nat)
    requires Run(states, steps) && states[0] == FRESH && i < |states|
    ensures Writable(states[i].main) && Writable(states[i].standby) ==> states[i].pc.FoStop?
    ensures states[i].pc == Idle ==> forall n :: Writable(Get(states[i], n)) ==> n == states[i].pointer
  {
    RunKeepsInv(states, steps, i);
    InvMeansOneWritable(states[i]);
  }

  lemma InvMeansOneWritable(s: State)
    requires Inv(s)
    ensures Writable(s.main) && Writable(s.standby) ==> s.pc.FoStop?
    ensures s.pc == Idle ==> forall n :: Writable(Get(s, n)) ==> n == s.pointer
  {
  }

  /** Suspending either server is refused or finds nothing to stop. */
  lemma SuspendStopsNothing(s: State, o: Outcome)
    requires Inv(s) && s.pc.SuStop?
    ensures Execute(s, o) == Some(s.(pc := Idle))
  {
  }

  // ---------------------------------------------------------------- no write lost

  /** The two commands that may drop writes: failover's pointer move, and failback's after an unclean stop
      of the standby. */
  predicate MayDrop(pc: Pc) {
    pc.FoPoint? || (pc.FbPoint? && !pc.clean)
  }

  lemma EnvironmentKeepsServed(s: State, e: Event)
    requires Inv(s) && Happen(s, e).Some?
    ensures Served(s) <= Served(Happen(s, e).value)
  {
    match e {
      case Accept(_, _) =>
      case Stream(_, _) =>
      case Crash(_) =>
    }
  }

  lemma CommandKeepsServed(s: State, o: Outcome)
    requires Inv(s) && s.pc != Idle && Execute(s, o).Some? && !MayDrop(s.pc)
    ensures Served(s) <= Served(Execute(s, o).value)
  {
    EveryCommandBelongs(s.pc);
    if Enabling(s.pc) { EnablingKeepsServed(s, o); }
    else if HandingOver(s.pc) { HandingOverKeepsServed(s, o); }
    else { OthersKeepServed(s, o); }
  }

  lemma EnablingKeepsServed(s: State, o: Outcome)
    requires Inv(s) && Enabling(s.pc) && Execute(s, o).Some?
    ensures Served(s) == Served(Execute(s, o).value)
  {
  }

  lemma HandingOverKeepsServed(s: State, o: Outcome)
    requires Inv(s) && HandingOver(s.pc) && Execute(s, o).Some?
    ensures Served(s) == Served(Execute(s, o).value)
  {
  }

  lemma OthersKeepServed(s: State, o: Outcome)
    requires Inv(s) && s.pc != Idle && !Enabling(s.pc) && !HandingOver(s.pc)
    requires Execute(s, o).Some? && !MayDrop(s.pc)
    ensures Served(s) <= Served(Execute(s, o).value)
  {
  }

  /** Step `t` from `s` is one of those two commands. */
  predicate Drops(s: State, t: Step) {
    t.Command? && MayDrop(s.pc)
  }

  lemma StepKeepsServed(s: State, t: Step)
    requires Inv(s) && Apply(s, t).Some? && !Drops(s, t)
    ensures Served(s) <= Served(Apply(s, t).value)
  {
    hide Inv; hide Execute; hide Happen; hide Begin;
    match t {
      case Start(a) =>
      case Command(o) => CommandKeepsServed(s, o);
      case Environment(e) => EnvironmentKeepsServed(s, e);
    }
  }

  /** Over every run, what clients are served only ever grows, except where a failover moves the pointer or
      a failback does after the standby was stopped uncleanly. */
  lemma {:induction false} ServedOnlyGrows(states: seq<State>, steps: seq<Step>, i: nat, j: nat)
    requires Run(states, steps) && states[0] == FRESH && i <= j < |states|
    requires forall k :: i <= k < j ==> !Drops(states[k], steps[k])
    ensures Served(states[i]) <= Served(states[j])
  {
    hide Inv; hide Execute; hide Happen; hide Begin; hide Served; hide Drops;
    if i < j {
      ServedOnlyGrows(states, steps, i, j - 1);
      RunKeepsInv(states, steps, j - 1);
      assert Apply(states[j - 1], steps[j - 1]) == Some(states[j - 1 + 1]);
      StepKeepsServed(states[j - 1], steps[j - 1]);
    }
  }

  /** A write accepted by the serving server keeps its place in the served history. */
  lemma AcceptedWriteStays(states: seq<State>, steps: seq<Step>, i: nat, j: nat, w: Write)
    requires Run(states, steps) && states[0] == FRESH && i < j < |states|
    requires steps[i] == Environment(Accept(states[i].pointer, w))
    requires forall k :: i <= k < j ==> !Drops(states[k], steps[k])
    ensures |Served(states[i])| < |Served(states[j])| && Served(states[j])[|Served(states[i])|] == w
  {
    assert Apply(states[i], steps[i]) == Some(states[i + 1]);
    AcceptAppends(states[i], w);
    hide Inv; hide Execute; hide Happen; hide Begin; hide Served;
    ServedOnlyGrows(states, steps, i + 1, j);
  }

  lemma AcceptAppends(s: State, w: Write)
    requires Happen(s, Accept(s.pointer, w)).Some?
    ensures Served(Happen(s, Accept(s.pointer, w)).value) == Served(s) + [w]
  {
  }

  lemma PromotionFixesBase(s: State, o: Outcome)
    requires Inv(s) && s.pc == FoPromote && Execute(s, o).Some? && Execute(s, o).value.pc != Idle
    ensures var s' := Execute(s, o).value;
            s'.pc == FoStop(Log(s.standby.disk)) && Log(s.standby.disk) <= Served(s)
  {
  }

  /** After a promotion the failover goes on to move the pointer; `base` stays what it was. */
  lemma FailoverGoesOn(s: State, t: Step)
    requires Inv(s) && (s.pc.FoStop? || s.pc.FoPoint?) && Apply(s, t).Some?
    ensures var s' := Apply(s, t).value;
            if s'.pc == Idle then s.pc.FoPoint? && s'.pointer == Standby && s.pc.base <= Served(s')
            else (s'.pc.FoStop? || s'.pc.FoPoint?) && s'.pc.base == s.pc.base
  {
    hide Happen;
    if t.Environment? {
      EnvironmentKeepsPlan(s, t.event);
      hide Execute; hide Inv;
    }
  }

  /** The promotion at step `i` has succeeded, and in the states after it up to `j` the failover is under way. */
  ghost predicate FailingOverFrom(states: seq<State>, i: nat, j: nat) {
    i < j < |states| && states[i].pc == FoPromote &&
    forall k :: i < k < j ==> states[k].pc.FoStop? || states[k].pc.FoPoint?
  }

  lemma StepOf(states: seq<State>, steps: seq<Step>, k: nat)
    requires Run(states, steps) && k + 1 < |states|
    ensures k < |steps| && Apply(states[k], steps[k]) == Some(states[k + 1])
  {
    hide Apply;
  }

  lemma {:induction false} BaseStays(states: seq<State>, steps: seq<Step>, i: nat, j: nat)
    requires Run(states, steps) && states[0] == FRESH && FailingOverFrom(states, i, j)
    requires steps[i].Command? && states[i + 1].pc.FoStop?
    ensures var log := Log(states[i].standby.disk);
            if states[j].pc == Idle then states[j].pointer == Standby && log <= Served(states[j])
            else (states[j].pc.FoStop? || states[j].pc.FoPoint?) && states[j].pc.base == log
  {
    hide Inv; hide Served; hide Run; hide Execute; hide Happen; hide Begin; hide Apply;
    RunKeepsInv(states, steps, j - 1);
    StepOf(states, steps, j - 1);
    if j == i + 1 {
      CommandsOnly(states[i], steps[i]);
      PromotionFixesBase(states[i], steps[i].outcome);
    } else {
      hide Log;
      BaseStays(states, steps, i, j - 1);
      FailoverGoesOn(states[j - 1], steps[j - 1]);
    }
  }

  /** In every run, a failover whose promotion succeeded at step `i` and that has ended in state `j` moved the
      pointer, and dropped at most what the standby had not received when it was promoted: its log then is a
      beginning both of what was served before and of what is served afterwards. */
  lemma FailoverKeepsReplicatedWrites(states: seq<State>, steps: seq<Step>, i: nat, j: nat)
    requires Run(states, steps) && states[0] == FRESH && FailingOverFrom(states, i, j) && states[j].pc == Idle
    requires steps[i].Command? && states[i + 1].pc.FoStop?
    ensures states[j].pointer == Standby
    ensures Log(states[i].standby.disk) <= Served(states[i]) && Log(states[i].standby.disk) <= Served(states[j])
  {
    RunKeepsInv(states, steps, i);
    assert Apply(states[i], steps[i]) == Some(states[i + 1]);
    PromotionFixesBase(states[i], steps[i].outcome);
    hide Inv; hide Execute; hide Served; hide Run;
    BaseStays(states, steps, i, j);
  }

  // ---------------------------------------------------------------- failback

  lemma CleanPromotionHasAll(s: State, o: Outcome)
    requires Inv(s) && s.pc == FbPromote(true) && o.ok && Execute(s, o).Some?
    ensures var s' := Execute(s, o).value;
            IsPrimary(s'.main.disk) && Log(s'.main.disk) == Log(s.standby.disk) == Served(s)
  {
  }

  /** The replay check passes in `s`, in which the stopped standby holds `log`. */
  predicate ReplayPasses(s: State, log: seq<Write>, clean: bool, final: nat) {
    Inv(s) && s.pc == FbReplay(clean, final) && Log(s.standby.disk) == log &&
    Execute(s, Outcome(true, false, false, 0, 0)).Some?
  }

  /** The replay check before promotion proves this exactly when the position read from the control file
      is the end of the standby's log. */
  lemma ReplayCheckSufficesIff(log: seq<Write>, final: nat, clean: bool)
    requires final <= |log| && (clean ==> final == |log|)
    ensures (forall s :: ReplayPasses(s, log, clean, final) ==> Log(s.main.disk) == log) <==> final == |log|
  {
    if final < |log| {
      ShortReplicaIsPossible(log, final, clean);
    } else {
      forall s | ReplayPasses(s, log, clean, final)
        ensures Log(s.main.disk) == log
      {
        ReplayedIsPrefix(s, log, clean, final);
      }
    }
  }

  lemma ShortReplicaIsPossible(log: seq<Write>, final: nat, clean: bool)
    requires final < |log| && !clean
    ensures exists s :: ReplayPasses(s, log, clean, final) && Log(s.main.disk) != log
  {
    var s := State(Server(Running, Data(log[..final], true)), Server(Stopped, Data(log, false)), Standby,
                   FbReplay(clean, final));
    assert ReplayPasses(s, log, clean, final) && Log(s.main.disk) != log;
  }

  lemma ReplayedIsPrefix(s: State, log: seq<Write>, clean: bool, final: nat)
    requires ReplayPasses(s, log, clean, final)
    ensures Log(s.main.disk) <= log && final <= |Log(s.main.disk)|
  {
  }

  /** The states a failback goes through. */
  predicate InFailback(s: State) {
    if s.pc.FbRecover? || s.pc.FbDrop? || s.pc.FbDestroy? then s.pointer == Main
    else s.pointer == Standby &&
         (Copying(s.pc) || CatchingUp(s.pc) || HandingOver(s.pc) || s.pc.FbPoint? || Undoing(s.pc))
  }

  /** After a command of a failback: it goes on, or has ended; the pointer never moves back to the standby. */
  predicate StaysInFailback(s: State, s': State) {
    (s'.pc != Idle ==> InFailback(s')) && (s.pointer == Main ==> s'.pointer == Main)
  }

  lemma CopyingGoesOn(s: State, o: Outcome)
    requires InFailback(s) && (Copying(s.pc) || CatchingUp(s.pc)) && Execute(s, o).Some?
    ensures StaysInFailback(s, Execute(s, o).value)
  {
  }

  lemma HandingOverGoesOn(s: State, o: Outcome)
    requires InFailback(s) && HandingOver(s.pc) && Execute(s, o).Some?
    ensures StaysInFailback(s, Execute(s, o).value)
  {
  }

  lemma EndGoesOn(s: State, o: Outcome)
    requires InFailback(s) && (Finishing(s.pc) || Undoing(s.pc)) && Execute(s, o).Some?
    ensures StaysInFailback(s, Execute(s, o).value)
  {
  }

  lemma PhasesOfFailback(s: State)
    requires InFailback(s)
    ensures s.pc != Idle
    ensures Copying(s.pc) || CatchingUp(s.pc) || HandingOver(s.pc) || Finishing(s.pc) || Undoing(s.pc)
  {
  }

  lemma FailbackGoesOn(s: State, t: Step)
    requires Inv(s) && InFailback(s) && Apply(s, t).Some?
    ensures StaysInFailback(s, Apply(s, t).value)
  {
    PhasesOfFailback(s);
    if t.Environment? {
      EnvironmentKeepsPlan(s, t.event);
      hide Execute; hide Happen; hide Inv;
    } else {
      hide *;
      assert t.Command? && Apply(s, t) == Execute(s, t.outcome) by {
        CommandsOnly(s, t);
      }
      if Copying(s.pc) || CatchingUp(s.pc) { CopyingGoesOn(s, t.outcome); }
      if HandingOver(s.pc) { HandingOverGoesOn(s, t.outcome); }
      if Finishing(s.pc) || Undoing(s.pc) { EndGoesOn(s, t.outcome); }
    }
  }

  lemma CommandsOnly(s: State, t: Step)
    requires s.pc != Idle && !t.Environment? && Apply(s, t).Some?
    ensures t.Command? && Apply(s, t) == Execute(s, t.outcome)
  {
    hide Execute;
  }

  /** A server after events and nothing else: its log may have grown and it may have crashed. */
  predicate ServerGrown(x: Server, y: Server) {
    (y.container == x.container || (x.container == Running && y.container == Stopped)) &&
    x.disk.Data? == y.disk.Data? && IsReplica(x.disk) == IsReplica(y.disk) && Log(x.disk) <= Log(y.disk)
  }

  predicate Grown(s: State, t: State) {
    s.pc == t.pc && s.pointer == t.pointer && ServerGrown(s.main, t.main) && ServerGrown(s.standby, t.standby)
  }

  /** The environment neither moves the pointer nor interferes with what comes next. */
  lemma EnvironmentKeepsPlan(s: State, e: Event)
    requires Happen(s, e).Some?
    ensures Grown(s, Happen(s, e).value)
  {
  }

  lemma FailbackStep(s: State, t: Step)
    requires Inv(s) && InFailback(s) && Apply(s, t).Some?
    ensures var s' := Apply(s, t).value;
            Inv(s') && (s'.pc == Idle || InFailback(s')) &&
            (s'.pointer == Standby ==> s.pointer == Standby && Served(s) <= Served(s')) &&
            (s'.pc == Idle && s'.pointer == Standby ==> s'.main.container != Running)
  {
    hide Inv; hide Execute; hide Happen; hide Begin; hide Served; hide InFailback; hide Apply;
    StepKeepsInv(s, t);
    FailbackGoesOn(s, t);
    assert StaysInFailback(s, Apply(s, t).value);
    IdleMeansOneServes(Apply(s, t).value);
    if Apply(s, t).value.pointer == Standby {
      PointerMoveIsVisible(s, t);
      StepKeepsServed(s, t);
    }
  }

  /** As long as a failback has not moved the pointer, nothing is lost; and if it gives up, the standby still
      serves and main is not running. */
  lemma {:induction false} FailedFailbackIsHarmless(states: seq<State>, steps: seq<Step>, i: nat, j: nat)
    requires Run(states, steps) && states[0] == FRESH && i < j < |states|
    requires states[i].pc == FbAllow && forall k :: i <= k < j ==> states[k].pc != Idle
    ensures states[j].pc == Idle || InFailback(states[j])
    ensures states[j].pointer == Standby ==> states[j - 1].pointer == Standby && Served(states[i]) <= Served(states[j])
    ensures states[j].pc == Idle && states[j].pointer == Standby ==> states[j].main.container != Running
  {
    hide Inv; hide Execute; hide Happen; hide Begin; hide Served; hide InFailback; hide Apply;
    RunKeepsInv(states, steps, j - 1);
    assert Apply(states[j - 1], steps[j - 1]) == Some(states[j - 1 + 1]);
    if i + 1 < j {
      FailedFailbackIsHarmless(states, steps, i, j - 1);
    } else {
      FailbackStarts(states[i]);
    }
    FailbackStep(states[j - 1], steps[j - 1]);
  }

  lemma FailbackStarts(s: State)
    requires Inv(s) && s.pc == FbAllow
    ensures InFailback(s) && s.pointer == Standby
  {
  }

  lemma IdleMeansOneServes(s: State)
    requires Inv(s)
    ensures s.pc == Idle && s.pointer == Standby ==> s.main.container != Running
  {
  }

  lemma PointerMoveIsVisible(s: State, t: Step)
    requires Inv(s) && InFailback(s) && Apply(s, t).Some? && Apply(s, t).value.pointer == Standby
    ensures !Drops(s, t) && s.pointer == Standby
  {
  }

  /** In the states from `i` to `j` of a run one failback is under way and has not moved the pointer. */
  ghost predicate FailbackFrom(states: seq<State>, i: nat, j: nat) {
    i <= j < |states| && states[i].pc == FbAllow &&
    forall k :: i <= k <= j ==> states[k].pc != Idle && states[k].pointer == Standby
  }

  /** A run from a fresh install in which the failback begun in state `i` promotes main in step `j`, the standby
      having been stopped as `clean` says. */
  ghost predicate PromotesMain(states: seq<State>, steps: seq<Step>, i: nat, j: nat, clean: bool) {
    Run(states, steps) && states[0] == FRESH && FailbackFrom(states, i, j) && j < |steps| &&
    states[j].pc == FbPromote(clean) && steps[j].Command? && steps[j].outcome.ok
  }

  /** main, once promoted in step `j`, holds everything that was served since the failback began in state `i`. */
  ghost predicate HoldsEverything(states: seq<State>, i: nat, j: nat) {
    j + 1 < |states| && IsPrimary(states[j + 1].main.disk) && forall k :: i <= k <= j ==> Served(states[k]) <= Log(states[j + 1].main.disk)
  }

  lemma DroppingEndsTheFailback(s: State, t: Step)
    requires Drops(s, t) && Apply(s, t).Some?
    ensures Apply(s, t).value.pc == Idle || Apply(s, t).value.pointer == Main
  {
  }

  lemma NothingDroppedYet(states: seq<State>, steps: seq<Step>, i: nat, j: nat, k: nat)
    requires Run(states, steps) && FailbackFrom(states, i, j) && i <= k < j
    ensures !Drops(states[k], steps[k])
  {
    hide Drops; hide Apply;
    assert Apply(states[k], steps[k]) == Some(states[k + 1]);
    if Drops(states[k], steps[k]) {
      DroppingEndsTheFailback(states[k], steps[k]);
    }
  }

  lemma ServedThroughFailback(states: seq<State>, steps: seq<Step>, i: nat, j: nat, k: nat)
    requires Run(states, steps) && states[0] == FRESH && FailbackFrom(states, i, j) && i <= k <= j
    ensures Served(states[k]) <= Served(states[j])
  {
    hide Drops; hide Served;
    forall m | k <= m < j
      ensures !Drops(states[m], steps[m])
    {
      NothingDroppedYet(states, steps, i, j, m);
    }
    hide FailbackFrom; hide Run;
    ServedOnlyGrows(states, steps, k, j);
  }

  /** After an orderly stop of the standby a failback loses no write. */
  lemma FailbackLosesNoWrite(states: seq<State>, steps: seq<Step>, i: nat, j: nat)
    requires PromotesMain(states, steps, i, j, true)
    ensures HoldsEverything(states, i, j) && Log(states[j + 1].main.disk) == Log(states[j].standby.disk) == Served(states[j])
  {
    assert Apply(states[j], steps[j]) == Some(states[j + 1]);
    RunKeepsInv(states, steps, j);
    CleanPromotionHasAll(states[j], steps[j].outcome);
    hide Inv; hide Execute; hide Served; hide Run; hide Apply; hide FailbackFrom;
    forall k | i <= k <= j
      ensures Served(states[k]) <= Served(states[j])
    {
      ServedThroughFailback(states, steps, i, j, k);
    }
  }

  // ---------------------------------------------------------------- an unclean stop

  /** One more step of a run. */
  lemma Extend(states: seq<State>, steps: seq<Step>, t: Step, s: State)
    returns (states': seq<State>, steps': seq<Step>)
    requires Run(states, steps) && Apply(states[|states| - 1], t) == Some(s)
    ensures Run(states', steps') && states <= states' && steps <= steps' && states'[|states'| - 1] == s
  {
    states', steps' := states + [s], steps + [t];
  }

  const SUCCESS := Command(Outcome(true, false, false, 0, 0))

  /** main runs with an empty log; there is no standby. */
  const INSTALLED := State(Server(Running, Data([], false)), Server(Absent, NoData), Main, Idle)

  /** The standby follows main. */
  const ENABLED := State(Server(Running, Data([], false)), Server(Running, Data([], true)), Main, Idle)

  /** The promoted standby serves; the old main is stopped. */
  const FAILED_OVER := State(Server(Stopped, Data([], false)), Server(Running, Data([], false)), Standby, Idle)

  /** The standby was killed with one write more than main has; its control file names position 0. */
  const KILLED := State(Server(Running, Data([], true)), Server(Stopped, Data([7], false)), Standby, FbStop)

  lemma Prepare(states: seq<State>, steps: seq<Step>) returns (states': seq<State>, steps': seq<Step>)
    requires Run(states, steps) && states[|states| - 1] == FRESH
    ensures Run(states', steps') && states <= states' && states'[|states'| - 1] == FRESH.(pc := UpMain)
  {
    hide Run;
    states', steps' := Extend(states, steps, Start(Up), FRESH.(pc := UpPrepare));
    states', steps' := Extend(states', steps', SUCCESS, FRESH.(pc := UpRemove));
    states', steps' := Extend(states', steps', SUCCESS, FRESH.(pc := UpMain));
  }

  lemma Install(states: seq<State>, steps: seq<Step>) returns (states': seq<State>, steps': seq<Step>)
    requires Run(states, steps) && states[|states| - 1] == FRESH
    ensures Run(states', steps') && states <= states' && states'[|states'| - 1] == INSTALLED
  {
    hide Run;
    states', steps' := Prepare(states, steps);
    states', steps' := Extend(states', steps', SUCCESS, INSTALLED.(pc := UpWait));
    states', steps' := Extend(states', steps', SUCCESS, INSTALLED);
  }

  lemma EmptyStandby(states: seq<State>, steps: seq<Step>) returns (states': seq<State>, steps': seq<Step>)
    requires Run(states, steps) && states[|states| - 1] == INSTALLED
    ensures Run(states', steps') && states <= states' && states'[|states'| - 1] == INSTALLED.(pc := EnBackup)
  {
    hide Run;
    states', steps' := Extend(states, steps, Start(Enable), INSTALLED.(pc := EnAllow));
    states', steps' := Extend(states', steps', SUCCESS, INSTALLED.(pc := EnRemove));
    states', steps' := Extend(states', steps', SUCCESS, INSTALLED.(pc := EnReset));
    states', steps' := Extend(states', steps', SUCCESS, INSTALLED.(pc := EnChown));
    states', steps' := Extend(states', steps', SUCCESS, INSTALLED.(pc := EnBackup));
  }

  lemma EnableStandby(states: seq<State>, steps: seq<Step>) returns (states': seq<State>, steps': seq<Step>)
    requires Run(states, steps) && states[|states| - 1] == INSTALLED
    ensures Run(states', steps') && states <= states' && states'[|states'| - 1] == ENABLED
  {
    hide Run;
    states', steps' := EmptyStandby(states, steps);
    states', steps' := Extend(states', steps', SUCCESS, INSTALLED.(standby := Server(Absent, Data([], true)), pc := EnStart));
    states', steps' := Extend(states', steps', SUCCESS, ENABLED.(pc := EnWait));
    states', steps' := Extend(states', steps', SUCCESS, ENABLED);
  }

  lemma FailOver(states: seq<State>, steps: seq<Step>) returns (states': seq<State>, steps': seq<Step>)
    requires Run(states, steps) && states[|states| - 1] == ENABLED
    ensures Run(states', steps') && states <= states' && states'[|states'| - 1] == FAILED_OVER
  {
    hide Run;
    states', steps' := Extend(states, steps, Start(Failover), ENABLED.(pc := FoPromote));
    states', steps' := Extend(states', steps', SUCCESS,
                              ENABLED.(standby := Server(Running, Data([], false)), pc := FoStop([])));
    states', steps' := Extend(states', steps', SUCCESS, FAILED_OVER.(pointer := Main, pc := FoPoint([])));
    states', steps' := Extend(states', steps', SUCCESS, FAILED_OVER);
  }

  /** One more step of a failback. */
  lemma Proceed(states: seq<State>, steps: seq<Step>, i: nat, t: Step, s: State)
    returns (states': seq<State>, steps': seq<Step>)
    requires Run(states, steps) && FailbackFrom(states, i, |states| - 1)
    requires Apply(states[|states| - 1], t) == Some(s) && s.pc != Idle && s.pointer == Standby
    ensures Run(states', steps') && states <= states' && states'[|states'| - 1] == s
    ensures FailbackFrom(states', i, |states'| - 1)
  {
    hide Apply;
    states', steps' := states + [s], steps + [t];
  }

  /** The standby serving with `log`, main as given. */
  function Serving(main: Server, log: seq<Write>, pc: Pc): State {
    State(main, Server(Running, Data(log, false)), Standby, pc)
  }

  lemma StartFailback(states: seq<State>, steps: seq<Step>) returns (states': seq<State>, steps': seq<Step>, i: nat)
    requires Run(states, steps) && states[|states| - 1] == FAILED_OVER
    ensures Run(states', steps') && states <= states' && FailbackFrom(states', i, |states'| - 1)
    ensures states'[|states'| - 1] == FAILED_OVER.(pc := FbAllow)
  {
    hide Run;
    states', steps' := Extend(states, steps, Start(Failback), FAILED_OVER.(pc := FbAllow));
    i := |states'| - 1;
  }

  lemma BeginFailback(states: seq<State>, steps: seq<Step>) returns (states': seq<State>, steps': seq<Step>, i: nat)
    requires Run(states, steps) && states[|states| - 1] == FAILED_OVER
    ensures Run(states', steps') && states <= states' && FailbackFrom(states', i, |states'| - 1)
    ensures states'[|states'| - 1] == Serving(Server(Absent, Data([], false)), [], FbWipe)
  {
    hide Run; hide FailbackFrom;
    states', steps', i := StartFailback(states, steps);
    states', steps' := Proceed(states', steps', i, SUCCESS, FAILED_OVER.(pc := FbRemove));
    states', steps' := Proceed(states', steps', i, SUCCESS, Serving(Server(Absent, Data([], false)), [], FbWipe));
  }

  lemma CopyBack(states: seq<State>, steps: seq<Step>, i: nat) returns (states': seq<State>, steps': seq<Step>)
    requires Run(states, steps) && FailbackFrom(states, i, |states| - 1)
    requires states[|states| - 1] == Serving(Server(Absent, Data([], false)), [], FbWipe)
    ensures Run(states', steps') && states <= states' && FailbackFrom(states', i, |states'| - 1)
    ensures states'[|states'| - 1] == Serving(Server(Absent, Data([], true)), [], FbStart)
  {
    hide Run; hide FailbackFrom;
    states', steps' := Proceed(states, steps, i, SUCCESS, Serving(Server(Absent, NoData), [], FbChown));
    states', steps' := Proceed(states', steps', i, SUCCESS, Serving(Server(Absent, NoData), [], FbBackup));
    states', steps' := Proceed(states', steps', i, SUCCESS, Serving(Server(Absent, Data([], true)), [], FbStart));
  }

  lemma CatchUp(states: seq<State>, steps: seq<Step>, i: nat) returns (states': seq<State>, steps': seq<Step>)
    requires Run(states, steps) && FailbackFrom(states, i, |states| - 1)
    requires states[|states| - 1] == Serving(Server(Absent, Data([], true)), [], FbStart)
    ensures Run(states', steps') && states <= states' && FailbackFrom(states', i, |states'| - 1)
    ensures states'[|states'| - 1] == Serving(Server(Running, Data([], true)), [7], FbStop)
  {
    hide Run; hide FailbackFrom;
    var main := Server(Running, Data([], true));
    states', steps' := Proceed(states, steps, i, SUCCESS, Serving(main, [], FbWait));
    states', steps' := Proceed(states', steps', i, SUCCESS, Serving(main, [], FbCatchUp));
    states', steps' := Proceed(states', steps', i, SUCCESS, Serving(main, [], FbStop));
    assert [] + [7] == [7];
    states', steps' := Proceed(states', steps', i, Environment(Accept(Standby, 7)), Serving(main, [7], FbStop));
  }

  lemma KillStandby(states: seq<State>, steps: seq<Step>, i: nat) returns (states': seq<State>, steps': seq<Step>)
    requires Run(states, steps) && FailbackFrom(states, i, |states| - 1)
    requires states[|states| - 1] == Serving(Server(Running, Data([], true)), [7], FbStop)
    ensures Run(states', steps') && states <= states' && FailbackFrom(states', i, |states'| - 1)
    ensures states'[|states'| - 1] == KILLED.(pc := FbPromote(false))
  {
    hide Run; hide FailbackFrom;
    states', steps' := Proceed(states, steps, i, SUCCESS, KILLED.(pc := FbReadEnd(false)));
    states', steps' := Proceed(states', steps', i, SUCCESS, KILLED.(pc := FbReplay(false, 0)));
    states', steps' := Proceed(states', steps', i, SUCCESS, KILLED.(pc := FbPromote(false)));
  }

  /** A run in which every command succeeds and yet a write is lost: it reaches the standby after the
      catch-up check, the standby is then killed instead of shut down in order (the stop command succeeds
      either way), and its control file still names an older position. The failback begins in state `i` and
      promotes main in step `j`. */
  lemma UncleanStopLosesAWrite() returns (states: seq<State>, steps: seq<Step>, i: nat, j: nat)
    ensures PromotesMain(states, steps, i, j, false) && Served(states[j]) == [7] && Log(states[j + 1].main.disk) == []
    ensures states[|states| - 1].pc == FbRecover && states[|states| - 1].pointer == Main
    ensures Served(states[|states| - 1]) == []
  {
    hide Run; hide Execute; hide Apply; hide FailbackFrom;
    assert Run([FRESH], []) by {
      JustInstalled();
    }
    states, steps := Install([FRESH], []);
    states, steps := EnableStandby(states, steps);
    states, steps := FailOver(states, steps);
    states, steps, i := BeginFailback(states, steps);
    states, steps := CopyBack(states, steps, i);
    states, steps := CatchUp(states, steps, i);
    states, steps := KillStandby(states, steps, i);
    j := |states| - 1;
    states, steps := TakeOver(states, steps, i);
  }

  lemma JustInstalled()
    ensures Run([FRESH], [])
  {
  }

  lemma TakeOver(states: seq<State>, steps: seq<Step>, i: nat) returns (states': seq<State>, steps': seq<Step>)
    requires 0 < |states| && Run(states, steps) && states[0] == FRESH && FailbackFrom(states, i, |states| - 1)
    requires states[|states| - 1] == KILLED.(pc := FbPromote(false))
    ensures PromotesMain(states', steps', i, |states| - 1, false) && states <= states'
    ensures Log(states'[|states|].main.disk) == []
    ensures states'[|states'| - 1] == KILLED.(main := Server(Running, Data([], false)), pointer := Main, pc := FbRecover)
  {
    hide Run; hide FailbackFrom; hide Apply; hide PromotesMain;
    var promoted := KILLED.(main := Server(Running, Data([], false)), pc := FbPoint(false));
    PromotionAndMove(promoted);
    states', steps' := PromoteNow(states, steps, i, promoted);
    ghost var before, done := states', steps';
    states', steps' := Extend(states', steps', SUCCESS, promoted.(pointer := Main, pc := FbRecover));
    PromotesStill(before, done, states', steps', i, |states| - 1);
  }

  lemma PromotionAndMove(promoted: State)
    requires promoted == KILLED.(main := Server(Running, Data([], false)), pc := FbPoint(false))
    ensures Apply(KILLED.(pc := FbPromote(false)), SUCCESS) == Some(promoted)
    ensures Apply(promoted, SUCCESS) == Some(promoted.(pointer := Main, pc := FbRecover))
  {
  }

  lemma PromoteNow(states: seq<State>, steps: seq<Step>, i: nat, s: State) returns (states': seq<State>, steps': seq<Step>)
    requires Run(states, steps) && states[0] == FRESH && FailbackFrom(states, i, |states| - 1)
    requires states[|states| - 1].pc == FbPromote(false) && Apply(states[|states| - 1], SUCCESS) == Some(s)
    ensures PromotesMain(states', steps', i, |states| - 1, false) && Run(states', steps') && states' == states + [s]
  {
    hide Apply; hide FailbackFrom;
    states', steps' := states + [s], steps + [SUCCESS];
    StillUnderWay(states, states', i, |states| - 1);
  }

  lemma PromotesStill(states: seq<State>, steps: seq<Step>, states': seq<State>, steps': seq<Step>, i: nat, j: nat)
    requires PromotesMain(states, steps, i, j, false) && Run(states', steps') && states <= states' && steps <= steps'
    ensures PromotesMain(states', steps', i, j, false)
  {
    assert i <= j < |states|;
    hide Run; hide FailbackFrom;
    StillUnderWay(states, states', i, j);
  }

  lemma StillUnderWay(states: seq<State>, states': seq<State>, i: nat, j: nat)
    requires FailbackFrom(states, i, j) && states <= states'
    ensures FailbackFrom(states', i, j)
  {
  }

  /** Failback, exactly: that whenever it promotes main, main holds everything served since it began, is so for
      standbys shut down in order, and not for others. The control file records which it was; the code does
      not look. */
  lemma FailbackKeepsEveryWriteIff(clean: bool)
    ensures (forall states, steps, i, j :: PromotesMain(states, steps, i, j, clean) ==> HoldsEverything(states, i, j)) <==> clean
  {
    hide PromotesMain; hide HoldsEverything;
    if clean {
      forall states, steps, i, j | PromotesMain(states, steps, i, j, clean)
        ensures HoldsEverything(states, i, j)
      {
        FailbackLosesNoWrite(states, steps, i, j);
      }
    } else {
      var states, steps, i, j := UncleanStopLosesAWrite();
      LostWrite(states, steps, i, j);
    }
  }

  lemma LostWrite(states: seq<State>, steps: seq<Step>, i: nat, j: nat)
    requires PromotesMain(states, steps, i, j, false) && Served(states[j]) == [7] && Log(states[j + 1].main.disk) == []
    ensures !HoldsEverything(states, i, j)
  {
    assert i <= j;
  }
}
