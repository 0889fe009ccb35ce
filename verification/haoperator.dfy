/** The HA commands as the engine runs them (internal/branch/ha.go and internal/branch/branch.go), over
    servers and a pointer that change in place. Whatever the commands return and whatever happens in
    between, they follow the protocol of module HA, so its theorems hold of them. */
module HAOperator {
  import opened Text
  import opened HA

  /** What the world does: events before the next command, and how that command turns out. */
  datatype Fate = Fate(events: seq<Event>, outcome: Outcome)

  const FAILURE := Outcome(false, false, false, 0, 0)

  /** A command can always fail without doing anything. */
  lemma FailureIsPossible(task: Task, s: State)
    ensures Effect(task, s, FAILURE).Some?
  {
  }

  /** The run goes on from `before` to `after`; unless writes may have been dropped, all that was served
      still is. */
  ghost predicate Onward(before: seq<State>, after: seq<State>, kept: bool) {
    0 < |before| && before <= after &&
    (kept ==> Served(before[|before| - 1]) <= Served(after[|after| - 1]))
  }

  lemma GoOn(a: seq<State>, b: seq<State>, c: seq<State>, kept: bool, dropped: bool)
    requires Onward(a, b, kept) && Onward(b, c, !dropped)
    ensures Onward(a, c, kept && !dropped)
  {
  }

  class Operator {
    var main: Server
    var standby: Server
    var pointer: Name
    var fates: seq<Fate>

    // The run of the protocol so far, and the command that comes next in it.
    ghost var pc: Pc
    ghost var states: seq<State>
    ghost var steps: seq<Step>

    ghost function Now(): State
      reads this
    {
      State(main, standby, pointer, pc)
    }

    /** Everything so far is a run of the protocol from a fresh install. */
    ghost predicate Valid()
      reads this
    {
      0 < |states| && Run(states, steps) && states[0] == FRESH && states[|states| - 1] == Now() && Inv(Now())
    }

    constructor (fates: seq<Fate>)
      ensures Valid() && pc == Idle && pointer == Main
    {
      main, standby, pointer := Server(Absent, NoData), Server(Absent, NoData), Main;
      this.fates := fates;
      pc, states, steps := Idle, [FRESH], [];
      new;
      FreshInv();
    }

    lemma Begun()
      requires Valid()
      ensures Onward(states, states, true)
    {
    }

    /** When no action is under way and the standby serves, main is not running. */
    lemma StandbyAlone()
      requires Valid() && pointer == Standby && pc == Idle
      ensures main.container != Running
    {
    }

    /** Records one step of the run. */
    ghost method Record(t: Step, s: State)
      requires Valid() && Apply(Now(), t) == Some(s)
      modifies this`pc, this`states, this`steps
      ensures pc == s.pc && states == old(states) + [s] && steps == old(steps) + [t]
      ensures Run(states, steps) && states[0] == FRESH && Inv(s)
      ensures !Drops(old(Now()), t) ==> old(Served(Now())) <= Served(s)
    {
      hide Inv; hide Apply; hide Served; hide Drops;
      StepKeepsInv(Now(), t);
      if !Drops(Now(), t) {
        StepKeepsServed(Now(), t);
      }
      states, steps := states + [s], steps + [t];
      pc := s.pc;
    }

    /** An event, if it is possible now. */
    method Suffer(e: Event)
      requires Valid()
      modifies this`main, this`standby, this`pc, this`states, this`steps
      ensures Valid() && Grown(old(Now()), Now())
      ensures Onward(old(states), states, true)
    {
      hide Inv; hide Served;
      ghost var s := Now();
      var happened := Happen(State(main, standby, pointer, Idle), e);
      SameWithoutPc(s, e);
      if happened.Some? {
        EnvironmentKeepsPlan(s, e);
        Record(Environment(e), Happen(s, e).value);
        main, standby := happened.value.main, happened.value.standby;
      }
    }

    method SufferAll(events: seq<Event>)
      requires Valid()
      modifies this`main, this`standby, this`pc, this`states, this`steps
      ensures Valid() && Grown(old(Now()), Now())
      ensures Onward(old(states), states, true)
    {
      hide Run; hide Inv; hide Served; hide Onward;
      Begun();
      for i := 0 to |events|
        invariant Valid() && Grown(old(Now()), Now())
        invariant Onward(old(states), states, true)
      {
        ghost var before := states;
        Suffer(events[i]);
        GoOn(old(states), before, states, true, false);
      }
    }

    /** Begins an action: the guards decided what its first command is. */
    ghost method Enter(a: Action)
      requires Valid() && pc == Idle
      modifies this`pc, this`states, this`steps
      ensures Valid() && pc == Begin(old(Now()), a)
      ensures Onward(old(states), states, true)
    {
      Record(Start(a), Now().(pc := Begin(Now(), a)));
    }

    /** Whatever happens before the next command, and how that will turn out. */
    method Await() returns (o: Outcome)
      requires Valid()
      modifies this
      ensures Valid() && Grown(old(Now()), Now()) && pc == old(pc) && pointer == old(pointer)
      ensures Onward(old(states), states, true)
    {
      hide Run; hide Inv; hide Served; hide Onward;
      Begun();
      o := FAILURE;
      if fates != [] {
        SufferAll(fates[0].events);
        o := fates[0].outcome;
        fates := fates[1..];
      }
    }

    /** Runs a command, after whatever happens before it. It has to be the one the protocol comes to next. */
    method Do(task: Task, ghost start: seq<State>, ghost kept: bool) returns (o: Outcome, ghost s: State)
      requires Valid() && pc != Idle && TaskAt(pc) == task && Onward(start, states, kept)
      modifies this
      ensures Valid() && Onward(start, states, kept && !MayDrop(old(pc)))
      ensures s.pc == old(pc) && Inv(s) && Grown(old(Now()), s)
      ensures pc == Next(old(pc), o, Log(s.standby.disk)) && Effect(task, s, o) == Some(Now().(pc := old(pc)))
      ensures pointer == if task.SetPointer? then task.name else old(pointer)
    {
      hide Run; hide Inv; hide Served; hide Effect; hide Next; hide MayDrop; hide TaskAt; hide Onward; hide Grown;
      ghost var before := states;
      o := Await();
      GoOn(start, before, states, kept, false);
      s := Now();
      before := states;
      FailureIsPossible(task, State(main, standby, pointer, Idle));
      if Effect(task, State(main, standby, pointer, Idle), o).None? {
        o := FAILURE;
      }
      var after := Effect(task, State(main, standby, pointer, Idle), o).value;
      EffectIgnoresPc(task, s, o);
      OnlyOneTaskMovesThePointer(task, s, o);
      Record(Command(o), Execute(s, o).value);
      main, standby, pointer := after.main, after.standby, after.pointer;
      GoOn(start, before, states, kept, MayDrop(s.pc));
    }

    /** A hot standby. */
    method HAEnable() returns (ok: bool)
      requires Valid() && pc == Idle
      modifies this
      ensures Valid() && pc == Idle && pointer == old(pointer)
      ensures Onward(old(states), states, true)
      ensures ok ==> pointer == Main && IsReplica(standby.disk)
      ensures old(pointer) == Standby ==> !ok && states == old(states)
    {
      hide Run; hide Inv; hide Valid; hide Onward; hide Effect; hide Grown; hide Next; hide TaskAt; hide MayDrop;
      ghost var start := states;
      Begun();
      if !HaGuard(Enable, pointer) {
        return false;
      }
      Enter(Enable);
      ok := EmptyStandby(start);
      if !ok {
        return;
      }
      ok := FillStandby(start);
    }

    /** Steps 1 and 2: replication is allowed, and the standby gets fresh storage. */
    method EmptyStandby(ghost start: seq<State>) returns (ok: bool)
      requires Valid() && pc == EnAllow && Onward(start, states, true)
      modifies this
      ensures Valid() && Onward(start, states, true) && pointer == old(pointer)
      ensures pc == if ok then EnBackup else Idle
    {
      hide Run; hide Inv; hide Valid; hide Onward; hide Effect; hide Grown;
      var o, s := Do(AllowReplication(Main), start, true);
      if !o.ok {
        return false;
      }
      o, s := Do(RemoveContainer(Standby), start, true);
      o, s := Do(ResetStandby, start, true);
      if !o.ok {
        return false;
      }
      o, s := Do(Chown(Standby), start, true);
      return o.ok;
    }

    /** Steps 3 and 4: main is copied into it, and it starts. */
    method FillStandby(ghost start: seq<State>) returns (ok: bool)
      requires Valid() && pc == EnBackup && Onward(start, states, true)
      modifies this
      ensures Valid() && Onward(start, states, true) && pointer == old(pointer) && pc == Idle
      ensures ok ==> pointer == Main && IsReplica(standby.disk)
    {
      hide Run; hide Inv; hide Valid; hide Onward; hide Effect; hide Grown;
      var o, s := Do(BaseBackup(Main), start, true);
      if !o.ok {
        return false;
      }
      o, s := Do(Launch(Standby), start, true);
      if !o.ok {
        return false;
      }
      o, s := Do(WaitReady, start, true);
      ReadyIsReplica(s, o);
      return o.ok;
    }

    /** Promotes the standby and routes main to it. Everything it had received is served afterwards. */
    method HAFailover() returns (ok: bool)
      requires Valid() && pc == Idle
      modifies this
      ensures Valid() && pc == Idle && Onward(old(states), states, !ok)
      ensures ok ==> old(pointer) == Main && pointer == Standby && old(Log(standby.disk)) <= Served(Now())
      ensures !ok ==> pointer == old(pointer)
    {
      hide Run; hide Inv; hide Valid; hide Onward; hide Effect; hide Grown;
      ghost var start := states;
      Begun();
      if !HaGuard(Failover, pointer) {
        return false;
      }
      if standby.container != Running {
        return false;
      }
      ghost var log := Log(standby.disk);
      Enter(Failover);
      var o, s := Do(Promote(Standby), start, true);
      FailoverKeepsLog(log, old(Now()).(pc := FoPromote), Promote(Standby), s, o);
      if !o.ok {
        return false;
      }
      ghost var now := Now();
      o, s := Do(StopContainer(Main), start, true);
      FailoverKeepsLog(log, now, StopContainer(Main), s, o);
      now := Now();
      o, s := Do(SetPointer(Standby), start, true);
      FailoverKeepsLog(log, now, SetPointer(Standby), s, o);
      return true;
    }

    /** Tears the standby down; refused while it serves. */
    method HADisable() returns (ok: bool)
      requires Valid() && pc == Idle
      modifies this
      ensures Valid() && pc == Idle && Onward(old(states), states, true)
      ensures pointer == old(pointer) && ok == (pointer == Main)
      ensures ok ==> standby.container == Absent
    {
      hide Run; hide Inv; hide Valid; hide Onward; hide Effect; hide Grown;
      ghost var start := states;
      Begun();
      if !HaGuard(Disable, pointer) {
        return false;
      }
      Enter(Disable);
      var o, s := Do(RemoveContainer(Standby), start, true);
      o, s := Do(DestroyStandby, start, true);
      o, s := Do(SetPointer(Main), start, true);
      RemovedStaysRemoved(s, o);
      return true;
    }

    /** Moves main back to its own container. Unless the standby was stopped uncleanly nothing served is
        lost, and if the command gives up before main is promoted the standby serves on alone. */
    method HAFailback() returns (ok: bool, ghost orderly: bool)
      requires Valid() && pc == Idle
      modifies this
      ensures Valid() && pc == Idle && Onward(old(states), states, orderly || pointer == Standby)
      ensures old(pointer) == Main ==> !ok && states == old(states) && pointer == Main
      ensures ok ==> pointer == Main && standby.container == Absent
      ensures pointer == Standby ==> main.container != Running
    {
      hide Run; hide Inv; hide Valid; hide Onward; hide Effect; hide Grown;
      ghost var start := states;
      Begun();
      orderly := true;
      if !HaGuard(Failback, pointer) {
        return false, true;
      }
      if standby.container != Running {
        StandbyAlone();
        return false, true;
      }
      Enter(Failback);
      var copied := CopyIntoMain(start);
      if !copied {
        return false, true;
      }
      var following := FollowStandby(start);
      if !following {
        return false, true;
      }
      var promoted;
      promoted, orderly := HandOver(start);
      if !promoted {
        return false, true;
      }
      ok := Finish(start, orderly);
    }

    /** Step 1: the promoted standby is copied into main. */
    method CopyIntoMain(ghost start: seq<State>) returns (ok: bool)
      requires Valid() && pc == FbAllow && pointer == Standby && Onward(start, states, true)
      modifies this
      ensures Valid() && Onward(start, states, true) && pointer == Standby
      ensures if ok then pc == FbStart else pc == Idle && main.container != Running
    {
      hide Run; hide Inv; hide Valid; hide Onward; hide Effect; hide Grown;
      var o, s := Do(AllowReplication(Standby), start, true);
      if !o.ok {
        Stopped(start);
        return false;
      }
      o, s := Do(RemoveContainer(Main), start, true);
      o, s := Do(WipeMain, start, true);
      if !o.ok {
        Stopped(start);
        return false;
      }
      o, s := Do(Chown(Main), start, true);
      if !o.ok {
        Stopped(start);
        return false;
      }
      o, s := Do(BaseBackup(Standby), start, true);
      if !o.ok {
        Stopped(start);
        return false;
      }
      return true;
    }

    /** Step 2: main starts as a replica and catches up. */
    method FollowStandby(ghost start: seq<State>) returns (ok: bool)
      requires Valid() && pc == FbStart && pointer == Standby && Onward(start, states, true)
      modifies this
      ensures Valid() && Onward(start, states, true) && pointer == Standby
      ensures if ok then pc == FbStop else pc == Idle && main.container != Running
    {
      hide Run; hide Inv; hide Valid; hide Onward; hide Effect; hide Grown;
      var o, s := Do(Launch(Main), start, true);
      if !o.ok {
        Stopped(start);
        return false;
      }
      o, s := Do(WaitReady, start, true);
      if !o.ok {
        Stopped(start);
        return false;
      }
      o, s := Do(PollCaughtUp, start, true);
      if !o.ok {
        Stopped(start);
        return false;
      }
      return true;
    }

    /** Steps 3 and 4: the standby stops, main replays up to the end its control file gives, and is promoted. */
    method HandOver(ghost start: seq<State>) returns (ok: bool, ghost orderly: bool)
      requires Valid() && pc == FbStop && pointer == Standby && Onward(start, states, true)
      modifies this
      ensures Valid() && Onward(start, states, true) && pointer == Standby
      ensures if ok then pc == FbPoint(orderly) else pc == Idle && main.container != Running
    {
      hide Run; hide Inv; hide Valid; hide Onward; hide Effect; hide Grown;
      var drained, clean := DrainStandby(start);
      orderly := clean;
      if !drained {
        return false, orderly;
      }
      var o, s := Do(Promote(Main), start, true);
      if !o.ok {
        Restart(start);
        return false, orderly;
      }
      return true, orderly;
    }

    /** Step 3. `clean` says whether the standby shut down in order. */
    method DrainStandby(ghost start: seq<State>) returns (ok: bool, clean: bool)
      requires Valid() && pc == FbStop && pointer == Standby && Onward(start, states, true)
      modifies this
      ensures Valid() && Onward(start, states, true) && pointer == Standby
      ensures if ok then pc == FbPromote(clean) else pc == Idle && main.container != Running
    {
      hide Run; hide Inv; hide Valid; hide Onward; hide Effect; hide Grown;
      var o, s := Do(StopStandby, start, true);
      clean := o.clean;
      if !o.ok {
        Restart(start);
        return false, clean;
      }
      o, s := Do(ReadControlFile(clean), start, true);
      if !o.ok {
        Restart(start);
        return false, clean;
      }
      o, s := Do(PollReplayed(o.final), start, true);
      if !o.ok {
        Restart(start);
        return false, clean;
      }
      return true, clean;
    }

    /** The pointer moves, and the old standby goes once main is out of recovery (step 5). */
    method Finish(ghost start: seq<State>, ghost orderly: bool) returns (ok: bool)
      requires Valid() && pc == FbPoint(orderly) && pointer == Standby && Onward(start, states, true)
      modifies this
      ensures Valid() && Onward(start, states, orderly) && pointer == Main && pc == Idle
      ensures ok ==> standby.container == Absent
    {
      hide Run; hide Inv; hide Valid; hide Onward; hide Effect; hide Grown;
      var o, s := Do(SetPointer(Main), start, true);
      o, s := Do(WaitReady, start, orderly);
      if !o.ok {
        return false;
      }
      o, s := Do(RemoveContainer(Standby), start, orderly);
      o, s := Do(DestroyStandby, start, orderly);
      DestroyedIsAbsent(s, o);
      return true;
    }

    /** Undoes a failback while the standby still runs: main goes. */
    method Stopped(ghost start: seq<State>)
      requires Valid() && pc == UndoRemove && pointer == Standby && Onward(start, states, true)
      modifies this
      ensures Valid() && Onward(start, states, true) && pointer == Standby && pc == Idle
      ensures main.container != Running
    {
      hide Run; hide Inv; hide Valid; hide Onward; hide Effect; hide Grown;
      var o, s := Do(RemoveContainer(Main), start, true);
      StandbyAlone();
    }

    /** Undoes a failback once the standby was stopped: main goes and the standby comes back. */
    method Restart(ghost start: seq<State>)
      requires Valid() && pc == UndoStop && pointer == Standby && Onward(start, states, true)
      modifies this
      ensures Valid() && Onward(start, states, true) && pointer == Standby && pc == Idle
      ensures main.container != Running
    {
      hide Run; hide Inv; hide Valid; hide Onward; hide Effect; hide Grown;
      var o, s := Do(RemoveContainer(Main), start, true);
      o, s := Do(Resume(Standby), start, true);
      Stopped(start);
    }

    /** `up`: brings up whichever server is recorded as primary, and never the other one. */
    method Init() returns (ok: bool)
      requires Valid() && pc == Idle
      modifies this
      ensures Valid() && pc == Idle && Onward(old(states), states, true) && pointer == old(pointer)
      ensures pointer == Standby ==> main.container != Running
    {
      hide Run; hide Inv; hide Valid; hide Onward; hide Effect; hide Grown; hide Next; hide TaskAt;
      ghost var start := states;
      Begun();
      if pointer == Standby {
        ok := EnsurePromotedStandby();
        return;
      }
      if main.container == Running {
        return true;
      }
      Enter(Up);
      ok := StartMain(start);
      if ok {
        ok := AwaitReady(start);
      }
    }

    /** main's container, made again on its data. */
    method StartMain(ghost start: seq<State>) returns (ok: bool)
      requires Valid() && pc == UpPrepare && Onward(start, states, true)
      modifies this
      ensures Valid() && Onward(start, states, true) && pointer == old(pointer)
      ensures pc == if ok then UpWait else Idle
    {
      hide Run; hide Inv; hide Valid; hide Onward; hide Effect; hide Grown;
      var o, s := Do(Chown(Main), start, true);
      if !o.ok {
        return false;
      }
      o, s := Do(RemoveContainer(Main), start, true);
      o, s := Do(Launch(Main), start, true);
      return o.ok;
    }

    method AwaitReady(ghost start: seq<State>) returns (ok: bool)
      requires Valid() && pc == UpWait && Onward(start, states, true)
      modifies this
      ensures Valid() && Onward(start, states, true) && pointer == old(pointer) && pc == Idle
    {
      hide Run; hide Inv; hide Valid; hide Onward; hide Effect; hide Grown;
      var o, s := Do(WaitReady, start, true);
      return o.ok;
    }

    method EnsurePromotedStandby() returns (ok: bool)
      requires Valid() && pc == Idle && pointer == Standby
      modifies this
      ensures Valid() && pc == Idle && Onward(old(states), states, true) && pointer == Standby
      ensures main.container != Running
    {
      hide Run; hide Inv; hide Valid; hide Onward; hide Effect; hide Grown; hide Next; hide TaskAt; hide MayDrop;
      ghost var start := states;
      Begun();
      if standby.container == Absent && standby.disk.NoData? {
        StandbyAlone();
        return false;
      }
      Enter(Up);
      ok := BringUpStandby(start);
      if ok {
        ok := AwaitReady(start);
      }
      StandbyAlone();
    }

    /** Starts the promoted standby's server unless it runs: its old container, or a new one on its data. */
    method BringUpStandby(ghost start: seq<State>) returns (ok: bool)
      requires Valid() && pointer == Standby && Onward(start, states, true)
      requires pc == if standby.container == Running then UpWait else if standby.container == Absent then UpLaunch else UpResume
      modifies this
      ensures Valid() && Onward(start, states, true) && pointer == Standby
      ensures pc == if ok then UpWait else Idle
    {
      hide Run; hide Inv; hide Valid; hide Onward; hide Effect; hide Grown;
      ghost var s: State;
      var o: Outcome;
      if standby.container == Running {
        return true;
      } else if standby.container == Absent {
        o, s := Do(Launch(Standby), start, true);
      } else {
        o, s := Do(Resume(Standby), start, true);
      }
      return o.ok;
    }

    /** `stop` removes every container, whichever serves. */
    method Down()
      requires Valid() && pc == Idle
      modifies this
      ensures Valid() && pc == Idle && Onward(old(states), states, true) && pointer == old(pointer)
      ensures main.container == Absent && standby.container == Absent
    {
      hide Run; hide Inv; hide Valid; hide Onward; hide Effect; hide Grown;
      ghost var start := states;
      Begun();
      Enter(HA.Down);
      var o, s := Do(RemoveContainer(Main), start, true);
      o, s := Do(RemoveContainer(Standby), start, true);
      DownIsDown(s, o);
    }

    /** Suspending either server stops nothing. */
    method Suspend(name: Name) returns (ok: bool)
      requires Valid() && pc == Idle
      modifies this
      ensures Valid() && pc == Idle && Onward(old(states), states, true) && pointer == old(pointer)
      ensures ok ==> name == Standby && old(standby.container) == Absent
    {
      hide Run; hide Inv; hide Valid; hide Onward; hide Effect; hide Grown;
      ghost var start := states;
      Begun();
      if SuspendRefused(BranchOf(name), ContainerName(BranchOf(pointer)), standby.container != Absent) {
        return false;
      }
      OnlyAnAbsentStandbyPasses(Now(), name);
      Enter(HA.Suspend(name));
      var o, s := Do(StopContainer(name), start, true);
      return o.ok;
    }

    /** Between actions, the only server that may accept writes is the one recorded as primary. */
    lemma OnlyPrimaryWritable()
      requires Valid() && pc == Idle
      ensures Writable(main) ==> pointer == Main
      ensures Writable(standby) ==> pointer == Standby
    {
    }

    method Perform(action: Action)
      requires Valid() && pc == Idle
      modifies this
      ensures Valid() && pc == Idle
    {
      hide Valid; hide Onward;
      var ok;
      match action {
        case Enable => ok := HAEnable();
        case Failover => ok := HAFailover();
        case Failback =>
          ghost var orderly;
          ok, orderly := HAFailback();
        case Disable => ok := HADisable();
        case Up => ok := Init();
        case Down => Down();
        case Suspend(name) => ok := Suspend(name);
        case Wake(_) => // only routes: main to the current primary
      }
    }

    /** Over every run of actions, whatever fails and whatever happens in between: two servers accept writes
        only between a failover's promotion and its stop of the old primary, and when an action has returned
        only the primary does. */
    method PerformAll(actions: seq<Action>)
      requires Valid() && pc == Idle
      modifies this
      ensures Valid() && pc == Idle
      ensures Writable(main) ==> pointer == Main
      ensures Writable(standby) ==> pointer == Standby
      ensures forall i :: 0 <= i < |states| && Writable(states[i].main) && Writable(states[i].standby) ==> states[i].pc.FoStop?
    {
      hide Inv; hide Writable;
      for i := 0 to |actions|
        invariant Valid() && pc == Idle
      {
        Perform(actions[i]);
      }
      OnlyPrimaryWritable();
      forall i | 0 <= i < |states| && Writable(states[i].main) && Writable(states[i].standby)
        ensures states[i].pc.FoStop?
      {
        NoSplitBrain(states, steps, i);
      }
    }
  }

  /** Nothing that happens in a failover takes an entry out of the standby's log. */
  lemma FailoverKeepsLog(log: seq<Write>, before: State, task: Task, s: State, o: Outcome)
    requires log <= Log(before.standby.disk) && Grown(before, s) && Effect(task, s, o).Some?
    requires task in {Promote(Standby), StopContainer(Main), SetPointer(Standby)}
    ensures log <= Log(Effect(task, s, o).value.standby.disk)
  {
  }

  lemma RemovedStaysRemoved(s: State, o: Outcome)
    requires Inv(s) && s.pc == DiPoint
    ensures Effect(SetPointer(Main), s, o).value.standby.container == Absent
  {
  }

  lemma DestroyedIsAbsent(s: State, o: Outcome)
    requires Inv(s) && s.pc == FbDestroy
    ensures Effect(DestroyStandby, s, o).value.standby.container == Absent
  {
  }

  lemma DownIsDown(s: State, o: Outcome)
    requires Inv(s) && s.pc == DnStandby
    ensures var t := Effect(RemoveContainer(Standby), s, o).value;
            t.main.container == Absent && t.standby.container == Absent
  {
  }

  lemma OnlyAnAbsentStandbyPasses(s: State, n: Name)
    requires !SuspendRefused(BranchOf(n), ContainerName(BranchOf(s.pointer)), s.standby.container != Absent)
    ensures n == Standby && s.standby.container == Absent && s.pointer == Main
  {
  }

  lemma ReadyIsReplica(s: State, o: Outcome)
    requires Inv(s) && s.pc == EnWait
    ensures Effect(WaitReady, s, o) == Some(s) && s.pointer == Main && IsReplica(s.standby.disk)
  {
  }

  lemma OnlyOneTaskMovesThePointer(task: Task, s: State, o: Outcome)
    requires Effect(task, s, o).Some?
    ensures Effect(task, s, o).value.pointer == if task.SetPointer? then task.name else s.pointer
  {
  }

  lemma SameWithoutPc(s: State, e: Event)
    ensures var t := s.(pc := Idle);
            Happen(s, e).Some? <==> Happen(t, e).Some?
    ensures Happen(s, e).Some? ==> Happen(s, e).value == Happen(s.(pc := Idle), e).value.(pc := s.pc)
  {
  }

  lemma EffectIgnoresPc(task: Task, s: State, o: Outcome)
    ensures var t := s.(pc := Idle);
            Effect(task, s, o).Some? <==> Effect(task, t, o).Some?
    ensures Effect(task, s, o).Some? ==> Effect(task, s, o).value == Effect(task, s.(pc := Idle), o).value.(pc := s.pc)
  {
  }
}
