/**
 The holder manager: one detached process hosting many session workers, and the control
 files that launchers find it by.
*/
module HolderManagers {
  import opened Wrappers

  type Pid = nat
  type SessionID = string

  /** What a manager's lock guards, and the workers it has put on their queue. */
  datatype Hosting = Hosting(active: set<SessionID>, shuttingDown: bool,
                             starting: Option<SessionID>, running: multiset<SessionID>, finishing: multiset<SessionID>)

  const FRESH := Hosting({}, false, None, multiset{}, multiset{})

  datatype Reply = Launched | Adopted | Rejected

  /** The guarded part of a launch request. */
  function Admit(h: Hosting, id: SessionID): (Hosting, Reply) {
    if h.shuttingDown then (h, Rejected)
    else if id in h.active then (h, Adopted)
    else (h.(active := h.active + {id}, starting := Some(id)), Launched)
  }

  function Dispatch(h: Hosting): Hosting {
    if h.starting.None? then h else h.(starting := None, running := h.running + multiset{h.starting.value})
  }

  function WorkerEnds(h: Hosting, id: SessionID): Hosting {
    if id !in h.running then h else h.(running := h.running - multiset{id}, finishing := h.finishing + multiset{id})
  }

  function SessionFinished(h: Hosting, id: SessionID): Hosting {
    if id !in h.finishing then h else h.(finishing := h.finishing - multiset{id}, active := h.active - {id})
  }

  function StopIfIdle(h: Hosting): Hosting {
    if h.shuttingDown || h.active != {} then h else h.(shuttingDown := true)
  }

  datatype HostStep = Launch(id: SessionID) | Start | Ends(id: SessionID) | Finished(id: SessionID) | Idle

  /** The accept loop answers one request at a time, so a launch is dispatched before the
      next is admitted. */
  function HostAfter(h: Hosting, s: HostStep): Hosting {
    match s
    case Launch(id) => if h.starting.Some? then h else Admit(h, id).0
    case Start => Dispatch(h)
    case Ends(id) => WorkerEnds(h, id)
    case Finished(id) => SessionFinished(h, id)
    case Idle => StopIfIdle(h)
  }

  /** Workers of a session, on their way in, running, or on their way out. */
  function Workers(h: Hosting, id: SessionID): nat {
    (if h.starting == Some(id) then 1 else 0) + h.running[id] + h.finishing[id]
  }

  ghost predicate OneEach(h: Hosting) {
    && (forall id: SessionID :: Workers(h, id) == if id in h.active then 1 else 0)
    && (h.shuttingDown ==> h.active == {})
  }

  lemma OneEachStep(h: Hosting, s: HostStep)
    requires OneEach(h)
    ensures OneEach(HostAfter(h, s))
    ensures h.shuttingDown ==> HostAfter(h, s) == h
  {
    assert forall id: SessionID :: Workers(h, id) == if id in h.active then 1 else 0;
    if h.shuttingDown {
      forall id: SessionID
        ensures Workers(h, id) == 0
      {}
      NoWorkers(h, s);
    } else {
      forall id: SessionID
        ensures Workers(HostAfter(h, s), id) == if id in HostAfter(h, s).active then 1 else 0
      {
        assert Workers(h, id) == if id in h.active then 1 else 0;
      }
    }
  }

  lemma NoWorkers(h: Hosting, s: HostStep)
    requires h.shuttingDown && forall id: SessionID :: Workers(h, id) == 0
    ensures HostAfter(h, s) == h
  {
    assert h.starting.Some? ==> Workers(h, h.starting.value) >= 1;
    match s
    case Ends(id) => assert Workers(h, id) == 0;
    case Finished(id) => assert Workers(h, id) == 0;
    case _ =>
  }

  function HostRun(h: Hosting, steps: seq<HostStep>): Hosting
    decreases |steps|
  {
    if steps == [] then h else HostRun(HostAfter(h, steps[0]), steps[1..])
  }

  /** However launches, endings and the idle timer interleave: never two workers for one
      session, every worker's session active, and once shutting down nothing active, ever. */
  lemma {:induction false} AtMostOneWorker(h: Hosting, steps: seq<HostStep>, id: SessionID)
    requires OneEach(h)
    ensures var z := HostRun(h, steps);
            OneEach(z) && Workers(z, id) <= 1 && (Workers(z, id) == 1 <==> id in z.active)
    ensures h.shuttingDown ==> HostRun(h, steps).shuttingDown && HostRun(h, steps).active == {}
    decreases |steps|
  {
    if steps == [] {
      assert Workers(h, id) == if id in h.active then 1 else 0;
    } else {
      OneEachStep(h, steps[0]);
      AtMostOneWorker(HostAfter(h, steps[0]), steps[1..], id);
    }
  }

  /** A launch is not lost: while the manager is not shutting down, the session is active and
      has its one worker, new or old; and a session's end frees it for another launch. */
  lemma LaunchStartsAWorker(h: Hosting, id: SessionID)
    requires OneEach(h) && h.starting.None? && !h.shuttingDown
    ensures var z := HostRun(h, [Launch(id), Start]);
            && OneEach(z) && z.starting.None? && !z.shuttingDown
            && z.active == h.active + {id} && Workers(z, id) == 1
            && (id !in h.active ==> z.running[id] == h.running[id] + 1)
            && (forall other: SessionID | other != id :: Workers(z, other) == Workers(h, other))
  {
    var h1 := HostAfter(h, Launch(id));
    var z := HostAfter(h1, Start);
    OneEachStep(h, Launch(id));
    OneEachStep(h1, Start);
    assert [Launch(id), Start][1..] == [Start] && [Start][1..] == [];
    assert HostRun(h, [Launch(id), Start]) == HostRun(h1, [Start]) == HostRun(z, []) == z;
    assert Workers(z, id) == if id in z.active then 1 else 0;
  }

  lemma EndFreesTheSession(h: Hosting, id: SessionID)
    requires OneEach(h) && id in h.running && !h.shuttingDown
    ensures var z := HostRun(h, [Ends(id), Finished(id)]);
            OneEach(z) && z.active == h.active - {id} && Workers(z, id) == 0 && !z.shuttingDown
    ensures var z := HostRun(h, [Ends(id), Finished(id)]); HostAfter(z, Idle).shuttingDown <==> h.active == {id}
  {
    var h1 := HostAfter(h, Ends(id));
    var z := HostAfter(h1, Finished(id));
    OneEachStep(h, Ends(id));
    OneEachStep(h1, Finished(id));
    assert [Ends(id), Finished(id)][1..] == [Finished(id)] && [Finished(id)][1..] == [];
    assert HostRun(h, [Ends(id), Finished(id)]) == HostRun(h1, [Finished(id)]) == HostRun(z, []) == z;
    assert Workers(z, id) == if id in z.active then 1 else 0;
    assert Workers(h, id) == if id in h.active then 1 else 0;
    assert id in h.active;
    if z.active == {} {
      assert h.active == {id};
    }
  }

  // ---- processes and files --------------------------------------------------------

  datatype Phase = Starting | Bound | Serving | Stopped | Cleaning | Checked | Unlinked | Gone

  datatype Manager = Manager(phase: Phase, listening: bool, host: Hosting)

  /** Where the launcher that holds the lock stands. */
  datatype Errand = Asking | Waiting(pid: Pid) | Ready

  datatype Lock = Free | Launcher(id: nat, errand: Errand) | Cleaner(pid: Pid)

  /** `socket` is the manager whose listener the socket path leads to, `pidFile` the pid
      written in the file; `None` when the file does not exist. */
  datatype World = World(lock: Lock, socket: Option<Pid>, pidFile: Option<Pid>, managers: map<Pid, Manager>)

  datatype Step = TakeLock(id: nat) | PingFails(pid: Pid) | PingAnswered | Release | GiveUp
                | Bind(pid: Pid) | WritePID(pid: Pid) | Host(pid: Pid, step: HostStep)
                | CloseListener(pid: Pid) | LeaveLoop(pid: Pid)
                | TakeLockToClean(pid: Pid) | CheckPID(pid: Pid) | UnlinkSocket(pid: Pid) | UnlinkPIDFile(pid: Pid)
                | Crash(pid: Pid)

  predicate In(w: World, pid: Pid, phase: Phase) {
    pid in w.managers && w.managers[pid].phase == phase
  }

  predicate Listening(w: World, pid: Pid) {
    pid in w.managers && w.managers[pid].listening
  }

  /** Hosting sessions, or free to. */
  predicate Live(w: World, pid: Pid) {
    In(w, pid, Serving) && !w.managers[pid].host.shuttingDown
  }

  /** Spawned, but not yet where its pid file is written. */
  predicate StartingUp(w: World, pid: Pid) { In(w, pid, Starting) || In(w, pid, Bound) }

  predicate Cleans(phase: Phase) { phase.Cleaning? || phase.Checked? || phase.Unlinked? }

  predicate Enabled(w: World, s: Step) {
    match s
    case TakeLock(_) => w.lock == Free
    case PingFails(pid) =>
      w.lock.Launcher? && !w.lock.errand.Waiting? && pid !in w.managers &&
      (w.socket.None? || !Listening(w, w.socket.value)) && w.pidFile != Some(pid)
    case PingAnswered =>
      w.lock.Launcher? && w.socket.Some? && In(w, w.socket.value, Serving) && Listening(w, w.socket.value)
    case Release => w.lock.Launcher? && !w.lock.errand.Waiting?
    case GiveUp => w.lock.Launcher? && w.lock.errand.Waiting?
    case Bind(pid) => In(w, pid, Starting)
    case WritePID(pid) => In(w, pid, Bound)
    case Host(pid, _) => In(w, pid, Serving)
    case CloseListener(pid) => In(w, pid, Serving) && w.managers[pid].host.shuttingDown
    case LeaveLoop(pid) => In(w, pid, Serving) && w.managers[pid].host.shuttingDown && !w.managers[pid].listening
    case TakeLockToClean(pid) => In(w, pid, Stopped) && w.lock == Free
    case CheckPID(pid) => In(w, pid, Cleaning)
    case UnlinkSocket(pid) => In(w, pid, Checked)
    case UnlinkPIDFile(pid) => In(w, pid, Unlinked)
    case Crash(pid) => pid in w.managers
  }

  function Put(w: World, pid: Pid, m: Manager): World { w.(managers := w.managers[pid := m]) }

  function Perform(w: World, s: Step): World
    requires Enabled(w, s)
  {
    match s
    case TakeLock(id) => w.(lock := Launcher(id, Asking))
    case PingFails(pid) =>
      Put(w, pid, Manager(Starting, false, FRESH)).(lock := w.lock.(errand := Waiting(pid)))
    case PingAnswered => w.(lock := w.lock.(errand := Ready))
    case Release => w.(lock := Free)
    case GiveUp => w.(lock := Free)
    case Bind(pid) => Put(w, pid, w.managers[pid].(phase := Bound, listening := true)).(socket := Some(pid))
    case WritePID(pid) => Put(w, pid, w.managers[pid].(phase := Serving)).(pidFile := Some(pid))
    case Host(pid, step) => Put(w, pid, w.managers[pid].(host := HostAfter(w.managers[pid].host, step)))
    case CloseListener(pid) => Put(w, pid, w.managers[pid].(listening := false))
    case LeaveLoop(pid) => Put(w, pid, w.managers[pid].(phase := Stopped))
    case TakeLockToClean(pid) => Put(w, pid, w.managers[pid].(phase := Cleaning)).(lock := Cleaner(pid))
    case CheckPID(pid) =>
      if w.pidFile == Some(pid) then Put(w, pid, w.managers[pid].(phase := Checked))
      else Put(w, pid, w.managers[pid].(phase := Gone)).(lock := Free)
    case UnlinkSocket(pid) => Put(w, pid, w.managers[pid].(phase := Unlinked)).(socket := None)
    case UnlinkPIDFile(pid) => Put(w, pid, w.managers[pid].(phase := Gone)).(pidFile := None, lock := Free)
    case Crash(pid) =>
      Put(w, pid, Manager(Gone, false, FRESH.(shuttingDown := true))).(lock := if w.lock == Cleaner(pid) then Free else w.lock)
  }

  function After(w: World, s: Step): World {
    if Enabled(w, s) then Perform(w, s) else w
  }

  function Run(w: World, steps: seq<Step>): World
    decreases |steps|
  {
    if steps == [] then w else Run(After(w, steps[0]), steps[1..])
  }

  /** A launcher lets go of the lock only once what it spawned answers, or is dead. */
  predicate Patient(w: World, s: Step) {
    s.GiveUp? && Enabled(w, s) ==> !StartingUp(w, w.lock.errand.pid)
  }

  // ---- what every patient step keeps ----------------------------------------------

  ghost predicate ManagerOK(w: World, pid: Pid)
    requires pid in w.managers
  {
    var m := w.managers[pid];
    && OneEach(m.host)
    && (m.listening ==> (m.phase.Bound? || m.phase.Serving?) && w.socket == Some(pid))
    && (m.listening && m.phase.Serving? ==> w.pidFile == Some(pid))
    && (m.phase.Bound? ==> m.listening)
    && (m.phase.Serving? && !m.host.shuttingDown ==> m.listening)
    && (m.phase.Starting? || m.phase.Bound? ==> m.host == FRESH && w.lock.Launcher? && w.lock.errand == Waiting(pid))
    && (!m.phase.Starting? && !m.phase.Bound? && !m.phase.Serving? ==> m.host.shuttingDown)
    && (Cleans(m.phase) <==> w.lock == Cleaner(pid))
    && (m.phase.Checked? || m.phase.Unlinked? ==> w.pidFile == Some(pid))
    && (w.lock.Launcher? && w.lock.errand.Waiting? && m.listening ==> w.lock.errand == Waiting(pid))
  }

  ghost predicate Safe(w: World) {
    && (forall pid | pid in w.managers :: ManagerOK(w, pid))
    && (w.lock.Cleaner? ==> w.lock.pid in w.managers)
    && (w.lock.Launcher? && w.lock.errand.Waiting? ==> w.lock.errand.pid in w.managers)
  }

  lemma FreshIsOneEach()
    ensures OneEach(FRESH) && OneEach(FRESH.(shuttingDown := true))
  {}

  lemma OthersOK(w: World, s: Step, q: Pid)
    requires Safe(w) && Enabled(w, s) && Patient(w, s) && q in w.managers
    requires q in Perform(w, s).managers && Perform(w, s).managers[q] == w.managers[q]
    ensures ManagerOK(Perform(w, s), q)
  {
    assert ManagerOK(w, q);
    match s
    case PingFails(pid) => assert Listening(w, q) ==> w.socket == Some(q);
    case PingAnswered => assert ManagerOK(w, w.socket.value);
    case Bind(pid) => assert ManagerOK(w, pid);
    case WritePID(pid) => assert ManagerOK(w, pid);
    case UnlinkSocket(pid) => assert ManagerOK(w, pid);
    case UnlinkPIDFile(pid) => assert ManagerOK(w, pid);
    case CheckPID(pid) => assert ManagerOK(w, pid);
    case _ =>
  }

  lemma ActorOK(w: World, s: Step, q: Pid)
    requires Safe(w) && Enabled(w, s) && Patient(w, s)
    requires q in Perform(w, s).managers && (q in w.managers ==> Perform(w, s).managers[q] != w.managers[q])
    ensures ManagerOK(Perform(w, s), q)
  {
    FreshIsOneEach();
    if q in w.managers {
      assert ManagerOK(w, q);
      if s.Host? {
        OneEachStep(w.managers[q].host, s.step);
      }
    }
  }

  lemma StepIsSafe(w: World, s: Step)
    requires Safe(w) && Patient(w, s)
    ensures Safe(After(w, s))
  {
    if Enabled(w, s) {
      var z := Perform(w, s);
      forall q | q in z.managers
        ensures ManagerOK(z, q)
      {
        if q in w.managers && z.managers[q] == w.managers[q] {
          OthersOK(w, s, q);
        } else {
          ActorOK(w, s, q);
        }
      }
    }
  }

  ghost predicate AllPatient(w: World, steps: seq<Step>)
    decreases |steps|
  {
    steps == [] || (Patient(w, steps[0]) && AllPatient(After(w, steps[0]), steps[1..]))
  }

  lemma {:induction false} RunIsSafe(w: World, steps: seq<Step>)
    requires Safe(w) && AllPatient(w, steps)
    ensures Safe(Run(w, steps))
    decreases |steps|
  {
    if steps != [] {
      StepIsSafe(w, steps[0]);
      RunIsSafe(After(w, steps[0]), steps[1..]);
    }
  }

  const NOTHING := World(Free, None, None, map[])

  lemma EmptyIsSafe(socket: Option<Pid>, pidFile: Option<Pid>)
    ensures Safe(World(Free, socket, pidFile, map[]))
  {}

  /** In every interleaving of patient launchers, managers, idle exits and crashes: a live
      manager owns the socket and the pid file, and is the only one. */
  lemma LiveManagerIsReachable(w: World, steps: seq<Step>, p: Pid, q: Pid)
    requires Safe(w) && AllPatient(w, steps) && Live(Run(w, steps), p)
    ensures var z := Run(w, steps);
            z.socket == Some(p) && z.pidFile == Some(p) && Listening(z, p) && (Live(z, q) ==> q == p)
  {
    RunIsSafe(w, steps);
    var z := Run(w, steps);
    assert ManagerOK(z, p);
    if q in z.managers {
      assert ManagerOK(z, q);
    }
  }

  lemma NobodyListens(z: World, p: Pid, q: Pid)
    requires Safe(z) && (In(z, p, Checked) || In(z, p, Unlinked))
    ensures z.pidFile == Some(p) && !Listening(z, q)
  {
    assert ManagerOK(z, p);
    if q in z.managers {
      assert ManagerOK(z, q);
    }
  }

  /** When an exiting manager unlinks the control files they are its own: the pid in the
      file is its pid, and nobody else is listening, live or about to be. */
  lemma CleanupUnlinksItsOwn(w: World, steps: seq<Step>, p: Pid, q: Pid)
    requires Safe(w) && AllPatient(w, steps)
    ensures var z := Run(w, steps);
            Enabled(z, UnlinkSocket(p)) || Enabled(z, UnlinkPIDFile(p)) ==>
              z.pidFile == Some(p) && !Listening(z, q) && !Live(z, q) && !In(z, q, Starting)
  {
    RunIsSafe(w, steps);
    var z := Run(w, steps);
    if In(z, p, Checked) || In(z, p, Unlinked) {
      NobodyListens(z, p, q);
      assert ManagerOK(z, p);
      if q in z.managers {
        assert ManagerOK(z, q);
      }
    }
  }

  /** One worker a session in the whole registry: only the live manager has any. */
  lemma OneWorkerAnywhere(w: World, steps: seq<Step>, id: SessionID, p: Pid, q: Pid)
    requires Safe(w) && AllPatient(w, steps)
    ensures var z := Run(w, steps);
            p in z.managers && Workers(z.managers[p].host, id) > 0 ==>
              Workers(z.managers[p].host, id) == 1 && Live(z, p) &&
              (q in z.managers && Workers(z.managers[q].host, id) > 0 ==> q == p)
  {
    RunIsSafe(w, steps);
    var z := Run(w, steps);
    OnlyLiveWork(z, id, p);
    OnlyLiveWork(z, id, q);
    if Live(z, p) {
      LiveManagerIsReachable(w, steps, p, q);
    }
  }

  lemma OnlyLiveWork(z: World, id: SessionID, p: Pid)
    requires Safe(z)
    ensures p in z.managers && Workers(z.managers[p].host, id) > 0 ==>
              Live(z, p) && Workers(z.managers[p].host, id) == 1
  {
    if p in z.managers {
      assert ManagerOK(z, p);
      var h := z.managers[p].host;
      assert Workers(h, id) == if id in h.active then 1 else 0;
    }
  }

  // ---- giving up ------------------------------------------------------------------

  /** A live manager can be found. */
  ghost predicate LiveOwns(w: World) {
    forall q: Pid | Live(w, q) :: w.socket == Some(q) && w.pidFile == Some(q)
  }

  /** Whether giving up now can cost a live manager its files: the spawned manager has not
      bound the socket yet, or it has, and the pid file still names an older manager that has
      yet to clean up. A launcher can look at both before it lets go. */
  predicate Dangerous(w: World, p: Pid) {
    In(w, p, Starting) ||
    (In(w, p, Bound) && w.pidFile.Some? && w.pidFile.value != p &&
     (In(w, w.pidFile.value, Serving) || In(w, w.pidFile.value, Stopped)))
  }

  lemma SafeOwns(w: World)
    requires Safe(w)
    ensures LiveOwns(w)
  {
    forall q: Pid | Live(w, q)
      ensures w.socket == Some(q) && w.pidFile == Some(q)
    {
      assert ManagerOK(w, q);
    }
  }

  /** After a harmless give-up: `p` has bound the socket, nobody waits for it, and nobody
      else can serve, bind or clean up the files until it writes its pid or dies. */
  ghost predicate Orphaned(w: World, p: Pid) {
    && In(w, p, Bound) && w.managers[p].listening && w.managers[p].host == FRESH && w.socket == Some(p)
    && (w.lock.Launcher? ==> w.lock.errand == Asking)
    && (w.lock.Cleaner? ==> w.lock.pid in w.managers && w.lock.pid != p)
    && (forall q | q in w.managers && q != p :: BesideOrphan(w, q))
  }

  ghost predicate BesideOrphan(w: World, q: Pid)
    requires q in w.managers
  {
    var m := w.managers[q];
    && OneEach(m.host) && m.host.shuttingDown && !m.listening
    && (m.phase.Serving? || m.phase.Stopped? || m.phase.Cleaning? || m.phase.Gone?)
    && (Cleans(m.phase) <==> w.lock == Cleaner(q))
    && (!m.phase.Gone? ==> w.pidFile != Some(q))
  }

  lemma GiveUpHarmless(w: World)
    requires Safe(w) && Enabled(w, GiveUp) && !Dangerous(w, w.lock.errand.pid)
    ensures var z := After(w, GiveUp); Safe(z) || Orphaned(z, w.lock.errand.pid)
  {
    var p, z := w.lock.errand.pid, After(w, GiveUp);
    assert ManagerOK(w, p);
    if StartingUp(w, p) {
      forall q | q in z.managers && q != p
        ensures BesideOrphan(z, q)
      {
        assert ManagerOK(w, q);
      }
    } else {
      StepIsSafe(w, GiveUp);
    }
  }

  /** Once the pid is written, or the manager is dead, everything is as it should be. */
  lemma OrphanLands(w: World, p: Pid, s: Step)
    requires Orphaned(w, p) && (s == WritePID(p) || s == Crash(p))
    ensures Safe(After(w, s))
  {
    FreshIsOneEach();
    var z := After(w, s);
    forall q | q in z.managers
      ensures ManagerOK(z, q)
    {
      if q != p {
        assert BesideOrphan(w, q);
      }
    }
  }

  lemma OrphanWaits(w: World, p: Pid, s: Step)
    requires Orphaned(w, p) && s != WritePID(p) && s != Crash(p) && Enabled(w, s)
    ensures Orphaned(After(w, s), p)
  {
    FreshIsOneEach();
    var z := After(w, s);
    OrphanActs(w, p, s);
    forall q | q in z.managers && q != p
      ensures BesideOrphan(z, q)
    {
      if q in w.managers {
        assert BesideOrphan(w, q);
        if s.Host? && s.pid == q {
          OneEachStep(w.managers[q].host, s.step);
        }
      }
    }
  }

  lemma OldOnes(w: World, p: Pid, q: Pid)
    requires Orphaned(w, p)
    ensures q != p ==> !Live(w, q) && !In(w, q, Starting) && !In(w, q, Bound) && !In(w, q, Checked) && !In(w, q, Unlinked)
    ensures !Live(w, p) && !In(w, p, Checked) && !In(w, p, Unlinked) && !In(w, p, Starting)
  {
    if q in w.managers && q != p {
      assert BesideOrphan(w, q);
    }
  }

  /** What is still possible beside an orphan: taking and releasing the lock, and old
      managers on their way out. */
  lemma OrphanActs(w: World, p: Pid, s: Step)
    requires Orphaned(w, p) && s != WritePID(p) && s != Crash(p) && Enabled(w, s)
    ensures s.TakeLock? || s.Release? || s.Host? || s.CloseListener? || s.LeaveLoop? || s.TakeLockToClean? ||
            s.CheckPID? || s.Crash?
    ensures s.Host? ==> s.pid != p && s.pid in w.managers
    ensures s.CloseListener? || s.LeaveLoop? || s.TakeLockToClean? || s.CheckPID? || s.Crash? ==> s.pid != p
  {
    match s
    case Bind(q) => OldOnes(w, p, q);
    case WritePID(q) => OldOnes(w, p, q);
    case UnlinkSocket(q) => OldOnes(w, p, q);
    case UnlinkPIDFile(q) => OldOnes(w, p, q);
    case _ =>
  }

  lemma OrphanOwns(w: World, p: Pid)
    requires Orphaned(w, p)
    ensures LiveOwns(w)
  {
    assert forall q: Pid :: !Live(w, q) by {
      forall q: Pid
        ensures !Live(w, q)
      {
        OldOnes(w, p, q);
      }
    }
  }

  /** A launcher gives up only where it is not dangerous. */
  predicate Harmless(w: World, s: Step) {
    s.GiveUp? && Enabled(w, s) ==> !Dangerous(w, w.lock.errand.pid)
  }

  ghost predicate AllHarmless(w: World, steps: seq<Step>)
    decreases |steps|
  {
    steps == [] || (Harmless(w, steps[0]) && AllHarmless(After(w, steps[0]), steps[1..]))
  }

  lemma HarmlessStep(w: World, p: Pid, s: Step) returns (q: Pid)
    requires (Safe(w) || Orphaned(w, p)) && Harmless(w, s)
    ensures Safe(After(w, s)) || Orphaned(After(w, s), q)
  {
    q := p;
    if Safe(w) {
      if s.GiveUp? && Enabled(w, s) {
        q := w.lock.errand.pid;
        GiveUpHarmless(w);
      } else {
        StepIsSafe(w, s);
      }
    } else if s == WritePID(p) || s == Crash(p) {
      OrphanLands(w, p, s);
    } else if Enabled(w, s) {
      OrphanWaits(w, p, s);
    }
  }

  /** In every interleaving whose give-ups are harmless, a live manager can be found. */
  lemma {:induction false} HarmlessRunOwns(w: World, p: Pid, steps: seq<Step>)
    requires (Safe(w) || Orphaned(w, p)) && AllHarmless(w, steps)
    ensures LiveOwns(Run(w, steps))
    decreases |steps|
  {
    if steps == [] {
      if Safe(w) {
        SafeOwns(w);
      } else {
        OrphanOwns(w, p);
      }
    } else {
      var q := HarmlessStep(w, p, steps[0]);
      HarmlessRunOwns(After(w, steps[0]), q, steps[1..]);
    }
  }

  lemma {:induction false} FreshAbove(s: set<Pid>) returns (n: Pid)
    ensures forall x | x in s :: x < n
    decreases |s|
  {
    if s == {} {
      n := 0;
    } else {
      var x :| x in s;
      var m := FreshAbove(s - {x});
      n := if m <= x then x + 1 else m;
      forall y | y in s
        ensures y < n
      {
        assert y == x || y in s - {x};
      }
    }
  }

  /** A run given step by step. */
  lemma RunFive(w: World, a: Step, b: Step, c: Step, d: Step, e: Step)
    ensures Run(w, [a, b, c, d, e]) == After(After(After(After(After(w, a), b), c), d), e)
  {
    var w3 := After(After(After(w, a), b), c);
    assert [a, b, c, d, e][1..] == [b, c, d, e] && [b, c, d, e][1..] == [c, d, e] && [c, d, e][1..] == [d, e];
    assert [d, e][1..] == [e] && [e][1..] == [];
    assert Run(w3, [d, e]) == Run(After(w3, d), [e]) == Run(After(After(w3, d), e), []);
    assert Run(w, [a, b, c, d, e]) == Run(After(w, a), [b, c, d, e]) == Run(After(After(w, a), b), [c, d, e]);
  }

  ghost predicate NoGiveUp(steps: seq<Step>) {
    forall s | s in steps :: !s.GiveUp?
  }

  lemma {:induction false} PatientWithoutGivingUp(w: World, steps: seq<Step>)
    requires NoGiveUp(steps)
    ensures AllPatient(w, steps) && AllHarmless(w, steps)
    decreases |steps|
  {
    if steps != [] {
      assert steps[0] in steps;
      PatientWithoutGivingUp(After(w, steps[0]), steps[1..]);
    }
  }

  /** The spawned manager has not bound yet: a second launcher starts another, which serves,
      and then loses its socket to the first. */
  lemma LosesToALatecomer(w: World) returns (steps: seq<Step>)
    requires Safe(w) && Enabled(w, GiveUp) && In(w, w.lock.errand.pid, Starting)
    ensures NoGiveUp(steps) && !LiveOwns(Run(After(w, GiveUp), steps))
  {
    var p := w.lock.errand.pid;
    var top := FreshAbove(w.managers.Keys);
    var q := if w.pidFile.Some? && w.pidFile.value >= top then w.pidFile.value + 1 else top;
    assert q !in w.managers;
    assert ManagerOK(w, p);
    if w.socket.Some? && w.socket.value in w.managers {
      assert ManagerOK(w, w.socket.value);
    }
    var w0 := After(w, GiveUp);
    var w1 := After(w0, TakeLock(0));
    var w2 := After(w1, PingFails(q));
    assert In(w2, q, Starting) && In(w2, p, Starting);
    var w3 := After(w2, Bind(q));
    var w4 := After(w3, WritePID(q));
    assert Live(w4, q) && In(w4, p, Starting);
    var w5 := After(w4, Bind(p));
    assert Live(w5, q) && w5.socket == Some(p);
    steps := [TakeLock(0), PingFails(q), Bind(q), WritePID(q), Bind(p)];
    RunFive(w0, TakeLock(0), PingFails(q), Bind(q), WritePID(q), Bind(p));
  }

  lemma OlderUnlinks(w: World, older: Pid, p: Pid)
    requires w.lock == Free && In(w, older, Stopped) && w.pidFile == Some(older) && older != p
    requires In(w, p, Bound) && w.managers[p].host == FRESH
    ensures var z := After(After(After(After(w, TakeLockToClean(older)), CheckPID(older)), UnlinkSocket(older)), WritePID(p));
            Live(z, p) && z.socket == None
  {
    var w3 := After(After(w, TakeLockToClean(older)), CheckPID(older));
    assert In(w3, older, Checked) && In(w3, p, Bound) && w3.managers[p] == w.managers[p];
    var w4 := After(w3, UnlinkSocket(older));
    assert w4.socket == None && In(w4, p, Bound) && w4.managers[p] == w.managers[p];
  }

  /** The spawned manager has bound, and an older one named in the pid file comes to clean up
      before the new pid is written: it unlinks the new socket. */
  lemma LosesToAnOlder(w: World) returns (steps: seq<Step>)
    requires Safe(w) && Enabled(w, GiveUp) && In(w, w.lock.errand.pid, Bound) && Dangerous(w, w.lock.errand.pid)
    ensures NoGiveUp(steps) && !LiveOwns(Run(After(w, GiveUp), steps))
  {
    var p, older := w.lock.errand.pid, w.pidFile.value;
    assert ManagerOK(w, p);
    assert ManagerOK(w, older);
    var w0 := After(w, GiveUp);
    var w1 := After(w0, LeaveLoop(older));
    OlderUnlinks(w1, older, p);
    steps := [LeaveLoop(older), TakeLockToClean(older), CheckPID(older), UnlinkSocket(older), WritePID(p)];
    RunFive(w0, LeaveLoop(older), TakeLockToClean(older), CheckPID(older), UnlinkSocket(older), WritePID(p));
    var z := Run(w0, steps);
    assert Live(z, p) && z.socket == None;
  }

  /** Giving up is harmless, whatever comes after, exactly when it is not dangerous. */
  lemma GivingUpExactly(w: World)
    requires Safe(w) && Enabled(w, GiveUp)
    ensures (forall steps | AllHarmless(After(w, GiveUp), steps) :: LiveOwns(Run(After(w, GiveUp), steps))) <==>
              !Dangerous(w, w.lock.errand.pid)
  {
    var p, z := w.lock.errand.pid, After(w, GiveUp);
    if Dangerous(w, p) {
      var steps;
      if In(w, p, Starting) {
        steps := LosesToALatecomer(w);
      } else {
        steps := LosesToAnOlder(w);
      }
      PatientWithoutGivingUp(z, steps);
    } else {
      GiveUpHarmless(w);
      forall steps | AllHarmless(z, steps)
        ensures LiveOwns(Run(z, steps))
      {
        HarmlessRunOwns(z, p, steps);
      }
    }
  }

  // ---- both dangers arise ---------------------------------------------------------

  lemma RunThen(w: World, steps: seq<Step>, s: Step)
    ensures Run(w, steps + [s]) == After(Run(w, steps), s)
    decreases |steps|
  {
    if steps == [] {
      assert steps + [s] == [s] && [s][1..] == [];
    } else {
      assert (steps + [s])[1..] == steps[1..] + [s];
      RunThen(After(w, steps[0]), steps[1..], s);
    }
  }

  const SERVED := FRESH.(shuttingDown := true)

  /** From nothing: the first manager comes, idles out and stops, and a launcher spawns the
      second, which is then starting, or bound with the pid file naming the first. */
  lemma DangersArise() returns (early: seq<Step>, late: seq<Step>)
    ensures AllPatient(NOTHING, early) && AllPatient(NOTHING, late)
    ensures var w := Run(NOTHING, early);
            Safe(w) && w.lock == Launcher(0, Waiting(2)) && In(w, 2, Starting) && Dangerous(w, 2)
    ensures var w := Run(NOTHING, late);
            Safe(w) && w.lock == Launcher(0, Waiting(2)) && In(w, 2, Bound) && Dangerous(w, 2)
  {
    var opening := [TakeLock(0), PingFails(1), Bind(1), WritePID(1), PingAnswered];
    RunFive(NOTHING, TakeLock(0), PingFails(1), Bind(1), WritePID(1), PingAnswered);
    var w5 := Run(NOTHING, opening);
    OpeningRun();
    var closing := [Release, Host(1, Idle), CloseListener(1), LeaveLoop(1), TakeLock(0)];
    RunFive(w5, Release, Host(1, Idle), CloseListener(1), LeaveLoop(1), TakeLock(0));
    var w10 := Run(w5, closing);
    ClosingRun();
    RunJoin(NOTHING, opening, closing);
    early := opening + closing + [PingFails(2)];
    RunThen(NOTHING, opening + closing, PingFails(2));
    late := early + [Bind(2)];
    RunThen(NOTHING, early, Bind(2));
    PatientWithoutGivingUp(NOTHING, early);
    PatientWithoutGivingUp(NOTHING, late);
    EmptyIsSafe(None, None);
    RunIsSafe(NOTHING, early);
    RunIsSafe(NOTHING, late);
  }

  lemma {:induction false} RunJoin(w: World, a: seq<Step>, b: seq<Step>)
    ensures Run(w, a + b) == Run(Run(w, a), b)
    decreases |a|
  {
    if a == [] {
      assert a + b == b;
    } else {
      assert (a + b)[1..] == a[1..] + b;
      RunJoin(After(w, a[0]), a[1..], b);
    }
  }

  const SERVING_ONE := World(Launcher(0, Ready), Some(1), Some(1), map[1 := Manager(Serving, true, FRESH)])
  const STOPPED_ONE := World(Launcher(0, Asking), Some(1), Some(1), map[1 := Manager(Stopped, false, SERVED)])

  lemma OpeningRun()
    ensures After(After(After(After(After(NOTHING, TakeLock(0)), PingFails(1)), Bind(1)), WritePID(1)), PingAnswered)
            == SERVING_ONE
  {
    var w2 := After(After(NOTHING, TakeLock(0)), PingFails(1));
    assert w2 == World(Launcher(0, Waiting(1)), None, None, map[1 := Manager(Starting, false, FRESH)]);
    var w4 := After(After(w2, Bind(1)), WritePID(1));
    assert w4 == World(Launcher(0, Waiting(1)), Some(1), Some(1), map[1 := Manager(Serving, true, FRESH)]);
  }

  lemma ClosingRun()
    ensures After(After(After(After(After(SERVING_ONE, Release), Host(1, Idle)), CloseListener(1)), LeaveLoop(1)), TakeLock(0))
            == STOPPED_ONE
  {
    var w2 := After(After(SERVING_ONE, Release), Host(1, Idle));
    assert w2 == World(Free, Some(1), Some(1), map[1 := Manager(Serving, true, SERVED)]);
    var w4 := After(After(w2, CloseListener(1)), LeaveLoop(1));
    assert w4 == World(Free, Some(1), Some(1), map[1 := Manager(Stopped, false, SERVED)]);
  }
}
