/** What holds of the status over every run of signals. */
module ReducerRuns {
  import opened Wrappers
  import opened Reducers

  datatype Input = Input(signal: Signal, at: real)

  /** A run: the machine before each signal, and after the last; `out` of a machine is
      the outcome of the signal that led to it. */
  datatype Trace = Trace(c: Config, run: seq<Input>, at: seq<Machine>)

  ghost predicate Step(t: Trace, k: nat)
    requires k < |t.run| && |t.at| == |t.run| + 1
  {
    t.at[k + 1] == Reduce(t.c, t.at[k], t.run[k].signal, t.run[k].at)
  }

  ghost predicate IsRun(t: Trace) {
    && |t.at| == |t.run| + 1
    && Sound(t.c, t.at[0])
    && (forall k | 0 <= k < |t.run| :: Step(t, k))
  }

  /** Signal `k` fires `turnCompleted`. */
  predicate Fires(t: Trace, k: nat)
    requires k + 1 < |t.at|
  {
    t.at[k + 1].out.turnCompleted
  }

  // ---- kinds of signals -----------------------------------------------------------

  predicate ParentWork(s: Signal) {
    s.ClaudeHook? && !s.isSubagent && (s.hook.UserPromptSubmit? || s.hook.PreToolUse?)
  }

  predicate ParentAsks(s: Signal) {
    s.ClaudeHook? && !s.isSubagent &&
    (s.hook.PermissionRequest? || (s.hook.Notification? && (s.hook.kind == "permission_prompt" || AsksQuestion(s.hook.kind))))
  }

  predicate EndsTurn(s: Signal) {
    s.CodexTurnComplete? ||
    (s.ClaudeHook? && !s.isSubagent && (s.hook.Stop? || (s.hook.Notification? && s.hook.kind == "agent_completed")))
  }

  /** A scan that is not skipped: no transient view, and new content. */
  predicate FreshScan(m: Machine, s: Signal) {
    s.Screen? && s.shows != Skip && m.b.lastScreenSeq != Some(s.contentSeq)
  }

  predicate Blocker(shows: ScreenState) { shows.ShowsPermission? || shows.ShowsQuestion? }

  /** Work, a blocker, or a question: what ends an idle candidacy. */
  predicate Cancels(m: Machine, s: Signal) {
    ParentWork(s) || ParentAsks(s) || (FreshScan(m, s) && (s.shows.ShowsWorking? || Blocker(s.shows)))
  }

  predicate FreshIdle(m: Machine, s: Signal) { FreshScan(m, s) && s.shows.ShowsIdle? }

  predicate FreshMiss(m: Machine, s: Signal) { FreshScan(m, s) && !Blocker(s.shows) }

  // ---- what every signal keeps ----------------------------------------------------

  ghost predicate Sound(c: Config, m: Machine) {
    && (m.b.screenBlockerActive ==> m.status.NeedsInput? || m.status.Exited?)
    && (m.b.pendingTurnCompleted ==> m.b.idleStrong)
    && (m.b.idleStrong ==> m.b.idleCandidateSince.Some?)
    && (m.status == Working ==> m.b.turnInFlight && (m.b.idleStrong ==> m.b.pendingTurnCompleted))
    && (m.b.idleCandidateSince.None? ==> m.b.idleConfirms == 0)
    && (c.authority == ProcessOnly ==> m.b.idleCandidateSince.None? && !m.b.idleStrong && !m.b.screenBlockerActive)
  }

  lemma SoundHook(c: Config, m: Machine, hook: Hook, isSubagent: bool, now: real)
    requires Sound(c, m) && !m.status.Exited? && c.authority != ProcessOnly
    ensures Sound(c, ClaudeHookStep(m, hook, isSubagent, now))
  {}

  lemma SoundScreen(c: Config, m: Machine, shows: ScreenState, seqNo: nat, now: real)
    requires Sound(c, m) && !m.status.Exited? && c.authority != ProcessOnly
    ensures Sound(c, ScreenStep(c, m, shows, seqNo, now))
  {}

  lemma SoundStep(c: Config, m: Machine, s: Signal, now: real)
    requires Sound(c, m)
    ensures Sound(c, Reduce(c, m, s, now))
  {
    var quiet := m.(out := QUIET);
    if !m.status.Exited? && c.authority != ProcessOnly {
      if s.ClaudeHook? {
        SoundHook(c, quiet, s.hook, s.isSubagent, now);
      } else if s.Screen? {
        SoundScreen(c, quiet, s.shows, s.contentSeq, now);
      }
    }
  }

  lemma {:induction false} SoundAt(t: Trace, n: nat)
    requires IsRun(t) && n <= |t.run|
    ensures Sound(t.c, t.at[n])
  {
    if n > 0 {
      SoundAt(t, n - 1);
      assert Step(t, n - 1);
      SoundStep(t.c, t.at[n - 1], t.run[n - 1].signal, t.run[n - 1].at);
    }
  }

  lemma SoundFromTheStart(c: Config, spawnedAt: real)
    ensures Sound(c, Initial(spawnedAt))
  {}

  /** Status changes are reported, and nothing else is. */
  lemma ChangeIsReported(c: Config, m: Machine, s: Signal, now: real)
    requires Sound(c, m)
    ensures var z := Reduce(c, m, s, now);
            (z.status == m.status ==> z.out.statusChange == None) &&
            (z.status != m.status ==> z.out.statusChange == Some(z.status))
  {}

  // ---- turn accounting ------------------------------------------------------------

  lemma FireStep(c: Config, m: Machine, s: Signal, now: real)
    requires Sound(c, m)
    ensures var z := Reduce(c, m, s, now);
            && (z.out.turnCompleted ==> m.status == Working && z.status == Idle)
            && (z.out.turnCompleted ==> EndsTurn(s) || (m.b.pendingTurnCompleted && !Cancels(m, s)))
  {}

  lemma PendingStep(c: Config, m: Machine, s: Signal, now: real)
    requires Sound(c, m)
    ensures var z := Reduce(c, m, s, now);
            z.status == Working && z.b.pendingTurnCompleted ==>
              !z.out.turnCompleted && m.status == Working && (EndsTurn(s) || (m.b.pendingTurnCompleted && !Cancels(m, s)))
  {}

  /** Signal `j` ended the turn while working, and up to signal `k` the session worked on
      with no work, blocker or question signal, and nothing fired. */
  ghost predicate Ended(t: Trace, j: nat, k: nat)
    requires j <= k <= |t.run| < |t.at|
  {
    && j < |t.run| && EndsTurn(t.run[j].signal) && t.at[j].status == Working
    && (forall i | j < i < k :: t.at[i].status == Working && !Cancels(t.at[i], t.run[i].signal))
    && (forall i | j <= i < k :: !Fires(t, i))
  }

  lemma EndedExtends(t: Trace, j: nat, n: nat)
    requires j <= n < |t.run| < |t.at| && Ended(t, j, n)
    requires j < n ==> t.at[n].status == Working && !Cancels(t.at[n], t.run[n].signal)
    requires !Fires(t, n)
    ensures Ended(t, j, n + 1)
  {}

  lemma PendingBefore(t: Trace, n: nat)
    requires IsRun(t) && n < |t.run|
    requires t.at[n + 1].status == Working && t.at[n + 1].b.pendingTurnCompleted
    ensures !Fires(t, n) && t.at[n].status == Working
    ensures EndsTurn(t.run[n].signal) ||
            (t.at[n].b.pendingTurnCompleted && !Cancels(t.at[n], t.run[n].signal))
  {
    SoundAt(t, n);
    assert Step(t, n);
    PendingStep(t.c, t.at[n], t.run[n].signal, t.run[n].at);
  }

  lemma {:induction false} PendingHasCause(t: Trace, n: nat) returns (j: nat)
    requires IsRun(t) && !t.at[0].b.pendingTurnCompleted && n <= |t.run|
    requires t.at[n].status == Working && t.at[n].b.pendingTurnCompleted
    ensures j < n && Ended(t, j, n)
  {
    assert n > 0;
    PendingBefore(t, n - 1);
    if EndsTurn(t.run[n - 1].signal) {
      j := n - 1;
    } else {
      j := PendingHasCause(t, n - 1);
    }
    EndedExtends(t, j, n - 1);
  }

  /** Every `turnCompleted` is a working-to-idle step with its own end-of-turn signal. */
  lemma FireHasCause(t: Trace, k: nat) returns (j: nat)
    requires IsRun(t) && !t.at[0].b.pendingTurnCompleted && k < |t.run| && Fires(t, k)
    ensures t.at[k].status == Working && t.at[k + 1].status == Idle
    ensures j <= k && Ended(t, j, k)
    ensures j < k ==> !Cancels(t.at[k], t.run[k].signal)
  {
    SoundAt(t, k);
    assert Step(t, k);
    FireStep(t.c, t.at[k], t.run[k].signal, t.run[k].at);
    if EndsTurn(t.run[k].signal) {
      j := k;
    } else {
      j := PendingHasCause(t, k);
    }
  }

  /** Two firings never share an end-of-turn signal, and the session entered working
      again in between. */
  lemma CausesAreDistinct(t: Trace, k1: nat, j2: nat, k2: nat)
    requires IsRun(t) && k1 < k2 < |t.run| && Fires(t, k1) && j2 <= k2 && Ended(t, j2, k2)
    ensures k1 < j2
    ensures exists i :: k1 < i < j2 && t.at[i].status != Working && t.at[i + 1].status == Working
  {
    SoundAt(t, k1);
    assert Step(t, k1);
    FireStep(t.c, t.at[k1], t.run[k1].signal, t.run[k1].at);
    var i := Entry(t, k1 + 1, j2);
  }

  lemma {:induction false} Entry(t: Trace, a: nat, b: nat) returns (i: nat)
    requires a <= b < |t.at| && t.at[a].status != Working && t.at[b].status == Working
    ensures a <= i < b && t.at[i].status != Working && t.at[i + 1].status == Working
    decreases b - a
  {
    if t.at[a + 1].status == Working {
      i := a;
    } else {
      i := Entry(t, a + 1, b);
    }
  }

  // ---- a strong idle is always honoured -------------------------------------------

  /** Nothing that would end the candidacy, the process, or the run as stale. */
  predicate LeavesAlone(c: Config, m: Machine, s: Signal, now: real) {
    !Cancels(m, s) && !s.ProcessExit? && (s.Tick? ==> !Stale(c, m, now))
  }

  ghost predicate Honoured(m: Machine, fired: nat) {
    if fired == 0 then m.status == Working && m.b.pendingTurnCompleted && m.b.idleStrong
    else fired == 1 && m.status == Idle
  }

  function FiredIn(t: Trace, a: nat, b: nat): nat
    requires a <= b < |t.at|
  {
    if a == b then 0 else FiredIn(t, a, b - 1) + if Fires(t, b - 1) then 1 else 0
  }

  lemma EndsTurnStep(c: Config, m: Machine, s: Signal, now: real)
    requires Sound(c, m) && c.authority != ProcessOnly && m.status == Working && EndsTurn(s)
    ensures var z := Reduce(c, m, s, now); Honoured(z, if z.out.turnCompleted then 1 else 0)
  {}

  lemma HonouredStep(c: Config, m: Machine, s: Signal, now: real, fired: nat)
    requires Sound(c, m) && c.authority != ProcessOnly && Honoured(m, fired) && LeavesAlone(c, m, s, now)
    ensures var z := Reduce(c, m, s, now);
            Honoured(z, fired + if z.out.turnCompleted then 1 else 0) && (s.Tick? ==> z.status == Idle)
  {}

  lemma {:induction false} HonouredUntil(t: Trace, j: nat, n: nat)
    requires IsRun(t) && t.c.authority != ProcessOnly && j < n <= |t.run|
    requires EndsTurn(t.run[j].signal) && t.at[j].status == Working
    requires forall i | j < i < n :: LeavesAlone(t.c, t.at[i], t.run[i].signal, t.run[i].at)
    ensures Honoured(t.at[n], FiredIn(t, j, n))
  {
    SoundAt(t, n - 1);
    assert Step(t, n - 1);
    var m, i := t.at[n - 1], t.run[n - 1];
    if n == j + 1 {
      EndsTurnStep(t.c, m, i.signal, i.at);
      assert FiredIn(t, j, j) == 0;
    } else {
      HonouredUntil(t, j, n - 1);
      HonouredStep(t.c, m, i.signal, i.at, FiredIn(t, j, n - 1));
    }
  }

  /** A strong idle while working, left alone until a tick, ends in idle, and
      `turnCompleted` has fired exactly once. */
  lemma StrongIdleFiresOnce(t: Trace, j: nat, k: nat)
    requires IsRun(t) && t.c.authority != ProcessOnly && j < k < |t.run|
    requires EndsTurn(t.run[j].signal) && t.at[j].status == Working && t.run[k].signal.Tick?
    requires forall i | j < i <= k :: LeavesAlone(t.c, t.at[i], t.run[i].signal, t.run[i].at)
    ensures t.at[k + 1].status == Idle && FiredIn(t, j, k + 1) == 1
  {
    HonouredUntil(t, j, k);
    HonouredUntil(t, j, k + 1);
    SoundAt(t, k);
    assert Step(t, k);
    HonouredStep(t.c, t.at[k], t.run[k].signal, t.run[k].at, FiredIn(t, j, k));
  }

  // ---- blockers -------------------------------------------------------------------

  /** Fresh scans without a blocker since the last fresh scan with one. */
  function Misses(t: Trace, n: nat): nat
    requires n <= |t.run| < |t.at|
  {
    if n == 0 then 0
    else if !FreshScan(t.at[n - 1], t.run[n - 1].signal) then Misses(t, n - 1)
    else if Blocker(t.run[n - 1].signal.shows) then 0
    else Misses(t, n - 1) + 1
  }

  function Seen(m: Machine, shows: ScreenState, seqNo: nat, now: real): Machine {
    m.(b := m.b.(lastSignalAt := now, skipActive := shows == Skip, lastScreenSeq := Some(seqNo),
                 screenBelief := Some(shows)))
  }

  /** A held blocker's count goes on from `m` to `z`. */
  ghost predicate CountKept(m: Machine, z: Machine, more: nat) {
    z.b.screenBlockerActive && !z.status.Exited? ==>
      m.b.screenBlockerActive && !m.status.Exited? && z.b.blockerMissScans == m.b.blockerMissScans + more
  }

  lemma HookKeepsCount(m: Machine, hook: Hook, isSubagent: bool, now: real)
    requires !m.status.Exited?
    ensures CountKept(m, ClaudeHookStep(m, hook, isSubagent, now), 0)
  {}

  lemma ScanCounts(c: Config, m: Machine, shows: ScreenState, now: real)
    requires !m.status.Exited?
    ensures var z := FreshScreen(c, m, shows, now);
            if Blocker(shows) then z.b.blockerMissScans == 0 else CountKept(m, z, 1)
  {}

  lemma MissStep(c: Config, m: Machine, s: Signal, now: real)
    requires Sound(c, m)
    ensures var z := Reduce(c, m, s, now);
            z.b.screenBlockerActive && !z.status.Exited? ==>
              if FreshScan(m, s) && Blocker(s.shows) then z.b.blockerMissScans == 0
              else CountKept(m, z, if FreshScan(m, s) then 1 else 0)
  {
    if !m.status.Exited? && c.authority != ProcessOnly {
      match s
      case ClaudeHook(hook, isSubagent) => HookKeepsCount(m.(out := QUIET), hook, isSubagent, now);
      case Screen(shows, seqNo) => ScanCounts(c, Seen(m.(out := QUIET), shows, seqNo, now), shows, now);
      case _ =>
    }
  }

  lemma {:induction false} MissesCounted(t: Trace, n: nat)
    requires IsRun(t) && !t.at[0].b.screenBlockerActive && n <= |t.run|
    ensures t.at[n].b.screenBlockerActive && !t.at[n].status.Exited? ==> t.at[n].b.blockerMissScans == Misses(t, n)
  {
    if n > 0 {
      MissesCounted(t, n - 1);
      SoundAt(t, n - 1);
      assert Step(t, n - 1);
      MissStep(t.c, t.at[n - 1], t.run[n - 1].signal, t.run[n - 1].at);
    }
  }

  lemma ReleaseStep(c: Config, m: Machine, s: Signal, now: real)
    requires Sound(c, m) && m.b.screenBlockerActive && !m.status.Exited?
    ensures m.status.NeedsInput?
    ensures !Reduce(c, m, s, now).status.NeedsInput? <==>
              s.ProcessExit? || ParentWork(s) ||
              (FreshMiss(m, s) && m.b.blockerMissScans + 1 >= c.timing.blockerClearScans)
  {}

  /** A screen blocker is left exactly by exit, by the parent's own work, or by the last
      of `blockerClearScans` fresh scans in a row that do not show one. */
  lemma BlockerIsHeld(t: Trace, k: nat)
    requires IsRun(t) && !t.at[0].b.screenBlockerActive && k < |t.run|
    requires t.at[k].b.screenBlockerActive && !t.at[k].status.Exited?
    ensures t.at[k].status.NeedsInput?
    ensures var s := t.run[k].signal;
            !t.at[k + 1].status.NeedsInput? <==>
              s.ProcessExit? || ParentWork(s) ||
              (FreshMiss(t.at[k], s) && Misses(t, k) + 1 >= t.c.timing.blockerClearScans)
  {
    SoundAt(t, k);
    MissesCounted(t, k);
    assert Step(t, k);
    ReleaseStep(t.c, t.at[k], t.run[k].signal, t.run[k].at);
  }

  // ---- anti-flicker ---------------------------------------------------------------

  datatype Calm = Calm(scans: nat, since: Option<real>)

  /** Fresh idle scans since the session last began, or showed, work. */
  function IdleScans(t: Trace, n: nat): Calm
    requires n <= |t.run| < |t.at|
  {
    if n == 0 then Calm(0, None)
    else
      var before, m, i := IdleScans(t, n - 1), t.at[n - 1], t.run[n - 1];
      if m.status != Working || Cancels(m, i.signal) then Calm(0, None)
      else if FreshIdle(m, i.signal) then Calm(before.scans + 1, Some(GetOr(before.since, i.at)))
      else before
  }

  lemma CalmStep(c: Config, m: Machine, s: Signal, now: real)
    requires Sound(c, m) && c.authority != ProcessOnly
    ensures var z := Reduce(c, m, s, now);
            z.status == Working && !z.b.idleStrong ==>
              if m.status != Working || Cancels(m, s) then z.b.idleCandidateSince == None
              else !m.b.idleStrong &&
                   if FreshIdle(m, s) then z.b.idleConfirms == m.b.idleConfirms + 1
                                           && z.b.idleCandidateSince == Some(GetOr(m.b.idleCandidateSince, now))
                   else z.b.idleConfirms == m.b.idleConfirms && z.b.idleCandidateSince == m.b.idleCandidateSince
  {}

  lemma {:induction false} ConfirmsCounted(t: Trace, n: nat)
    requires IsRun(t) && t.at[0].b.idleCandidateSince.None? && n <= |t.run| && t.c.authority != ProcessOnly
    ensures t.at[n].status == Working && !t.at[n].b.idleStrong ==>
              Calm(t.at[n].b.idleConfirms, t.at[n].b.idleCandidateSince) == IdleScans(t, n)
  {
    SoundAt(t, n);
    if n > 0 {
      ConfirmsCounted(t, n - 1);
      SoundAt(t, n - 1);
      assert Step(t, n - 1);
      CalmStep(t.c, t.at[n - 1], t.run[n - 1].signal, t.run[n - 1].at);
    }
  }

  lemma {:induction false} ScansStart(t: Trace, n: nat)
    requires n <= |t.run| < |t.at|
    ensures IdleScans(t, n).scans == 0 ==> IdleScans(t, n).since.None?
  {
    if n > 0 {
      ScansStart(t, n - 1);
    }
  }

  predicate CalmEnough(t: Timing, calm: Calm, now: real) {
    calm.scans + 1 >= t.idleConfirmations || now - GetOr(calm.since, now) >= t.idleConfirmCap
  }

  lemma QuietStep(c: Config, m: Machine, s: Signal, now: real)
    requires Sound(c, m) && m.status == Working
    ensures var z := Reduce(c, m, s, now);
            z.status == Idle && !z.out.turnCompleted <==>
              !m.b.idleStrong && c.authority != ProcessOnly && FreshIdle(m, s) &&
              CalmEnough(c.timing, Calm(m.b.idleConfirms, m.b.idleCandidateSince), now)
  {}

  /** Without an end-of-turn signal, work turns to idle only on the last of
      `idleConfirmations` fresh idle scans, or on at least two that span the cap. */
  lemma QuietIdleIsConfirmed(t: Trace, k: nat)
    requires IsRun(t) && t.at[0].b.idleCandidateSince.None? && k < |t.run| && t.at[k].status == Working
    ensures var s := t.run[k].signal;
            t.at[k + 1].status == Idle && !Fires(t, k) <==>
              !t.at[k].b.idleStrong && t.c.authority != ProcessOnly && FreshIdle(t.at[k], s) &&
              CalmEnough(t.c.timing, IdleScans(t, k), t.run[k].at)
    ensures t.at[k + 1].status == Idle && !Fires(t, k) && t.c.timing.idleConfirmCap > 0.0 ==>
              IdleScans(t, k).scans + 1 >= t.c.timing.idleConfirmations || IdleScans(t, k).scans >= 1
  {
    SoundAt(t, k);
    if t.c.authority != ProcessOnly {
      ConfirmsCounted(t, k);
    }
    ScansStart(t, k);
    assert Step(t, k);
    QuietStep(t.c, t.at[k], t.run[k].signal, t.run[k].at);
  }

  // ---- subagents ------------------------------------------------------------------

  predicate Subagents(s: Signal) {
    s.ClaudeHook? && (s.isSubagent || s.hook.SubagentStart? || s.hook.SubagentStop?)
  }

  /** The run without its subagents' signals. */
  function Parent(run: seq<Input>): seq<Input> {
    if run == [] then []
    else if Subagents(run[0].signal) then Parent(run[1..])
    else [run[0]] + Parent(run[1..])
  }

  predicate Alike(m1: Machine, m2: Machine) {
    m1.status == m2.status &&
    m1.b == m2.b.(lastSignalAt := m1.b.lastSignalAt, activeSubagents := m1.b.activeSubagents)
  }

  function Final(c: Config, m: Machine, run: seq<Input>): Machine
    decreases |run|
  {
    if run == [] then m else Final(c, Reduce(c, m, run[0].signal, run[0].at), run[1..])
  }

  /** The outcomes of the parent's signals. */
  function Outcomes(c: Config, m: Machine, run: seq<Input>): seq<Outcome>
    decreases |run|
  {
    if run == [] then []
    else
      var z := Reduce(c, m, run[0].signal, run[0].at);
      (if Subagents(run[0].signal) then [] else [z.out]) + Outcomes(c, z, run[1..])
  }

  predicate NeverStale(c: Config, m: Machine, run: seq<Input>)
    decreases |run|
  {
    run == [] ||
    (!(run[0].signal.Tick? && c.authority != ProcessOnly && Stale(c, m, run[0].at)) &&
     NeverStale(c, Reduce(c, m, run[0].signal, run[0].at), run[1..]))
  }

  lemma SubagentStep(c: Config, m: Machine, s: Signal, now: real)
    requires Subagents(s)
    ensures Alike(Reduce(c, m, s, now), m) && Reduce(c, m, s, now).out == QUIET
  {}

  /** Alike, and answering alike. */
  predicate Twins(m1: Machine, m2: Machine) { Alike(m1, m2) && m1.out == m2.out }

  lemma TwinsWork(m1: Machine, m2: Machine, now: real, clear: bool)
    requires Twins(m1, m2)
    ensures Twins(GoWorking(m1, now, clear), GoWorking(m2, now, clear))
  {}

  lemma TwinsStrongIdle(m1: Machine, m2: Machine, now: real)
    requires Twins(m1, m2)
    ensures Twins(StrongIdle(m1, now), StrongIdle(m2, now))
  {}

  lemma TwinsConfirm(t: Timing, m1: Machine, m2: Machine, now: real)
    requires Twins(m1, m2)
    ensures Twins(ConfirmIdle(t, m1, now), ConfirmIdle(t, m2, now))
  {}

  lemma TwinsAsk(m1: Machine, m2: Machine, detail: Detail)
    requires Twins(m1, m2)
    ensures Twins(AskForInput(m1, detail), AskForInput(m2, detail))
  {}

  lemma TwinsHook(m1: Machine, m2: Machine, hook: Hook, now: real)
    requires Twins(m1, m2) && !hook.SubagentStart? && !hook.SubagentStop?
    ensures Twins(ClaudeHookStep(m1, hook, false, now), ClaudeHookStep(m2, hook, false, now))
  {
    var q1, q2 := m1.(b := m1.b.(lastSignalAt := now)), m2.(b := m2.b.(lastSignalAt := now));
    TwinsWork(q1, q2, now, true);
    TwinsStrongIdle(q1, q2, now);
    TwinsAsk(q1, q2, Detail(Permission, PermissionHook, now));
    TwinsAsk(q1, q2, Detail(Permission, NotificationHook, now));
    TwinsAsk(q1, q2, Detail(Question, NotificationHook, now));
  }

  lemma TwinsNonBlocker(t: Timing, m1: Machine, m2: Machine, shows: ScreenState, now: real, cleared: bool)
    requires Twins(m1, m2)
    ensures Twins(NonBlockerScreen(t, m1, shows, now, cleared), NonBlockerScreen(t, m2, shows, now, cleared))
  {
    TwinsWork(m1, m2, now, false);
    TwinsConfirm(t, m1, m2, now);
  }

  function Blocked(m: Machine, on: bool): Machine {
    m.(b := m.b.(screenBlockerActive := on, blockerMissScans := 0))
  }

  lemma TwinsScreen(c: Config, m1: Machine, m2: Machine, shows: ScreenState, seqNo: nat, now: real)
    requires Twins(m1, m2)
    ensures Twins(ScreenStep(c, m1, shows, seqNo, now), ScreenStep(c, m2, shows, seqNo, now))
  {
    var q1, q2 := Seen(m1, shows, seqNo, now), Seen(m2, shows, seqNo, now);
    var kind := shows.NeedsInputKind();
    if FreshScan(m1, Screen(shows, seqNo)) {
      if kind.Some? {
        TwinsAsk(Blocked(q1, true), Blocked(q2, true), Detail(kind.value, ScreenScrape, now));
      } else {
        TwinsNonBlocker(c.timing, Blocked(q1, false), Blocked(q2, false), shows, now, true);
        TwinsNonBlocker(c.timing, q1, q2, shows, now, false);
      }
    }
  }

  lemma TwinsTick(c: Config, m1: Machine, m2: Machine, now: real)
    requires Twins(m1, m2) && !Stale(c, m1, now) && !Stale(c, m2, now)
    ensures Twins(TickStep(c, m1, now), TickStep(c, m2, now))
  {}

  lemma AlikePlain(c: Config, m1: Machine, m2: Machine, s: Signal, now: real)
    requires Alike(m1, m2)
    requires c.authority == ProcessOnly || s.PtyOutput? || s.Keystroke? || s.ProcessExit?
    ensures Twins(Reduce(c, m1, s, now), Reduce(c, m2, s, now))
  {}

  lemma AlikeStep(c: Config, m1: Machine, m2: Machine, s: Signal, now: real)
    requires Alike(m1, m2) && !Subagents(s)
    requires s.Tick? && c.authority != ProcessOnly ==> !Stale(c, m1, now) && !Stale(c, m2, now)
    ensures Twins(Reduce(c, m1, s, now), Reduce(c, m2, s, now))
  {
    var q1, q2 := m1.(out := QUIET), m2.(out := QUIET);
    if c.authority == ProcessOnly {
      AlikePlain(c, m1, m2, s, now);
    } else {
      match s
      case ClaudeHook(hook, _) => TwinsHook(q1, q2, hook, now);
      case Screen(shows, seqNo) => TwinsScreen(c, q1, q2, shows, seqNo, now);
      case CodexTurnComplete =>
        TwinsStrongIdle(q1.(b := q1.b.(lastSignalAt := now)), q2.(b := q2.b.(lastSignalAt := now)), now);
      case Tick => TwinsTick(c, q1, q2, now);
      case _ => AlikePlain(c, m1, m2, s, now);
    }
  }

  /** Two runs that differ only in their subagents' signals, anywhere, end alike, and
      answer the parent's signals alike. */
  lemma {:induction false} SubagentsDoNotInterfere(c: Config, m1: Machine, m2: Machine, r1: seq<Input>, r2: seq<Input>)
    requires Alike(m1, m2) && Parent(r1) == Parent(r2)
    requires NeverStale(c, m1, r1) && NeverStale(c, m2, r2)
    ensures Alike(Final(c, m1, r1), Final(c, m2, r2)) && Outcomes(c, m1, r1) == Outcomes(c, m2, r2)
    decreases |r1| + |r2|
  {
    if r1 != [] && Subagents(r1[0].signal) {
      SubagentStep(c, m1, r1[0].signal, r1[0].at);
      SubagentsDoNotInterfere(c, Reduce(c, m1, r1[0].signal, r1[0].at), m2, r1[1..], r2);
    } else if r2 != [] && Subagents(r2[0].signal) {
      SubagentStep(c, m2, r2[0].signal, r2[0].at);
      SubagentsDoNotInterfere(c, m1, Reduce(c, m2, r2[0].signal, r2[0].at), r1, r2[1..]);
    } else if r1 != [] && r2 != [] {
      assert Parent(r1)[0] == Parent(r2)[0] && Parent(r1)[1..] == Parent(r2)[1..];
      var s, now := r1[0].signal, r1[0].at;
      AlikeStep(c, m1, m2, s, now);
      SubagentsDoNotInterfere(c, Reduce(c, m1, s, now), Reduce(c, m2, s, now), r1[1..], r2[1..]);
    }
  }

  predicate Clocked(run: seq<Input>, from: real) {
    run == [] || (from <= run[0].at && Clocked(run[1..], run[0].at))
  }

  lemma HookIsRecent(m: Machine, hook: Hook, isSubagent: bool, now: real)
    ensures ClaudeHookStep(m, hook, isSubagent, now).b.lastSignalAt == now
  {}

  lemma ScanIsRecent(c: Config, m: Machine, shows: ScreenState, seqNo: nat, now: real)
    ensures ScreenStep(c, m, shows, seqNo, now).b.lastSignalAt == now
  {}

  /** Whether a signal counts as recent does not depend on when the last one came. */
  lemma LastSignalStep(c: Config, m: Machine, s: Signal, now: real)
    ensures var z := Reduce(c, m, s, now).b.lastSignalAt;
            z == now || (z == m.b.lastSignalAt && (m.status.Exited? || s.ProcessExit? || s.Tick? || c.authority == ProcessOnly))
  {
    if !m.status.Exited? && c.authority != ProcessOnly {
      match s
      case ClaudeHook(hook, isSubagent) => HookIsRecent(m.(out := QUIET), hook, isSubagent, now);
      case Screen(shows, seqNo) => ScanIsRecent(c, m.(out := QUIET), shows, seqNo, now);
      case _ =>
    }
  }

  lemma LastSignalOrder(c: Config, m1: Machine, m2: Machine, s: Signal, now: real)
    requires Alike(m1, m2) && m2.b.lastSignalAt <= m1.b.lastSignalAt <= now
    requires s.Tick? && c.authority != ProcessOnly ==> !Stale(c, m1, now) && !Stale(c, m2, now)
    ensures Reduce(c, m2, s, now).b.lastSignalAt <= Reduce(c, m1, s, now).b.lastSignalAt <= now
  {
    LastSignalStep(c, m1, s, now);
    LastSignalStep(c, m2, s, now);
  }

  /** With a clock that never runs back, only the parent's own run has to stay fresh:
      subagents' signals can only put staleness off. */
  lemma {:induction false} SubagentsNeverStale(c: Config, m1: Machine, m2: Machine, run: seq<Input>, from: real)
    requires Alike(m1, m2) && m2.b.lastSignalAt <= m1.b.lastSignalAt <= from && Clocked(run, from)
    requires NeverStale(c, m2, Parent(run))
    ensures NeverStale(c, m1, run)
    decreases |run|
  {
    if run != [] {
      var s, now := run[0].signal, run[0].at;
      if Subagents(s) {
        SubagentStep(c, m1, s, now);
        LastSignalStep(c, m1, s, now);
        SubagentsNeverStale(c, Reduce(c, m1, s, now), m2, run[1..], now);
      } else {
        AlikeStep(c, m1, m2, s, now);
        LastSignalOrder(c, m1, m2, s, now);
        assert Parent(run)[1..] == Parent(run[1..]);
        SubagentsNeverStale(c, Reduce(c, m1, s, now), Reduce(c, m2, s, now), run[1..], now);
      }
    }
  }
}
