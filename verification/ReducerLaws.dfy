/**
 What moves the status where. For each status the reducer can enter, exactly the signals
 that enter it, said of signals and of what has been seen, not of the reducer; and what each
 signal leaves on record. Together they determine every status change of every run.
*/
module ReducerLaws {
  import opened Wrappers
  import opened Reducers
  import opened ReducerRuns

  /** The session's own hooks and screen count at all. */
  predicate Listens(c: Config, m: Machine) {
    !m.status.Exited? && c.authority != ProcessOnly
  }

  /** A fresh scan without a blocker is not enough, yet, to release the one that is held. */
  predicate BlockerStands(c: Config, m: Machine) {
    m.b.screenBlockerActive && m.b.blockerMissScans + 1 < c.timing.blockerClearScans
  }

  /** Too early after the spawn for a scan to end the startup, unless the agent's screen is
      its authority and shows work. */
  predicate GraceHolds(c: Config, m: Machine, shows: ScreenState, now: real) {
    m.status == Starting && now - m.b.spawnedAt < c.timing.startupGrace &&
    !(c.authority == ScreenPrimary && shows.ShowsWorking?)
  }

  /** A fresh scan that shows `shows` and is acted on. */
  predicate Acted(c: Config, m: Machine, s: Signal, now: real, shows: ScreenState) {
    FreshScan(m, s) && s.shows == shows && !BlockerStands(c, m) && !GraceHolds(c, m, shows, now)
  }

  predicate ParentStarts(s: Signal) {
    s.ClaudeHook? && !s.isSubagent && s.hook.SessionStart?
  }

  // ---- working --------------------------------------------------------------------

  predicate Works(c: Config, m: Machine, s: Signal, now: real) {
    if c.authority == ProcessOnly then m.status == Starting && s.PtyOutput?
    else ParentWork(s) || Acted(c, m, s, now, ShowsWorking)
  }

  /** Work is entered, or goes on afresh: a turn is in flight and no idle candidacy is left;
      the parent's own work also drops a held blocker. */
  lemma WorkIsEntered(c: Config, m: Machine, s: Signal, now: real)
    requires Sound(c, m) && !m.status.Exited? && Works(c, m, s, now)
    ensures var z := Reduce(c, m, s, now);
            && z.status == Working && z.b.turnInFlight && z.b.lastSignalAt == now
            && z.b.idleCandidateSince.None? && !z.b.idleStrong && !z.b.pendingTurnCompleted
            && !z.b.screenBlockerActive
            && z.out.needsInput.None? && !z.out.turnCompleted
  {}

  lemma HookEntersWork(m: Machine, hook: Hook, isSubagent: bool, now: real)
    requires m.status != Working
    ensures ClaudeHookStep(m, hook, isSubagent, now).status == Working ==> ParentWork(ClaudeHook(hook, isSubagent))
  {}

  lemma ScreenEntersWork(c: Config, m: Machine, shows: ScreenState, seqNo: nat, now: real)
    requires m.status != Working && (m.b.screenBlockerActive ==> m.status.NeedsInput?)
    ensures ScreenStep(c, m, shows, seqNo, now).status == Working ==> Acted(c, m, Screen(shows, seqNo), now, ShowsWorking)
  {}

  lemma EntersWorking(c: Config, m: Machine, s: Signal, now: real)
    requires Sound(c, m) && m.status != Working
    ensures Reduce(c, m, s, now).status == Working <==> !m.status.Exited? && Works(c, m, s, now)
  {
    if !m.status.Exited? && Works(c, m, s, now) {
      WorkIsEntered(c, m, s, now);
    } else if Listens(c, m) {
      match s
      case ClaudeHook(hook, isSubagent) => HookEntersWork(m.(out := QUIET), hook, isSubagent, now);
      case Screen(shows, seqNo) => ScreenEntersWork(c, m.(out := QUIET), shows, seqNo, now);
      case _ =>
    }
  }

  // ---- questions ------------------------------------------------------------------

  /** What a signal asks the user, if it asks. */
  function Asks(m: Machine, s: Signal, now: real): Option<Detail> {
    if s.ClaudeHook? && !s.isSubagent && s.hook.PermissionRequest? then Some(Detail(Permission, PermissionHook, now))
    else if s.ClaudeHook? && !s.isSubagent && s.hook.Notification? && s.hook.kind == "permission_prompt"
    then Some(Detail(Permission, NotificationHook, now))
    else if s.ClaudeHook? && !s.isSubagent && s.hook.Notification? &&
            QuestionKind(s.hook.kind)
    then Some(Detail(Question, NotificationHook, now))
    else if FreshScan(m, s) && s.shows.ShowsPermission? then Some(Detail(Permission, ScreenScrape, now))
    else if FreshScan(m, s) && s.shows.ShowsQuestion? then Some(Detail(Question, ScreenScrape, now))
    else None
  }

  /** The user is asked exactly when a signal asks, with its kind, and is told what. A scan
      that asks is held as a blocker. */
  lemma QuestionIsAsked(c: Config, m: Machine, s: Signal, now: real)
    requires Listens(c, m) && Asks(m, s, now).Some?
    ensures var z, d := Reduce(c, m, s, now), Asks(m, s, now);
            && z.status == NeedsInput(d.value.kind) && z.out.needsInput == d && z.b.pendingNeedsInput == d
            && z.b.idleCandidateSince.None? && !z.b.pendingTurnCompleted && !z.out.turnCompleted
            && (s.Screen? ==> z.b.screenBlockerActive && z.b.blockerMissScans == 0)
            && (!s.Screen? ==> z.b.screenBlockerActive == m.b.screenBlockerActive)
  {}

  lemma HookAsksNothing(m: Machine, hook: Hook, isSubagent: bool, now: real)
    requires Asks(m, ClaudeHook(hook, isSubagent), now).None? && m.out == QUIET
    ensures var z := ClaudeHookStep(m, hook, isSubagent, now);
            (z.status.NeedsInput? ==> z.status == m.status) && z.out.needsInput.None? &&
            z.b.pendingNeedsInput == m.b.pendingNeedsInput
  {}

  lemma ScreenAsksNothing(c: Config, m: Machine, shows: ScreenState, seqNo: nat, now: real)
    requires Asks(m, Screen(shows, seqNo), now).None? && m.out == QUIET
    ensures var z := ScreenStep(c, m, shows, seqNo, now);
            (z.status.NeedsInput? ==> z.status == m.status) && z.out.needsInput.None? &&
            z.b.pendingNeedsInput == m.b.pendingNeedsInput
  {}

  lemma NoQuestionUnasked(c: Config, m: Machine, s: Signal, now: real)
    requires !Listens(c, m) || Asks(m, s, now).None?
    ensures var z := Reduce(c, m, s, now);
            (z.status.NeedsInput? ==> z.status == m.status) && z.out.needsInput.None? &&
            z.b.pendingNeedsInput == m.b.pendingNeedsInput
  {
    if Listens(c, m) {
      match s
      case ClaudeHook(hook, isSubagent) => HookAsksNothing(m.(out := QUIET), hook, isSubagent, now);
      case Screen(shows, seqNo) => ScreenAsksNothing(c, m.(out := QUIET), shows, seqNo, now);
      case _ =>
    }
  }

  // ---- idle -----------------------------------------------------------------------

  /** What ends a startup: the agent's own start, the end of a turn, or a scan past grace. */
  predicate StartupEnds(c: Config, m: Machine, s: Signal, now: real) {
    ParentStarts(s) || EndsTurn(s) || Acted(c, m, s, now, ShowsIdle)
  }

  /** What ends work: the end of a turn on a screen that already reads idle, a scan that
      confirms it, or a tick after it. */
  predicate WorkEnds(c: Config, m: Machine, s: Signal, now: real) {
    (EndsTurn(s) && m.b.screenBelief == Some(ShowsIdle)) ||
    (FreshIdle(m, s) && (m.b.idleStrong || CalmEnough(c.timing, Calm(m.b.idleConfirms, m.b.idleCandidateSince), now))) ||
    (s.Tick? && !Silent(c, m, now) && m.b.idleStrong)
  }

  predicate BecomesIdle(c: Config, m: Machine, s: Signal, now: real) {
    match m.status
    case Starting => StartupEnds(c, m, s, now)
    case Working => WorkEnds(c, m, s, now)
    case NeedsInput(_) => m.b.screenBlockerActive && Acted(c, m, s, now, ShowsIdle)
    case _ => false
  }

  lemma HookEntersIdle(c: Config, m: Machine, hook: Hook, isSubagent: bool, now: real)
    requires Sound(c, m) && Listens(c, m) && m.status != Idle
    ensures ClaudeHookStep(m, hook, isSubagent, now).status == Idle <==>
              BecomesIdle(c, m, ClaudeHook(hook, isSubagent), now)
  {}

  lemma ScreenEntersIdle(c: Config, m: Machine, shows: ScreenState, seqNo: nat, now: real)
    requires Sound(c, m) && Listens(c, m) && m.status != Idle
    ensures ScreenStep(c, m, shows, seqNo, now).status == Idle <==> BecomesIdle(c, m, Screen(shows, seqNo), now)
  {}

  lemma EntersIdle(c: Config, m: Machine, s: Signal, now: real)
    requires Sound(c, m) && m.status != Idle
    ensures Reduce(c, m, s, now).status == Idle <==> Listens(c, m) && BecomesIdle(c, m, s, now)
  {
    if Listens(c, m) {
      match s
      case ClaudeHook(hook, isSubagent) => HookEntersIdle(c, m.(out := QUIET), hook, isSubagent, now);
      case Screen(shows, seqNo) => ScreenEntersIdle(c, m.(out := QUIET), shows, seqNo, now);
      case _ =>
    }
  }

  /** Working, and nothing heard for longer than the timeout. */
  predicate Silent(c: Config, m: Machine, now: real) {
    m.status == Working && now - m.b.lastSignalAt > c.timing.stalenessTimeout
  }

  lemma HookFires(c: Config, m: Machine, hook: Hook, isSubagent: bool, now: real)
    requires Sound(c, m) && Listens(c, m) && m.out == QUIET
    ensures ClaudeHookStep(m, hook, isSubagent, now).out.turnCompleted <==>
              m.status == Working && EndsTurn(ClaudeHook(hook, isSubagent)) && m.b.screenBelief == Some(ShowsIdle)
  {}

  lemma ScreenFires(c: Config, m: Machine, shows: ScreenState, seqNo: nat, now: real)
    requires Sound(c, m) && Listens(c, m) && m.out == QUIET
    ensures ScreenStep(c, m, shows, seqNo, now).out.turnCompleted <==>
              m.status == Working && FreshIdle(m, Screen(shows, seqNo)) && m.b.idleStrong
  {}

  /** A turn completes exactly when work ends on a strong idle, now or before. */
  lemma FiresExactly(c: Config, m: Machine, s: Signal, now: real)
    requires Sound(c, m)
    ensures Reduce(c, m, s, now).out.turnCompleted <==>
              Listens(c, m) && m.status == Working && WorkEnds(c, m, s, now) && (EndsTurn(s) || m.b.idleStrong)
  {
    if Listens(c, m) {
      match s
      case ClaudeHook(hook, isSubagent) => HookFires(c, m.(out := QUIET), hook, isSubagent, now);
      case Screen(shows, seqNo) => ScreenFires(c, m.(out := QUIET), shows, seqNo, now);
      case _ =>
    }
  }

  // ---- unknown, exited ------------------------------------------------------------

  lemma EntersUnknown(c: Config, m: Machine, s: Signal, now: real)
    requires m.status != Unknown
    ensures Reduce(c, m, s, now).status == Unknown <==> Listens(c, m) && s.Tick? && Silent(c, m, now)
  {
    HookOrScreenKnows(c, m.(out := QUIET), s, now);
  }

  lemma HookOrScreenKnows(c: Config, m: Machine, s: Signal, now: real)
    requires m.status != Unknown
    ensures s.ClaudeHook? ==> ClaudeHookStep(m, s.hook, s.isSubagent, now).status != Unknown
    ensures s.Screen? ==> ScreenStep(c, m, s.shows, s.contentSeq, now).status != Unknown
  {}

  /** Exit is entered on the process's exit, with its code and signal, and never left. */
  lemma EntersExited(c: Config, m: Machine, s: Signal, now: real)
    ensures var z := Reduce(c, m, s, now);
            if m.status.Exited? then z == m.(out := QUIET)
            else (z.status.Exited? <==> s.ProcessExit?) && (s.ProcessExit? ==> z.status == Exited(s.code, s.killedBy))
  {
    if !m.status.Exited? {
      HookOrScreenLives(c, m.(out := QUIET), s, now);
    }
  }

  lemma HookOrScreenLives(c: Config, m: Machine, s: Signal, now: real)
    requires !m.status.Exited?
    ensures s.ClaudeHook? ==> !ClaudeHookStep(m, s.hook, s.isSubagent, now).status.Exited?
    ensures s.Screen? ==> !ScreenStep(c, m, s.shows, s.contentSeq, now).status.Exited?
  {}

  // ---- the whole table ------------------------------------------------------------

  /** The next status, from the table of what enters which. */
  function NextStatus(c: Config, m: Machine, s: Signal, now: real): Status {
    if m.status.Exited? then m.status
    else if s.ProcessExit? then Exited(s.code, s.killedBy)
    else if Works(c, m, s, now) then Working
    else if c.authority == ProcessOnly then m.status
    else if Asks(m, s, now).Some? then NeedsInput(Asks(m, s, now).value.kind)
    else if BecomesIdle(c, m, s, now) then Idle
    else if s.Tick? && Silent(c, m, now) then Unknown
    else m.status
  }

  lemma TableIsRight(c: Config, m: Machine, s: Signal, now: real)
    requires Sound(c, m)
    ensures Reduce(c, m, s, now).status == NextStatus(c, m, s, now)
  {
    EntersExited(c, m, s, now);
    if !m.status.Exited? && !s.ProcessExit? {
      if Works(c, m, s, now) {
        WorkIsEntered(c, m, s, now);
      } else if c.authority != ProcessOnly {
        if Asks(m, s, now).Some? {
          QuestionIsAsked(c, m, s, now);
        } else {
          NoQuestionUnasked(c, m, s, now);
          if m.status != Working { EntersWorking(c, m, s, now); }
          if m.status != Idle { EntersIdle(c, m, s, now); }
          if m.status != Unknown { EntersUnknown(c, m, s, now); }
          NeverStartsAgain(c, m, s, now);
        }
      }
    }
  }

  lemma NeverStartsAgain(c: Config, m: Machine, s: Signal, now: real)
    ensures Reduce(c, m, s, now).status == Starting ==> m.status == Starting
  {}

  /** A startup is over exactly when a signal starts the session, ends a turn, shows work or
      idleness past grace, asks the user, or ends the process. */
  lemma LeavesStarting(c: Config, m: Machine, s: Signal, now: real)
    requires Sound(c, m) && m.status == Starting
    ensures Reduce(c, m, s, now).status != Starting <==>
              s.ProcessExit? || Works(c, m, s, now) ||
              (c.authority != ProcessOnly && (Asks(m, s, now).Some? || StartupEnds(c, m, s, now)))
  {
    TableIsRight(c, m, s, now);
  }

  // ---- what is left on record -----------------------------------------------------

  /** What a signal leaves on record of itself, beside the status. */
  ghost predicate Recorded(m: Machine, z: Machine, s: Signal, now: real) {
    && z.b.spawnedAt == m.b.spawnedAt
    && z.b.activeSubagents ==
         (if s.ClaudeHook? && s.hook.SubagentStart? then m.b.activeSubagents + {s.hook.id}
          else if s.ClaudeHook? && s.hook.SubagentStop? then m.b.activeSubagents - {s.hook.id}
          else m.b.activeSubagents)
    && z.b.respondingSince == (if s.Keystroke? && m.status.NeedsInput? then Some(now) else m.b.respondingSince)
    && z.b.skipActive == (if s.Screen? then s.shows.Skip? else m.b.skipActive)
    && z.b.lastScreenSeq == (if s.Screen? && !s.shows.Skip? then Some(s.contentSeq) else m.b.lastScreenSeq)
    && z.b.screenBelief == (if FreshScan(m, s) then Some(s.shows) else m.b.screenBelief)
  }

  lemma HookRecords(m: Machine, hook: Hook, isSubagent: bool, now: real)
    ensures Recorded(m, ClaudeHookStep(m, hook, isSubagent, now), ClaudeHook(hook, isSubagent), now)
    ensures ClaudeHookStep(m, hook, isSubagent, now).b.lastSignalAt == now
  {}

  lemma ScreenRecords(c: Config, m: Machine, shows: ScreenState, seqNo: nat, now: real)
    ensures Recorded(m, ScreenStep(c, m, shows, seqNo, now), Screen(shows, seqNo), now)
    ensures ScreenStep(c, m, shows, seqNo, now).b.lastSignalAt == now
  {}

  lemma SignalIsRecorded(c: Config, m: Machine, s: Signal, now: real)
    requires Listens(c, m)
    ensures Recorded(m, Reduce(c, m, s, now), s, now)
    ensures !s.ProcessExit? && !s.Tick? ==> Reduce(c, m, s, now).b.lastSignalAt == now
  {
    match s
    case ClaudeHook(hook, isSubagent) => HookRecords(m.(out := QUIET), hook, isSubagent, now);
    case Screen(shows, seqNo) => ScreenRecords(c, m.(out := QUIET), shows, seqNo, now);
    case _ =>
  }

  // ---- runs -----------------------------------------------------------------------

  /** The content number of the last scan that was not skipped. */
  function LastSeq(t: Trace, n: nat): Option<nat>
    requires n <= |t.run| < |t.at|
  {
    if n == 0 then t.at[0].b.lastScreenSeq
    else
      var s := t.run[n - 1].signal;
      if Listens(t.c, t.at[n - 1]) && s.Screen? && !s.shows.Skip? then Some(s.contentSeq) else LastSeq(t, n - 1)
  }

  lemma DeafKeepsRecord(c: Config, m: Machine, s: Signal, now: real)
    requires !Listens(c, m)
    ensures var z := Reduce(c, m, s, now);
            z.b.lastScreenSeq == m.b.lastScreenSeq && z.b.spawnedAt == m.b.spawnedAt
  {}

  lemma {:induction false} RunRecord(t: Trace, n: nat)
    requires IsRun(t) && n <= |t.run|
    ensures t.at[n].b.lastScreenSeq == LastSeq(t, n) && t.at[n].b.spawnedAt == t.at[0].b.spawnedAt
  {
    if n > 0 {
      RunRecord(t, n - 1);
      assert Step(t, n - 1);
      if Listens(t.c, t.at[n - 1]) {
        SignalIsRecorded(t.c, t.at[n - 1], t.run[n - 1].signal, t.run[n - 1].at);
      } else {
        DeafKeepsRecord(t.c, t.at[n - 1], t.run[n - 1].signal, t.run[n - 1].at);
      }
    }
  }

  /** Signal `k` is a scan with other content than the last, and shows `shows`. */
  predicate NewScan(t: Trace, k: nat, shows: ScreenState)
    requires k < |t.run| < |t.at|
  {
    var s := t.run[k].signal;
    s.Screen? && s.shows == shows && LastSeq(t, k) != Some(s.contentSeq)
  }

  /** Over every run: signal `k` puts a session to work exactly when it is the parent's work
      hook, a new scan of work that neither a held blocker nor the startup grace stops, or,
      without any authority but the process, its first output. */
  lemma WorkBegins(t: Trace, k: nat)
    requires IsRun(t) && !t.at[0].b.screenBlockerActive && k < |t.run|
    requires t.at[k].status != Working && !t.at[k].status.Exited?
    ensures var m, s, now := t.at[k], t.run[k].signal, t.run[k].at;
            t.at[k + 1].status == Working <==>
              if t.c.authority == ProcessOnly then m.status == Starting && s.PtyOutput?
              else ParentWork(s) ||
                   (NewScan(t, k, ShowsWorking)
                    && !(m.b.screenBlockerActive && Misses(t, k) + 1 < t.c.timing.blockerClearScans)
                    && !(m.status == Starting && now - t.at[0].b.spawnedAt < t.c.timing.startupGrace
                         && t.c.authority != ScreenPrimary))
  {
    SoundAt(t, k);
    MissesCounted(t, k);
    RunRecord(t, k);
    assert Step(t, k);
    EntersWorking(t.c, t.at[k], t.run[k].signal, t.run[k].at);
  }

  predicate HookAsks(s: Signal, kind: NeedsKind) {
    s.ClaudeHook? && !s.isSubagent &&
    match kind
    case Permission => s.hook.PermissionRequest? || (s.hook.Notification? && s.hook.kind == "permission_prompt")
    case Question => s.hook.Notification? && QuestionKind(s.hook.kind)
  }

  predicate QuestionKind(kind: string) {
    kind == "idle_prompt" || kind == "agent_needs_input" || kind == "elicitation_dialog"
  }

  /** Over every run: a session stops starting exactly when its process ends; or, on hooks and
      screens, when the agent starts, works, asks or ends a turn, when a new scan shows a
      question, or shows work or idleness once the grace is over, which an agent whose screen
      is its authority has not to wait for with work; or, without those, on first output. */
  lemma StartupIsOver(t: Trace, k: nat)
    requires IsRun(t) && k < |t.run| && t.at[k].status == Starting
    ensures var s := t.run[k].signal;
            var early := t.run[k].at - t.at[0].b.spawnedAt < t.c.timing.startupGrace;
            t.at[k + 1].status != Starting <==>
              s.ProcessExit? ||
              if t.c.authority == ProcessOnly then s.PtyOutput?
              else ParentWork(s) || HookAsks(s, Permission) || HookAsks(s, Question) || ParentStarts(s) || EndsTurn(s) ||
                   NewScan(t, k, ShowsPermission) || NewScan(t, k, ShowsQuestion) ||
                   (NewScan(t, k, ShowsWorking) && (!early || t.c.authority == ScreenPrimary)) ||
                   (NewScan(t, k, ShowsIdle) && !early)
  {
    SoundAt(t, k);
    RunRecord(t, k);
    assert Step(t, k);
    LeavesStarting(t.c, t.at[k], t.run[k].signal, t.run[k].at);
  }

  /** Over every run: signal `k` leaves the session asking for `kind`, where it was not, exactly
      when a hook of the parent asks for it or a new scan shows it. */
  lemma QuestionBegins(t: Trace, k: nat, kind: NeedsKind)
    requires IsRun(t) && k < |t.run|
    requires t.at[k].status != NeedsInput(kind) && !t.at[k].status.Exited?
    ensures t.at[k + 1].status == NeedsInput(kind) <==>
              t.c.authority != ProcessOnly &&
              (HookAsks(t.run[k].signal, kind) ||
               NewScan(t, k, if kind == Permission then ShowsPermission else ShowsQuestion))
  {
    RunRecord(t, k);
    assert Step(t, k);
    var m, s, now := t.at[k], t.run[k].signal, t.run[k].at;
    if Listens(t.c, m) && Asks(m, s, now).Some? {
      QuestionIsAsked(t.c, m, s, now);
    } else {
      NoQuestionUnasked(t.c, m, s, now);
    }
  }

  /** Over every run every status follows the table. */
  lemma RunFollowsTable(t: Trace, k: nat)
    requires IsRun(t) && k < |t.run|
    ensures t.at[k + 1].status == NextStatus(t.c, t.at[k], t.run[k].signal, t.run[k].at)
  {
    SoundAt(t, k);
    assert Step(t, k);
    TableIsRight(t.c, t.at[k], t.run[k].signal, t.run[k].at);
  }
}
