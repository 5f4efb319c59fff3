/**
 The status reducer: what each signal about an agent session does to the session's
 canonical status. Time is a parameter; texts inside a needs-input detail are left out.
*/
module Reducers {
  import opened Wrappers

  datatype NeedsKind = Permission | Question
  datatype Status = Starting | Idle | Working | NeedsInput(kind: NeedsKind)
                  | Exited(code: Option<int>, killedBy: Option<int>) | Unknown
  datatype Source = PermissionHook | NotificationHook | ScreenScrape
  datatype Detail = Detail(kind: NeedsKind, source: Source, occurredAt: real)

  datatype ScreenState = ShowsWorking | ShowsIdle | ShowsPermission | ShowsQuestion | Skip {
    function NeedsInputKind(): Option<NeedsKind> {
      match this
      case ShowsPermission => Some(Permission)
      case ShowsQuestion => Some(Question)
      case _ => None
    }
  }

  datatype Hook = SessionStart | UserPromptSubmit | PreToolUse | PermissionRequest | Notification(kind: string)
                | Stop | SubagentStart(id: string) | SubagentStop(id: string) | SessionEnd

  datatype Signal = ClaudeHook(hook: Hook, isSubagent: bool) | CodexTurnComplete
                  | Screen(shows: ScreenState, contentSeq: nat) | PtyOutput | Keystroke
                  | ProcessExit(code: Option<int>, killedBy: Option<int>) | Tick

  datatype Authority = HooksPrimary | ScreenPrimary | ProcessOnly

  datatype Timing = Timing(idleConfirmations: int, idleConfirmCap: real, startupGrace: real,
                           blockerClearScans: int, stalenessTimeout: real)

  datatype Config = Config(authority: Authority, timing: Timing)

  datatype Belief = Belief(
    spawnedAt: real, lastSignalAt: real, turnInFlight: bool, activeSubagents: set<string>,
    idleCandidateSince: Option<real>, idleConfirms: nat, idleStrong: bool, pendingTurnCompleted: bool,
    screenBlockerActive: bool, blockerMissScans: nat,
    screenBelief: Option<ScreenState>, lastScreenSeq: Option<nat>,
    skipActive: bool, respondingSince: Option<real>, pendingNeedsInput: Option<Detail>)

  datatype Outcome = Outcome(statusChange: Option<Status>, needsInput: Option<Detail>, turnCompleted: bool)

  const QUIET := Outcome(None, None, false)

  /** Status, belief, and the outcome gathered so far for the signal at hand. */
  datatype Machine = Machine(status: Status, b: Belief, out: Outcome)

  function Initial(spawnedAt: real): Machine {
    Machine(Starting,
            Belief(spawnedAt, spawnedAt, false, {}, None, 0, false, false, false, 0, None, None, false, None, None),
            QUIET)
  }

  function SetStatus(m: Machine, status: Status): Machine {
    if m.status == status then m else m.(status := status, out := m.out.(statusChange := Some(status)))
  }

  function NoCandidate(b: Belief): Belief {
    b.(idleCandidateSince := None, idleConfirms := 0, idleStrong := false, pendingTurnCompleted := false)
  }

  function GoWorking(m: Machine, now: real, clearBlocker: bool): Machine {
    var b := NoCandidate(m.b).(turnInFlight := true, lastSignalAt := now);
    var c := if clearBlocker then b.(screenBlockerActive := false, blockerMissScans := 0) else b;
    SetStatus(m.(b := c), Working)
  }

  function CommitIdle(m: Machine, now: real): Machine {
    var done := SetStatus(m, Idle);
    done.(b := NoCandidate(m.b).(turnInFlight := false, lastSignalAt := now),
          out := done.out.(turnCompleted := m.out.turnCompleted || m.b.pendingTurnCompleted))
  }

  function StrongIdle(m: Machine, now: real): Machine {
    if m.status == Starting then SetStatus(m, Idle)
    else if m.status != Working then m
    else
      var b := m.b.(idleStrong := true, pendingTurnCompleted := m.b.turnInFlight,
                    idleCandidateSince := Some(GetOr(m.b.idleCandidateSince, now)));
      if b.screenBelief == Some(ShowsIdle) then CommitIdle(m.(b := b.(idleConfirms := b.idleConfirms + 1)), now)
      else m.(b := b)
  }

  function ConfirmIdle(t: Timing, m: Machine, now: real): Machine {
    if m.status != Working then m
    else
      var since := GetOr(m.b.idleCandidateSince, now);
      var confirms := 1 + if m.b.idleCandidateSince.None? then 0 else m.b.idleConfirms;
      var next := m.(b := m.b.(idleCandidateSince := Some(since), idleConfirms := confirms));
      if confirms >= (if m.b.idleStrong then 1 else t.idleConfirmations) || now - since >= t.idleConfirmCap
      then CommitIdle(next, now) else next
  }

  function AskForInput(m: Machine, detail: Detail): Machine {
    SetStatus(m.(b := NoCandidate(m.b).(pendingNeedsInput := Some(detail)),
                 out := m.out.(needsInput := Some(detail))),
              NeedsInput(detail.kind))
  }

  predicate AsksQuestion(kind: string) {
    kind == "idle_prompt" || kind == "agent_needs_input" || kind == "elicitation_dialog"
  }

  function ClaudeHookStep(m0: Machine, hook: Hook, isSubagent: bool, now: real): Machine {
    var m := m0.(b := m0.b.(lastSignalAt := now));
    match hook
    case SubagentStart(id) => m.(b := m.b.(activeSubagents := m.b.activeSubagents + {id}))
    case SubagentStop(id) => m.(b := m.b.(activeSubagents := m.b.activeSubagents - {id}))
    case _ =>
      if isSubagent then m
      else
        match hook
        case SessionStart => if m.status == Starting then SetStatus(m, Idle) else m
        case UserPromptSubmit => GoWorking(m, now, true)
        case PreToolUse => GoWorking(m, now, true)
        case PermissionRequest => AskForInput(m, Detail(Permission, PermissionHook, now))
        case Notification(kind) =>
          if kind == "permission_prompt" then AskForInput(m, Detail(Permission, NotificationHook, now))
          else if AsksQuestion(kind) then AskForInput(m, Detail(Question, NotificationHook, now))
          else if kind == "agent_completed" then StrongIdle(m, now)
          else m
        case Stop => StrongIdle(m, now)
        case _ => m
  }

  function NonBlockerScreen(t: Timing, m: Machine, shows: ScreenState, now: real, cleared: bool): Machine {
    match shows
    case ShowsWorking => GoWorking(m, now, false)
    case ShowsIdle =>
      if m.status == Working then ConfirmIdle(t, m, now)
      else if m.status == Starting then SetStatus(m, Idle)
      else if cleared && m.status.NeedsInput? then SetStatus(m.(b := NoCandidate(m.b)), Idle)
      else m
    case _ => m
  }

  /** A scan with new content. A visible blocker beats everything; one already held is
      released only after enough scans without it. */
  function FreshScreen(c: Config, m: Machine, shows: ScreenState, now: real): Machine {
    var kind := shows.NeedsInputKind();
    if kind.Some? then
      AskForInput(m.(b := m.b.(screenBlockerActive := true, blockerMissScans := 0)), Detail(kind.value, ScreenScrape, now))
    else if m.b.screenBlockerActive then
      if m.b.blockerMissScans + 1 < c.timing.blockerClearScans
      then m.(b := m.b.(blockerMissScans := m.b.blockerMissScans + 1))
      else NonBlockerScreen(c.timing, m.(b := m.b.(screenBlockerActive := false, blockerMissScans := 0)), shows, now, true)
    else if m.status == Starting && now - m.b.spawnedAt < c.timing.startupGrace
            && !(c.authority == ScreenPrimary && shows == ShowsWorking) then m
    else NonBlockerScreen(c.timing, m, shows, now, false)
  }

  function ScreenStep(c: Config, m: Machine, shows: ScreenState, seqNo: nat, now: real): Machine {
    var b := m.b.(lastSignalAt := now, skipActive := shows == Skip);
    if shows == Skip || b.lastScreenSeq == Some(seqNo) then m.(b := b)
    else FreshScreen(c, m.(b := b.(lastScreenSeq := Some(seqNo), screenBelief := Some(shows))), shows, now)
  }

  predicate Stale(c: Config, m: Machine, now: real) {
    m.status == Working && now - m.b.lastSignalAt > c.timing.stalenessTimeout
  }

  function TickStep(c: Config, m: Machine, now: real): Machine {
    if Stale(c, m, now) then SetStatus(m, Unknown)
    else if m.status == Working && m.b.idleStrong && m.b.idleCandidateSince.Some?
    then CommitIdle(m.(b := m.b.(idleConfirms := m.b.idleConfirms + 1)), now)
    else m
  }

  function Reduce(c: Config, before: Machine, signal: Signal, now: real): Machine {
    var m := before.(out := QUIET);
    if m.status.Exited? then m
    else if signal.ProcessExit? then SetStatus(m, Exited(signal.code, signal.killedBy))
    else if c.authority == ProcessOnly then
      if !signal.PtyOutput? then m
      else
        var n := if m.status == Starting then SetStatus(m.(b := m.b.(turnInFlight := true)), Working) else m;
        n.(b := n.b.(lastSignalAt := now))
    else
      match signal
      case PtyOutput => m.(b := m.b.(lastSignalAt := now))
      case Keystroke =>
        m.(b := m.b.(lastSignalAt := now,
                     respondingSince := if m.status.NeedsInput? then Some(now) else m.b.respondingSince))
      case ClaudeHook(hook, isSubagent) => ClaudeHookStep(m, hook, isSubagent, now)
      case CodexTurnComplete => StrongIdle(m.(b := m.b.(lastSignalAt := now)), now)
      case Screen(shows, seqNo) => ScreenStep(c, m, shows, seqNo, now)
      case Tick => TickStep(c, m, now)
      case _ => m
  }
}
