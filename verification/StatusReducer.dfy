/** The reducer as the daemon holds it: one mutable object per session. */
module StatusReducers {
  import opened Wrappers
  import opened Reducers

  class StatusReducer {
    var status: Status
    const authority: Authority
    var timing: Timing
    var b: Belief

    function Config(): Config
      reads this
    {
      Reducers.Config.Config(authority, timing)
    }

    function View(out: Outcome): Machine
      reads this
    {
      Machine(status, b, out)
    }

    constructor (authority: Authority, timing: Timing, spawnedAt: real)
      ensures View(QUIET) == Initial(spawnedAt)
      ensures this.authority == authority && this.timing == timing
    {
      this.authority, this.timing := authority, timing;
      var initial := Initial(spawnedAt);
      status, b := Starting, initial.b;
    }

    method Reduce(signal: Signal, now: real) returns (out: Outcome)
      modifies this`status, this`b
      ensures View(out) == Reducers.Reduce(Config(), old(View(QUIET)), signal, now)
    {
      out := QUIET;
      if status.Exited? {
        return;
      }
      if signal.ProcessExit? {
        out := SetStatus(Exited(signal.code, signal.killedBy), out);
        return;
      }
      if authority == ProcessOnly {
        if signal.PtyOutput? {
          if status == Starting {
            b := b.(turnInFlight := true);
            out := SetStatus(Working, out);
          }
          b := b.(lastSignalAt := now);
        }
        return;
      }
      match signal {
        case PtyOutput =>
          b := b.(lastSignalAt := now);
        case Keystroke =>
          b := b.(lastSignalAt := now);
          if status.NeedsInput? {
            b := b.(respondingSince := Some(now));
          }
        case ClaudeHook(hook, isSubagent) =>
          out := HandleClaudeHook(hook, isSubagent, now, out);
        case CodexTurnComplete =>
          b := b.(lastSignalAt := now);
          out := HandleStrongIdle(now, out);
        case Screen(shows, contentSeq) =>
          out := HandleScreen(shows, contentSeq, now, out);
        case Tick =>
          out := HandleTick(now, out);
        case ProcessExit(_, _) =>
      }
    }

    method SetStatus(next: Status, before: Outcome) returns (out: Outcome)
      modifies this`status
      ensures View(out) == Reducers.SetStatus(old(View(before)), next)
    {
      out := before;
      if status != next {
        status := next;
        out := out.(statusChange := Some(next));
      }
    }

    method CancelIdleCandidacy()
      modifies this`b
      ensures b == NoCandidate(old(b))
    {
      b := b.(idleCandidateSince := None);
      b := b.(idleConfirms := 0);
      b := b.(idleStrong := false);
      b := b.(pendingTurnCompleted := false);
    }

    method GoWorking(now: real, clearScreenBlocker: bool, before: Outcome) returns (out: Outcome)
      modifies this`status, this`b
      ensures View(out) == Reducers.GoWorking(old(View(before)), now, clearScreenBlocker)
    {
      CancelIdleCandidacy();
      if clearScreenBlocker {
        b := b.(screenBlockerActive := false, blockerMissScans := 0);
      }
      b := b.(turnInFlight := true);
      b := b.(lastSignalAt := now);
      out := SetStatus(Working, before);
    }

    method HandleStrongIdle(now: real, before: Outcome) returns (out: Outcome)
      modifies this`status, this`b
      ensures View(out) == StrongIdle(old(View(before)), now)
    {
      out := before;
      if status == Starting {
        out := SetStatus(Idle, out);
        return;
      }
      if status != Working {
        return;
      }
      b := b.(idleStrong := true);
      b := b.(pendingTurnCompleted := b.turnInFlight);
      if b.idleCandidateSince.None? {
        b := b.(idleCandidateSince := Some(now));
      }
      if b.screenBelief == Some(ShowsIdle) {
        b := b.(idleConfirms := b.idleConfirms + 1);
        out := CommitIdle(now, out);
      }
    }

    method ConfirmIdle(now: real, before: Outcome) returns (out: Outcome)
      modifies this`status, this`b
      ensures View(out) == Reducers.ConfirmIdle(timing, old(View(before)), now)
    {
      out := before;
      if status != Working {
        return;
      }
      if b.idleCandidateSince.None? {
        b := b.(idleCandidateSince := Some(now));
        b := b.(idleConfirms := 0);
      }
      b := b.(idleConfirms := b.idleConfirms + 1);
      var needed := if b.idleStrong then 1 else timing.idleConfirmations;
      var elapsed := now - b.idleCandidateSince.value;
      if b.idleConfirms >= needed || (elapsed >= timing.idleConfirmCap && b.idleConfirms >= 1) {
        out := CommitIdle(now, out);
      }
    }

    method CommitIdle(now: real, before: Outcome) returns (out: Outcome)
      modifies this`status, this`b
      ensures View(out) == Reducers.CommitIdle(old(View(before)), now)
    {
      var fire := b.pendingTurnCompleted;
      out := SetStatus(Idle, before);
      b := b.(turnInFlight := false);
      if fire {
        out := out.(turnCompleted := true);
      }
      CancelIdleCandidacy();
      b := b.(lastSignalAt := now);
    }

    method NeedInput(detail: Detail, before: Outcome) returns (out: Outcome)
      modifies this`status, this`b
      ensures View(out) == AskForInput(old(View(before)), detail)
    {
      b := b.(pendingNeedsInput := Some(detail));
      out := before.(needsInput := Some(detail));
      CancelIdleCandidacy();
      out := SetStatus(NeedsInput(detail.kind), out);
    }

    method HandleClaudeHook(hook: Hook, isSubagent: bool, now: real, before: Outcome) returns (out: Outcome)
      modifies this`status, this`b
      ensures View(out) == ClaudeHookStep(old(View(before)), hook, isSubagent, now)
    {
      out := before;
      b := b.(lastSignalAt := now);
      match hook {
        case SubagentStart(id) =>
          b := b.(activeSubagents := b.activeSubagents + {id});
          return;
        case SubagentStop(id) =>
          b := b.(activeSubagents := b.activeSubagents - {id});
          return;
        case _ =>
      }
      if isSubagent {
        return;
      }
      match hook {
        case SessionStart =>
          if status == Starting {
            out := SetStatus(Idle, out);
          }
        case UserPromptSubmit =>
          b := b.(turnInFlight := true);
          out := GoWorking(now, true, out);
        case PreToolUse =>
          out := GoWorking(now, true, out);
        case PermissionRequest =>
          out := NeedInput(Detail(Permission, PermissionHook, now), out);
        case Notification(kind) =>
          out := HandleNotification(kind, now, out);
        case Stop =>
          out := HandleStrongIdle(now, out);
        case _ =>
      }
    }

    method HandleNotification(kind: string, now: real, before: Outcome) returns (out: Outcome)
      modifies this`status, this`b
      ensures old(b).lastSignalAt == now ==>
                View(out) == ClaudeHookStep(old(View(before)), Notification(kind), false, now)
    {
      out := before;
      if kind == "permission_prompt" {
        out := NeedInput(Detail(Permission, NotificationHook, now), out);
      } else if kind == "idle_prompt" || kind == "agent_needs_input" || kind == "elicitation_dialog" {
        out := NeedInput(Detail(Question, NotificationHook, now), out);
      } else if kind == "agent_completed" {
        out := HandleStrongIdle(now, out);
      }
    }

    method HandleScreen(shows: ScreenState, contentSeq: nat, now: real, before: Outcome) returns (out: Outcome)
      modifies this`status, this`b
      ensures View(out) == ScreenStep(Config(), old(View(before)), shows, contentSeq, now)
    {
      out := before;
      b := b.(lastSignalAt := now);
      if shows == Skip {
        b := b.(skipActive := true);
        return;
      }
      b := b.(skipActive := false);
      if b.lastScreenSeq == Some(contentSeq) {
        return;
      }
      b := b.(lastScreenSeq := Some(contentSeq));
      b := b.(screenBelief := Some(shows));
      out := HandleFreshScreen(shows, now, out);
    }

    method HandleFreshScreen(shows: ScreenState, now: real, before: Outcome) returns (out: Outcome)
      modifies this`status, this`b
      ensures View(out) == FreshScreen(Config(), old(View(before)), shows, now)
    {
      out := before;
      var kind := shows.NeedsInputKind();
      if kind.Some? {
        b := b.(screenBlockerActive := true, blockerMissScans := 0);
        out := NeedInput(Detail(kind.value, ScreenScrape, now), out);
        return;
      }
      if b.screenBlockerActive {
        b := b.(blockerMissScans := b.blockerMissScans + 1);
        if b.blockerMissScans < timing.blockerClearScans {
          return;
        }
        b := b.(screenBlockerActive := false, blockerMissScans := 0);
        out := ApplyNonBlockerScreen(shows, now, true, out);
        return;
      }
      if status == Starting {
        var graceActive := now - b.spawnedAt < timing.startupGrace;
        var definitive := authority == ScreenPrimary && shows == ShowsWorking;
        if graceActive && !definitive {
          return;
        }
      }
      out := ApplyNonBlockerScreen(shows, now, false, out);
    }

    method ApplyNonBlockerScreen(shows: ScreenState, now: real, clearedBlocker: bool, before: Outcome)
      returns (out: Outcome)
      modifies this`status, this`b
      ensures View(out) == NonBlockerScreen(timing, old(View(before)), shows, now, clearedBlocker)
    {
      out := before;
      match shows {
        case ShowsWorking =>
          out := GoWorking(now, false, out);
        case ShowsIdle =>
          if status == Working {
            out := ConfirmIdle(now, out);
          } else if status == Starting {
            out := SetStatus(Idle, out);
          } else if clearedBlocker && status.NeedsInput? {
            CancelIdleCandidacy();
            out := SetStatus(Idle, out);
          }
        case _ =>
      }
    }

    method HandleTick(now: real, before: Outcome) returns (out: Outcome)
      modifies this`status, this`b
      ensures View(out) == TickStep(Config(), old(View(before)), now)
    {
      out := before;
      if status == Working && now - b.lastSignalAt > timing.stalenessTimeout {
        out := SetStatus(Unknown, out);
        return;
      }
      if status == Working && b.idleStrong && b.idleCandidateSince.Some? {
        b := b.(idleConfirms := b.idleConfirms + 1);
        out := CommitIdle(now, out);
      }
    }
  }
}
