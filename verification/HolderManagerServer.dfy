/** The manager's own methods, each the critical section its lock guards. */
module HolderManagerServers {
  import opened Wrappers
  import opened HolderManagers

  /** The socket path and the pid file in the manager directory. */
  class ControlFiles {
    var socket: Option<Pid>
    var pidFile: Option<Pid>

    constructor ()
      ensures socket == None && pidFile == None
    {
      socket, pidFile := None, None;
    }
  }

  const PROTOCOL_VERSION := 1

  datatype LaunchSpec = LaunchSpec(id: SessionID, pathsMatch: bool)

  datatype Op = Ping | LaunchOp

  datatype Request = Request(version: int, op: Op, spec: Option<LaunchSpec>)

  datatype Refusal = InvalidRequest | ShuttingDown

  /** Why a request is refused before any state is looked at. */
  predicate Malformed(request: Request) {
    request.version != PROTOCOL_VERSION ||
    (request.op == LaunchOp &&
     (request.spec.None? || request.spec.value.id == "" || !request.spec.value.pathsMatch))
  }

  class HolderManagerServer {
    const pid: Pid
    const files: ControlFiles
    var activeSessionIDs: set<SessionID>
    var shuttingDown: bool
    var listening: bool

    /** Session workers handed to the queue but not begun, running, and ending. */
    ghost var starting: Option<SessionID>
    ghost var running: multiset<SessionID>
    ghost var finishing: multiset<SessionID>

    ghost function View(): Hosting
      reads this
    {
      Hosting(activeSessionIDs, shuttingDown, starting, running, finishing)
    }

    /** Binding takes the socket path over, whoever held it. */
    constructor (pid: Pid, files: ControlFiles)
      modifies files
      ensures this.pid == pid && this.files == files
      ensures View() == FRESH && OneEach(View()) && listening
      ensures files.socket == Some(pid) && files.pidFile == Some(pid)
    {
      this.pid, this.files := pid, files;
      activeSessionIDs, shuttingDown, listening := {}, false, true;
      starting, running, finishing := None, multiset{}, multiset{};
      new;
      files.socket := Some(pid);
      files.pidFile := Some(pid);
      FreshIsOneEach();
    }

    /** `servedElsewhere`: an older per-session holder answers on the session's socket. */
    method Handle(request: Request, servedElsewhere: bool) returns (r: Result<Pid, Refusal>)
      requires OneEach(View()) && starting == None
      modifies this`activeSessionIDs, this`starting, this`running
      ensures OneEach(View()) && starting == None
      ensures if Malformed(request) then r == Err(InvalidRequest) && View() == old(View())
              else if request.op == Ping || servedElsewhere then r == Ok(pid) && View() == old(View())
              else if shuttingDown then r == Err(ShuttingDown) && View() == old(View())
              else
                // The session is hosted from here on, by one worker more only if it was not.
                var id := request.spec.value.id;
                && r == Ok(pid)
                && activeSessionIDs == old(activeSessionIDs) + {id}
                && running == old(running) + (if id in old(activeSessionIDs) then multiset{} else multiset{id})
                && finishing == old(finishing) && shuttingDown == old(shuttingDown)
                && View() == Dispatch(Admit(old(View()), id).0)
    {
      if request.version != PROTOCOL_VERSION {
        return Err(InvalidRequest);
      }
      match request.op {
        case Ping =>
          return Ok(pid);
        case LaunchOp =>
          if request.spec.None? {
            return Err(InvalidRequest);
          }
          var id := request.spec.value.id;
          if id == "" || !request.spec.value.pathsMatch {
            return Err(InvalidRequest);
          }
          if servedElsewhere {
            return Ok(pid);
          }
          OneEachStep(View(), Launch(id));
          OneEachStep(HostAfter(View(), Launch(id)), Start);
          if shuttingDown {
            return Err(ShuttingDown);
          }
          if id in activeSessionIDs {
            return Ok(pid);
          }
          activeSessionIDs := activeSessionIDs + {id};
          running := running + multiset{id};
          return Ok(pid);
      }
    }

    /** The last thing a worker does; says whether the idle timer is to be armed. */
    method Finished(id: SessionID) returns (arm: bool)
      requires OneEach(View()) && id in finishing
      modifies this`activeSessionIDs, this`finishing
      ensures OneEach(View()) && View() == SessionFinished(old(View()), id)
      ensures activeSessionIDs == old(activeSessionIDs) - {id} && finishing == old(finishing) - multiset{id}
      ensures arm <==> activeSessionIDs == {}
    {
      OneEachStep(View(), HostStep.Finished(id));
      finishing := finishing - multiset{id};
      activeSessionIDs := activeSessionIDs - {id};
      arm := activeSessionIDs == {};
    }

    method StopIfIdle()
      requires OneEach(View())
      modifies this`shuttingDown, this`listening
      ensures OneEach(View()) && View() == HolderManagers.StopIfIdle(old(View()))
      ensures shuttingDown == (old(shuttingDown) || activeSessionIDs == {}) && activeSessionIDs == old(activeSessionIDs)
      ensures listening == (old(listening) && (old(shuttingDown) || activeSessionIDs != {}))
    {
      OneEachStep(View(), Idle);
      if shuttingDown || activeSessionIDs != {} {
        return;
      }
      shuttingDown := true;
      if listening {
        listening := false;
      }
    }

    /** Removes the control files only while the pid file still names this process. */
    method CleanupControlFiles()
      modifies files
      ensures old(files.pidFile) == Some(pid) ==> files.pidFile == None && files.socket == None
      ensures old(files.pidFile) != Some(pid) ==>
                files.pidFile == old(files.pidFile) && files.socket == old(files.socket)
    {
      if files.pidFile != Some(pid) {
        return;
      }
      files.socket := None;
      files.pidFile := None;
    }
  }
}
