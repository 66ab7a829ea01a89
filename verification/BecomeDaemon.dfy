/** becomeDaemon(): two forks with a new session in between, then a clean set of descriptors. */
module BecomeDaemon {
  import opened Descriptors

  const BD_NO_CHDIR: bv32 := 0x1
  const BD_NO_CLOSE_FILES: bv32 := 0x2
  const BD_NO_REOPEN_STD_FDS: bv32 := 0x4
  const BD_NO_UMASK0: bv32 := 0x8

  const BD_MAX_CLOSE: nat := 8192

  const STDIN_FILENO: nat := 0
  const STDOUT_FILENO: nat := 1
  const STDERR_FILENO: nat := 2

  predicate Set(flags: bv32, flag: bv32) {
    flags & flag != 0
  }

  datatype Option<T> = None | Some(value: T)

  /**
   What the system does: the process IDs that the two forks give, if they succeed; the number of
   descriptors a process may have, and whether sysconf() can tell; whether chdir("/") works; and the
   description that an open of /dev/null gives, if it succeeds.
   */
  datatype System = System(
    fork1: Option<nat>,
    fork2: Option<nat>,
    limit: nat,
    limitKnown: bool,
    rootWorks: bool,
    devNull: Option<File>)

  /** A process ID that fork() may give: no process, process group or session has it. */
  predicate FreshIds(system: System, inUse: set<nat>) {
    && (system.fork1.Some? ==> system.fork1.value !in inUse)
    && (system.fork2.Some? ==> system.fork2.value !in inUse && system.fork2 != system.fork1)
  }

  class Task {
    var pid: nat
    var pgid: nat
    var sid: nat
    var terminal: bool
    var mask: nat
    var directory: string
    const files: Process

    constructor (pid: nat, pgid: nat, sid: nat, terminal: bool, mask: nat, directory: string, files: Process)
      ensures this.pid == pid && this.pgid == pgid && this.sid == sid && this.terminal == terminal
      ensures this.mask == mask && this.directory == directory && this.files == files
    {
      this.pid, this.pgid, this.sid, this.terminal := pid, pgid, sid, terminal;
      this.mask, this.directory, this.files := mask, directory, files;
    }

    /** The child has everything of its parent's but the process ID; its descriptors are copies. */
    method Fork(child: nat) returns (task: Task)
      ensures fresh(task) && fresh(task.files)
      ensures task.pid == child && task.pgid == pgid && task.sid == sid && task.terminal == terminal
      ensures task.mask == mask && task.directory == directory && task.files.fds == files.fds
    {
      var copies := files.Fork();
      task := new Task(child, pgid, sid, terminal, mask, directory, copies);
    }

    /** Fails for the leader of a process group; others come to lead a session with no terminal. */
    method Setsid() returns (result: int)
      modifies this`pgid, this`sid, this`terminal
      ensures old(pid == pgid) ==>
                result == -1 && pgid == old(pgid) && sid == old(sid) && terminal == old(terminal)
      ensures old(pid != pgid) ==> result == pid && pgid == pid && sid == pid && !terminal
    {
      if pid == pgid {
        return -1;
      }
      pgid, sid, terminal := pid, pid, false;
      result := pid;
    }
  }

  /** The descriptors that a loop of close() from 0 up to a bound leaves. */
  function From(fds: Table, bound: nat): (rest: Table)
    ensures forall fd :: fd in rest <==> fd in fds && bound <= fd
    ensures forall fd :: fd in rest ==> rest[fd] == fds[fd]
  {
    map fd | fd in fds && bound <= fd :: fds[fd]
  }

  /** The number of descriptors that are closed. */
  function MaxFd(system: System): nat {
    if system.limitKnown then system.limit else BD_MAX_CLOSE
  }

  /** The table of a daemon whose caller had `fds`. */
  function DaemonFds(fds: Table, flags: bv32, system: System): Table
    requires Set(flags, BD_NO_REOPEN_STD_FDS) || system.devNull.Some?
  {
    var kept := if Set(flags, BD_NO_CLOSE_FILES) then fds else From(fds, MaxFd(system));
    if Set(flags, BD_NO_REOPEN_STD_FDS) then kept
    else
      var file := system.devNull.value;
      kept[STDIN_FILENO := file][STDOUT_FILENO := file][STDERR_FILENO := file]
  }

  /** for (fd = 0; fd < maxfd; fd++) close(fd); */
  method CloseAll(files: Process, maxfd: nat)
    modifies files
    ensures files.fds == From(old(files.fds), maxfd)
  {
    for fd := 0 to maxfd
      invariant files.fds == From(old(files.fds), fd)
    {
      var _ := files.Close(fd);
    }
  }

  /** Reopens the standard descriptors on /dev/null; false if a call fails or gives the wrong number. */
  method ReopenStdFds(files: Process, system: System) returns (ok: bool)
    modifies files
    ensures ok <==> system.devNull.Some? && 3 <= system.limit
    ensures ok ==> var file := system.devNull.value;
                   files.fds == old(files.fds)[STDIN_FILENO := file][STDOUT_FILENO := file][STDERR_FILENO := file]
  {
    var _ := files.Close(STDIN_FILENO);
    if system.devNull.None? || system.limit <= LowestFree(files.fds) {
      assert LowestFree(files.fds) == STDIN_FILENO;
      return false;
    }
    var fd := files.Open(system.devNull.value);
    if fd != STDIN_FILENO {
      return false;
    }
    var result := -1;
    if STDOUT_FILENO < system.limit {
      result := files.Dup2(STDIN_FILENO, STDOUT_FILENO);
    }
    if result != STDOUT_FILENO {
      return false;
    }
    result := -1;
    if STDERR_FILENO < system.limit {
      result := files.Dup2(STDIN_FILENO, STDERR_FILENO);
    }
    ok := result == STDERR_FILENO;
  }

  /**
   The daemon's descriptors, whatever its caller had open: the standard ones share one description of
   /dev/null unless that is disabled; of the others, those below the bound are all closed unless that
   is disabled, and the rest are as they were.
   */
  lemma DaemonFdsAre(fds: Table, flags: bv32, system: System, fd: nat)
    requires flags & 0x4 != 0 || system.devNull.Some?
    ensures var daemon := DaemonFds(fds, flags, system);
            var bound := if system.limitKnown then system.limit else 8192;
            if flags & 0x4 == 0 && fd <= 2 then
              fd in daemon && daemon[fd] == system.devNull.value
            else if flags & 0x2 == 0 && fd < bound then
              fd !in daemon
            else
              (fd in daemon <==> fd in fds) && (fd in fds ==> daemon[fd] == fds[fd])
  {
    var _ := From(fds, MaxFd(system));
  }

  /**
   `self` is the process in which the call returns, `exited` the processes that ended on the way.
   It returns 0 exactly when the system calls it depends on work. setsid() is not among them: it is
   called by a child, which leads no process group, even if the caller does.
   */
  method Daemonize(caller: Task, flags: bv32, system: System)
      returns (result: int, self: Task, exited: set<nat>)
    requires FreshIds(system, {caller.pid, caller.pgid, caller.sid})
    ensures result == 0 || result == -1
    ensures result == 0 <==>
              && system.fork1.Some? && system.fork2.Some?
              && (flags & 0x4 != 0 || (system.devNull.Some? && 3 <= system.limit))
    ensures result == 0 ==>
              && self.sid == self.pgid == system.fork1.value
              && self.pid != self.sid && !self.terminal
              && self.mask == (if flags & 0x8 != 0 then caller.mask else 0)
              && self.directory == (if flags & 0x1 != 0 || !system.rootWorks then caller.directory else "/")
              && self.files.fds == DaemonFds(caller.files.fds, flags, system)
    ensures result == 0 ==>
              var bound := if system.limitKnown then system.limit else 8192;
              forall fd: nat ::
                if flags & 0x4 == 0 && fd <= 2 then
                  fd in self.files.fds && self.files.fds[fd] == system.devNull.value
                else if flags & 0x2 == 0 && fd < bound then
                  fd !in self.files.fds
                else
                  && (fd in self.files.fds <==> fd in caller.files.fds)
                  && (fd in caller.files.fds ==> self.files.fds[fd] == caller.files.fds[fd])
    ensures system.fork1.Some? && system.fork2.Some? ==>
              self.pid == system.fork2.value && exited == {caller.pid, system.fork1.value}
    ensures system.fork1.None? ==> self == caller && exited == {}
    ensures system.fork1.Some? && system.fork2.None? ==>
              self.pid == self.sid == system.fork1.value && exited == {caller.pid}
  {
    if system.fork1.None? {
      return -1, caller, {};
    }
    var child := caller.Fork(system.fork1.value);
    exited := {caller.pid};
    var leader := child.Setsid();
    if leader == -1 {
      return -1, child, exited;
    }
    if system.fork2.None? {
      return -1, child, exited;
    }
    self := child.Fork(system.fork2.value);
    exited := exited + {child.pid};
    if !Set(flags, BD_NO_UMASK0) {
      self.mask := 0;
    }
    if !Set(flags, BD_NO_CHDIR) && system.rootWorks {
      self.directory := "/";
    }
    if !Set(flags, BD_NO_CLOSE_FILES) {
      CloseAll(self.files, MaxFd(system));
    }
    if !Set(flags, BD_NO_REOPEN_STD_FDS) {
      var ok := ReopenStdFds(self.files, system);
      if !ok {
        return -1, self, exited;
      }
    }
    forall fd: nat {
      DaemonFdsAre(caller.files.fds, flags, system, fd);
    }
    result := 0;
  }
}
