/** A process's table of file descriptors. */
module Descriptors {

  /** What a descriptor refers to: an end of the pipe at hand, or some other open file description. */
  datatype File = Other(id: nat) | ReadEnd | WriteEnd

  type Table = map<nat, File>

  function LowestFreeFrom(used: set<nat>, fd: nat): (lowest: nat)
    ensures fd <= lowest && lowest !in used
    ensures forall k :: fd <= k < lowest ==> k in used
    decreases |used|
  {
    if fd in used then
      assert used - {fd} < used;
      var lowest := LowestFreeFrom(used - {fd}, fd + 1);
      lowest
    else fd
  }

  /** The descriptor that open() and pipe() hand out next: the lowest that is not in use. */
  function LowestFree(fds: Table): (lowest: nat)
    ensures lowest !in fds
    ensures forall k: nat :: k < lowest ==> k in fds
  {
    LowestFreeFrom(fds.Keys, 0)
  }

  const EBADF := -1

  class Process {
    var fds: Table

    constructor (fds: Table)
      ensures this.fds == fds
    {
      this.fds := fds;
    }

    method Close(fd: nat) returns (result: int)
      modifies this
      ensures fds == old(fds) - {fd}
      ensures result == if fd in old(fds) then 0 else EBADF
    {
      result := if fd in fds then 0 else EBADF;
      fds := fds - {fd};
    }

    method Dup2(from: nat, to: nat) returns (result: int)
      modifies this
      ensures from in old(fds) ==> result == to && fds == old(fds)[to := old(fds)[from]]
      ensures from !in old(fds) ==> result == EBADF && fds == old(fds)
    {
      if from !in fds {
        return EBADF;
      }
      fds := fds[to := fds[from]];
      result := to;
    }

    method Open(file: File) returns (fd: nat)
      modifies this
      ensures fd == LowestFree(old(fds)) && fds == old(fds)[fd := file]
    {
      fd := LowestFree(fds);
      fds := fds[fd := file];
    }

    method Pipe() returns (reader: nat, writer: nat)
      modifies this
      ensures reader == LowestFree(old(fds))
      ensures writer == LowestFree(old(fds)[reader := ReadEnd])
      ensures fds == old(fds)[reader := ReadEnd][writer := WriteEnd]
    {
      reader := Open(ReadEnd);
      writer := Open(WriteEnd);
    }

    method Fork() returns (child: Process)
      ensures fresh(child) && child.fds == fds
    {
      child := new Process(fds);
    }
  }
}
