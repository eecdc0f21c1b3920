/**
  Descriptor tables of processes and the system calls that change them. Dup2 and Close of a
  descriptor that is not open change nothing, as those calls then only report an error.
 */
module Descriptors {

  datatype Descriptor<E> = Descriptor(end: E, cloexec: bool)

  type Table<E> = map<nat, Descriptor<E>>

  // dup2 onto itself does nothing; otherwise the copy loses the close-on-exec flag.
  function Dup2Of<E>(t: Table<E>, from: nat, to: nat): Table<E> {
    if from !in t || from == to then t else t[to := Descriptor(t[from].end, false)]
  }

  function CloseOf<E>(t: Table<E>, fd: nat): Table<E> {
    t - {fd}
  }

  function ExecOf<E>(t: Table<E>): Table<E> {
    map fd | fd in t && !t[fd].cloexec :: t[fd]
  }

  predicate Holds<E(==)>(t: Table<E>, end: E) {
    exists fd :: fd in t && t[fd].end == end
  }

  // As exec leaves a descriptor that nobody touched.
  predicate Inherits<E(==)>(t: Table<E>, base: Table<E>, fd: nat) {
    (fd in t <==> fd in base && !base[fd].cloexec) && (fd in t ==> t[fd] == base[fd])
  }

  // What open and pipe2 hand out.
  predicate LowestFree<E>(t: Table<E>, fd: nat) {
    fd !in t && forall k: nat :: k < fd ==> k in t
  }

  class Process<E> {
    var table: Table<E>

    constructor (t: Table<E>)
      ensures table == t
    {
      table := t;
    }

    // open and pipe2 hand out the lowest descriptor that is not in use.
    method Open(end: E, cloexec: bool) returns (fd: nat)
      modifies this
      ensures LowestFree(old(table), fd)
      ensures table == old(table)[fd := Descriptor(end, cloexec)]
    {
      fd := 0;
      ghost var above := table.Keys;
      while fd in table
        invariant forall k: nat :: k < fd ==> k in table
        invariant forall k :: k in table && k >= fd ==> k in above
        decreases |above|
      {
        above := above - {fd};
        fd := fd + 1;
      }
      table := table[fd := Descriptor(end, cloexec)];
    }

    method Dup2(from: nat, to: nat)
      modifies this
      ensures table == Dup2Of(old(table), from, to)
    {
      if from in table && from != to {
        table := table[to := Descriptor(table[from].end, false)];
      }
    }

    method Close(fd: nat)
      modifies this
      ensures table == CloseOf(old(table), fd)
    {
      table := table - {fd};
    }

    method Exec()
      modifies this
      ensures table == ExecOf(old(table))
    {
      table := map fd | fd in table && !table[fd].cloexec :: table[fd];
    }
  }
}
