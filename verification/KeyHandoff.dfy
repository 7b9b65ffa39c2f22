/**
 The one-shot AccessKey handoff (src/k_slide/access_key_handoff.py) over a descriptor table: whatever system call
 fails, no descriptor leaks, and the key never outlives the object's use.
 */
module KeyHandoff {
  import opened Wrappers

  const HANDOFF_FD := 198

  type Byte = bv8

  datatype End = Reads(pipe: nat) | Writes(pipe: nat) | Elsewhere

  /** The descriptors of the process, and what has been written to each pipe. Any call but close may fail. */
  class Kernel {
    var table: map<int, End>
    var pipes: seq<seq<Byte>>

    constructor (open: map<int, End>)
      ensures table == open && pipes == []
    {
      table, pipes := open, [];
    }

    /** A number that is not in use; which one is up to the system. */
    method Free(avoid: set<int>) returns (fd: int)
      ensures fd !in table && fd !in avoid
    {
      fd := *;
      var used := table.Keys + avoid;
      if fd in used {
        fd := 0;
        var rest := used;
        while fd in rest
          invariant fd >= 0 && rest <= used
          invariant forall x | x in used && x !in rest :: x < fd
          decreases |rest|
        {
          rest := rest - {fd};
          fd := fd + 1;
        }
      }
    }

    method Pipe() returns (result: Option<(int, int)>)
      modifies this
      ensures result.None? ==> table == old(table) && pipes == old(pipes)
      ensures result.Some? ==>
                var (r, w) := result.value;
                && r != w && r !in old(table) && w !in old(table)
                && table == old(table)[r := Reads(|old(pipes)|)][w := Writes(|old(pipes)|)]
                && pipes == old(pipes) + [[]]
    {
      var fails: bool := *;
      if fails {
        return None;
      }
      var r := Free({});
      var w := Free({r});
      table := table[r := Reads(|pipes|)][w := Writes(|pipes|)];
      pipes := pipes + [[]];
      result := Some((r, w));
    }

    method Dup(fd: int) returns (result: Option<int>)
      modifies `table
      ensures result.None? ==> table == old(table)
      ensures result.Some? ==> fd in old(table) && result.value !in old(table)
                               && table == old(table)[result.value := old(table)[fd]]
    {
      var fails: bool := *;
      if fails || fd !in table {
        return None;
      }
      var copy := Free({});
      table := table[copy := table[fd]];
      result := Some(copy);
    }

    method Dup2(fd: int, target: int) returns (ok: bool)
      modifies `table
      ensures !ok ==> table == old(table)
      ensures ok ==> fd in old(table) && table == old(table)[target := old(table)[fd]]
    {
      ok := *;
      ok := ok && fd in table;
      if ok {
        table := table[target := table[fd]];
      }
    }

    method SetInheritable(fd: int) returns (ok: bool)
    {
      ok := *;
    }

    method Close(fd: int)
      modifies `table
      ensures table == old(table) - {fd}
    {
      table := table - {fd};
    }

    /** A write takes any number of the bytes, or fails. */
    method Write(fd: int, data: seq<Byte>) returns (written: Option<nat>)
      modifies `pipes
      ensures written.None? ==> pipes == old(pipes)
      ensures written.Some? ==>
                && written.value <= |data| && fd in table && table[fd].Writes? && table[fd].pipe < |old(pipes)|
                && pipes == old(pipes)[table[fd].pipe := old(pipes)[table[fd].pipe] + data[..written.value]]
    {
      var fails: bool := *;
      if fails || fd !in table || !table[fd].Writes? || table[fd].pipe >= |pipes| {
        return None;
      }
      var count: int := *;
      count := if 0 <= count <= |data| then count else |data|;
      var pipe := table[fd].pipe;
      pipes := pipes[pipe := pipes[pipe] + data[..count]];
      written := Some(count);
    }
  }

  class AccessKeyHandoff {
    const os: Kernel
    var writeFd: Option<int>
    var childFd: Option<int>
    var key: array<Byte>
    var size: nat

    /** The buffer holds `size` bytes of key, and zeros elsewhere. */
    ghost predicate Valid()
      reads this, key
    {
      size <= key.Length && forall i | size <= i < key.Length :: key[i] == 0
    }

    ghost function Secret(): seq<Byte>
      reads this, key
      requires Valid()
    {
      key[..size]
    }

    /** The write end, if there is one, is that of a pipe; without one no key is kept. */
    ghost predicate Ready()
      reads this, key, os
    {
      && Valid() && (writeFd.None? ==> size == 0)
      && (writeFd.Some? ==> writeFd.value in os.table && os.table[writeFd.value].Writes?
                            && os.table[writeFd.value].pipe < |os.pipes|)
    }

    /** Nothing open, no key in memory. */
    ghost predicate Spent()
      reads this, key
    {
      Valid() && writeFd.None? && size == 0
    }

    constructor (kernel: Kernel)
      ensures os == kernel && Spent() && childFd.None? && fresh(key)
    {
      os := kernel;
      writeFd, childFd, size := None, None, 0;
      key := new Byte[0];
    }

    method ClearAccessKey()
      requires Valid()
      modifies this`size, key
      ensures Valid() && size == 0 && forall i | 0 <= i < key.Length :: key[i] == 0
    {
      for i := 0 to size
        invariant size <= key.Length
        invariant forall j | 0 <= j < i :: key[j] == 0
        invariant forall j | size <= j < key.Length :: key[j] == 0
        modifies key
      {
        key[i] := 0;
      }
      size := 0;
    }

    method CloseWriteFd()
      modifies this`writeFd, os`table
      ensures writeFd.None?
      ensures os.table == if old(writeFd).Some? then old(os.table) - {old(writeFd).value} else old(os.table)
    {
      if writeFd.Some? {
        os.Close(writeFd.value);
        writeFd := None;
      }
    }

    method Close()
      requires Valid()
      modifies this`writeFd, this`childFd, this`size, key, os`table
      ensures Spent() && childFd.None? && forall i | 0 <= i < key.Length :: key[i] == 0
      ensures os.table == old(os.table) - Held(old(writeFd)) - Held(old(childFd))
    {
      CloseWriteFd();
      if childFd.Some? {
        os.Close(childFd.value);
        childFd := None;
      }
      ClearAccessKey();
    }

    /** What a successful handoff adds: the reserved descriptor as the read end, another one as the write end. */
    ghost predicate Established(before: map<int, End>)
      reads this, os
    {
      && writeFd.Some? && writeFd.value != HANDOFF_FD && childFd == Some(HANDOFF_FD)
      && writeFd.value !in before && HANDOFF_FD !in before
      && exists pipe: nat ::
           pipe < |os.pipes| && os.table == before[HANDOFF_FD := Reads(pipe)][writeFd.value := Writes(pipe)]
    }

    /**
     The rest of `__init__`, on a new object: either no key is given and nothing happens, or everything is set up, or
     an error is raised and the descriptors are as before.
     */
    method Establish(accessKey: Option<string>, encode: string -> Option<seq<Byte>>) returns (ok: bool)
      requires Spent() && childFd.None?
      modifies this, os, key
      ensures Ready() && (key == old(key) || fresh(key))
      ensures os.pipes == old(os.pipes) || os.pipes == old(os.pipes) + [[]]
      ensures !ok ==> os.table == old(os.table) && Spent() && childFd.None?
      ensures accessKey.None? || accessKey.value == "" ==> ok && os.table == old(os.table) && Spent() && childFd.None?
      ensures ok && accessKey.Some? && accessKey.value != "" ==>
                && encode(accessKey.value).Some? && Secret() == encode(accessKey.value).value
                && Established(old(os.table))
                && os.table[writeFd.value].pipe == |old(os.pipes)| && os.pipes == old(os.pipes) + [[]]
    {
      if accessKey.None? || accessKey.value == "" {
        return true;
      }
      if HANDOFF_FD in os.table {
        return false;
      }
      ok := Connect();
      if !ok {
        return;
      }
      var encoded := encode(accessKey.value);
      if encoded.None? {
        Close();
        return false;
      }
      Store(encoded.value);
    }

    /** `bytearray(...)`: a buffer of its own. */
    method Store(bytes: seq<Byte>)
      modifies this`key, this`size
      ensures Valid() && fresh(key) && Secret() == bytes
    {
      key := new Byte[|bytes|](i requires 0 <= i < |bytes| => bytes[i]);
      size := |bytes|;
    }

    /** Opening the pipe and moving its ends; on a failure everything opened on the way is closed again. */
    method Connect() returns (ok: bool)
      requires Spent() && childFd.None? && HANDOFF_FD !in os.table
      modifies this`writeFd, this`childFd, os
      ensures os.pipes == old(os.pipes) || os.pipes == old(os.pipes) + [[]]
      ensures !ok ==> os.table == old(os.table) && writeFd.None? && childFd.None?
      ensures ok ==> Established(old(os.table)) && os.table[writeFd.value].pipe == |old(os.pipes)|
                     && os.pipes == old(os.pipes) + [[]]
    {
      var ends := os.Pipe();
      if ends.None? {
        return false;
      }
      var (readFd, writeEnd) := ends.value;
      if writeEnd == HANDOFF_FD {
        var replacement := os.Dup(writeEnd);
        if replacement.None? {
          Abandon(readFd, writeEnd);
          return false;
        }
        os.Close(writeEnd);
        writeEnd := replacement.value;
      }
      if readFd == HANDOFF_FD {
        var inherited := os.SetInheritable(HANDOFF_FD);
        if !inherited {
          Abandon(readFd, writeEnd);
          return false;
        }
        childFd := Some(HANDOFF_FD);
      } else {
        var moved := os.Dup2(readFd, HANDOFF_FD);
        if !moved {
          Abandon(readFd, writeEnd);
          return false;
        }
        childFd := Some(HANDOFF_FD);
        os.Close(readFd);
      }
      writeFd := Some(writeEnd);
      ok := true;
      assert os.table == old(os.table)[HANDOFF_FD := Reads(|old(os.pipes)|)][writeEnd := Writes(|old(os.pipes)|)];
    }

    method Abandon(readFd: int, writeEnd: int)
      modifies os`table
      ensures os.table == old(os.table) - {readFd} - {writeEnd}
    {
      os.Close(readFd);
      os.Close(writeEnd);
    }

    /** The bytes that reached the pipe since `before`. */
    ghost predicate Delivered(before: seq<seq<Byte>>, pipe: nat, bytes: seq<Byte>)
      reads os
    {
      pipe < |before| && os.pipes == before[pipe := before[pipe] + bytes]
    }

    /**
     Sends the key: all its bytes in order on success, a prefix of them otherwise; in every case the buffer is zeroed
     and the write end closed, and the call terminates.
     */
    method Send() returns (ok: bool)
      requires Ready()
      modifies this`writeFd, this`size, key, os
      ensures Spent() && (forall i | 0 <= i < key.Length :: key[i] == 0)
      ensures os.table == old(os.table) - Held(old(writeFd))
      ensures old(writeFd).None? ==> ok && os.pipes == old(os.pipes)
      ensures old(writeFd).Some? ==>
                exists sent: seq<Byte> ::
                  && sent <= old(Secret()) && (ok ==> sent == old(Secret()))
                  && Delivered(old(os.pipes), old(os.table[writeFd.value].pipe), sent)
    {
      ok := true;
      if writeFd.None? {
        return;
      }
      ghost var sent: seq<Byte>;
      ok, sent := WriteAll();
      assert Delivered(old(os.pipes), old(os.table[writeFd.value].pipe), sent);
      ClearAccessKey();
      CloseWriteFd();
      assert Delivered(old(os.pipes), old(os.table[writeFd.value].pipe), sent);
    }

    method WriteAll() returns (ok: bool, ghost sent: seq<Byte>)
      requires Ready() && writeFd.Some?
      modifies os`pipes
      ensures sent <= Secret() && (ok ==> sent == Secret())
      ensures Delivered(old(os.pipes), os.table[writeFd.value].pipe, sent)
    {
      var remaining := key[..size];
      sent := [];
      ghost var pipe := os.table[writeFd.value].pipe;
      assert os.pipes[pipe] + [] == os.pipes[pipe];
      while remaining != []
        invariant sent + remaining == Secret()
        invariant Delivered(old(os.pipes), pipe, sent)
        decreases |remaining|
      {
        var written := os.Write(writeFd.value, remaining);
        if written.None? {
          return false, sent;
        }
        ghost var part := remaining[..written.value];
        assert remaining == part + remaining[written.value..];
        assert old(os.pipes)[pipe] + sent + part == old(os.pipes)[pipe] + (sent + part);
        sent := sent + part;
        if written.value == 0 {
          return false, sent;
        }
        remaining := remaining[written.value..];
      }
      ok := true;
    }
  }

  function Held(fd: Option<int>): set<int> {
    if fd.Some? then {fd.value} else {}
  }

  /**
   The life of a handoff: whatever fails on the way, the descriptors at the end are those of the beginning, the
   buffer holds zeros only, and a pipe has been given nothing but a prefix of the key.
   */
  method Session(os: Kernel, accessKey: string, encode: string -> Option<seq<Byte>>) returns (sent: bool)
    requires accessKey != ""
    modifies os
    ensures os.table == old(os.table)
    ensures os.pipes == old(os.pipes) || exists bytes ::
              os.pipes == old(os.pipes) + [bytes]
              && (bytes == [] || (encode(accessKey).Some? && bytes <= encode(accessKey).value))
    ensures sent ==> encode(accessKey).Some? && os.pipes == old(os.pipes) + [encode(accessKey).value]
  {
    var handoff := new AccessKeyHandoff(os);
    sent := handoff.Establish(Some(accessKey), encode);
    if sent {
      ghost var pipe, before := os.table[handoff.writeFd.value].pipe, os.pipes;
      sent := handoff.Send();
      handoff.Close();
      ghost var bytes: seq<Byte> :| bytes <= encode(accessKey).value && (sent ==> bytes == encode(accessKey).value)
                                    && os.pipes == before[pipe := before[pipe] + bytes];
      assert before[pipe] + bytes == bytes;
      assert os.pipes == old(os.pipes) + [bytes];
    }
  }
}
