/** GetChildProcesses in its two platform versions. On Windows the parent
    pid comes with every snapshot entry; on Linux every numeric directory
    of /proc is a candidate whose parent is read from its own stat record. */
module Children {
  import opened CTypes
  import opened Text
  import opened Directory

  // ---------------------------------------------------------------------
  // Windows: filter the toolhelp snapshot on th32ParentProcessID

  /** Pids of the entries whose parent is `parent`, in enumeration order. */
  function ChildrenInSnapshot(entries: seq<ProcessRecord>, parent: UInt32): seq<UInt32>
  {
    if entries == [] then []
    else
      var last := entries[|entries| - 1];
      ChildrenInSnapshot(entries[..|entries| - 1], parent) + (if last.ppid == parent then [last.pid] else [])
  }

  /** A pid is listed exactly when some entry has that pid and reports
      `parent` as its parent. There is no self-exclusion on this platform. */
  lemma {:induction false} ChildrenInSnapshotMembers(entries: seq<ProcessRecord>, parent: UInt32, c: UInt32)
    ensures c in ChildrenInSnapshot(entries, parent) <==>
            exists i :: 0 <= i < |entries| && entries[i].pid == c && entries[i].ppid == parent
  {
    if entries != [] {
      var init := entries[..|entries| - 1];
      ChildrenInSnapshotMembers(init, parent, c);
      if exists i :: 0 <= i < |entries| && entries[i].pid == c && entries[i].ppid == parent {
        var i :| 0 <= i < |entries| && entries[i].pid == c && entries[i].ppid == parent;
        if i < |init| {
          assert init[i] == entries[i];
        }
      }
      if exists i :: 0 <= i < |init| && init[i].pid == c && init[i].ppid == parent {
        var i :| 0 <= i < |init| && init[i].pid == c && init[i].ppid == parent;
        assert entries[i] == init[i];
      }
    }
  }

  /** The scan never stops early: the children found in a concatenation of
      entries are those found in each part, in that order. */
  lemma {:induction false} ChildrenInSnapshotConcat(a: seq<ProcessRecord>, b: seq<ProcessRecord>, parent: UInt32)
    ensures ChildrenInSnapshot(a + b, parent) == ChildrenInSnapshot(a, parent) + ChildrenInSnapshot(b, parent)
  {
    if b == [] {
      assert a + b == a;
    } else {
      var init, last := b[..|b| - 1], b[|b| - 1];
      var tail := if last.ppid == parent then [last.pid] else [];
      ChildrenInSnapshotConcat(a, init, parent);
      assert (a + b)[..|a + b| - 1] == a + init;
      assert (a + b)[|a + b| - 1] == last;
      calc {
        ChildrenInSnapshot(a + b, parent);
        ChildrenInSnapshot(a + init, parent) + tail;
        (ChildrenInSnapshot(a, parent) + ChildrenInSnapshot(init, parent)) + tail;
        ChildrenInSnapshot(a, parent) + (ChildrenInSnapshot(init, parent) + tail);
        ChildrenInSnapshot(a, parent) + ChildrenInSnapshot(b, parent);
      }
    }
  }

  /** A process that reports itself as its own parent (such as the idle
      process, pid 0 with parent 0) is listed among its own children: the
      Windows scan does not exclude the parent pid. */
  lemma SelfParentListedOnWindows(entries: seq<ProcessRecord>, i: nat)
    requires i < |entries| && entries[i].ppid == entries[i].pid
    ensures entries[i].pid in ChildrenInSnapshot(entries, entries[i].pid)
  {
    ChildrenInSnapshotMembers(entries, entries[i].pid, entries[i].pid);
  }

  /** init (1, parent 0), shell (50, parent 1), shell-helper (99, parent 50):
      the children of 1 are [50] and those of 50 are [99]. */
  lemma ChildrenInSnapshotExample()
    ensures var snapshot := [ProcessRecord(1, "init", 0), ProcessRecord(50, "shell", 1),
                             ProcessRecord(99, "shell-helper", 50)];
            ChildrenInSnapshot(snapshot, 1) == [50] && ChildrenInSnapshot(snapshot, 50) == [99]
  {
    var snapshot := [ProcessRecord(1, "init", 0), ProcessRecord(50, "shell", 1),
                     ProcessRecord(99, "shell-helper", 50)];
    ChildrenInSnapshotConcat([snapshot[0]], [snapshot[1]], 1);
    ChildrenInSnapshotConcat([snapshot[0], snapshot[1]], [snapshot[2]], 1);
    ChildrenInSnapshotConcat([snapshot[0]], [snapshot[1]], 50);
    ChildrenInSnapshotConcat([snapshot[0], snapshot[1]], [snapshot[2]], 50);
    assert [snapshot[0], snapshot[1]] + [snapshot[2]] == snapshot;
    assert [snapshot[0]][..0] == [] && [snapshot[1]][..0] == [] && [snapshot[2]][..0] == [];
  }

  /** GetChildProcesses, Windows version: one pass over the snapshot,
      keeping the pid of every entry whose parent pid is `parent`. */
  method GetChildProcessesWindows(snapshot: Snapshot, parent: UInt32) returns (children: seq<UInt32>)
    ensures children == ChildrenInSnapshot(snapshot.Records(), parent)
    ensures snapshot.Unavailable? ==> children == []
  {
    children := [];
    if snapshot.Unavailable? {
      return;
    }
    var entries := snapshot.records;
    var i := 0;
    while i < |entries|
      invariant 0 <= i <= |entries|
      invariant children == ChildrenInSnapshot(entries[..i], parent)
    {
      assert entries[..i + 1][..i] == entries[..i];
      if entries[i].ppid == parent {
        children := children + [entries[i].pid];
      }
      i := i + 1;
    }
    assert entries[..i] == entries;
  }

  // ---------------------------------------------------------------------
  // Linux: scan /proc and read each candidate's stat record

  /** A directory entry of /proc: its name and whether d_type is DT_DIR. */
  datatype DirEntry = DirEntry(name: string, isDirectory: bool)

  /** The outcome of opendir("/proc") followed by readdir until the end. */
  datatype ProcListing = ProcUnopenable | ProcEntries(entries: seq<DirEntry>)

  /** Readable stat records: for each pid whose /proc/<pid>/stat opens, the
      parent field (the fourth) it reports. The file name is printed from
      the parsed pid with %ld, so the record is looked up by that number. */
  type StatRecords = map<int, Int32>

  /** What one directory entry contributes: the pid pushed for it, if any. */
  function ChildCandidate(e: DirEntry, parent: UInt32, stat: StatRecords): Option<UInt32>
  {
    if !e.isDirectory then None
    else match Strtol10Whole(e.name)
      case None => None
      case Some(pid) =>
        if pid == parent || pid !in stat then None
        else if ToUInt32(stat[pid]) == parent then Some(ToUInt32(pid))
        else None
  }

  /** What each entry of a sequence contributes, entry by entry. */
  function Candidates(entries: seq<DirEntry>, parent: UInt32, stat: StatRecords): (picks: seq<Option<UInt32>>)
    ensures |picks| == |entries|
    ensures forall i :: 0 <= i < |entries| ==> picks[i] == ChildCandidate(entries[i], parent, stat)
  {
    seq(|entries|, i requires 0 <= i < |entries| => ChildCandidate(entries[i], parent, stat))
  }

  /** The values push_back appends for a sequence of contributions. */
  function Collected(picks: seq<Option<UInt32>>): seq<UInt32>
  {
    if picks == [] then []
    else
      var last := picks[|picks| - 1];
      Collected(picks[..|picks| - 1]) + (if last.Some? then [last.value] else [])
  }

  lemma {:induction false} CollectedMembers(picks: seq<Option<UInt32>>, c: UInt32)
    ensures c in Collected(picks) <==> Some(c) in picks
  {
    if picks != [] {
      var init := picks[..|picks| - 1];
      CollectedMembers(init, c);
      assert picks == init + [picks[|picks| - 1]];
    }
  }

  lemma {:induction false} CollectedConcat(a: seq<Option<UInt32>>, b: seq<Option<UInt32>>)
    ensures Collected(a + b) == Collected(a) + Collected(b)
  {
    if b == [] {
      assert a + b == a;
    } else {
      CollectedConcat(a, b[..|b| - 1]);
      assert (a + b)[..|a + b| - 1] == a + b[..|b| - 1];
    }
  }

  /** The pids pushed for a sequence of /proc entries, in directory order. */
  function LinuxChildren(entries: seq<DirEntry>, parent: UInt32, stat: StatRecords): seq<UInt32>
  {
    Collected(Candidates(entries, parent, stat))
  }

  /** A pid is listed exactly when some entry contributes it. */
  lemma LinuxChildrenMembers(entries: seq<DirEntry>, parent: UInt32, stat: StatRecords, c: UInt32)
    ensures c in LinuxChildren(entries, parent, stat) <==>
            exists i :: 0 <= i < |entries| && ChildCandidate(entries[i], parent, stat) == Some(c)
  {
    var picks := Candidates(entries, parent, stat);
    CollectedMembers(picks, c);
    if Some(c) in picks {
      var i :| 0 <= i < |picks| && picks[i] == Some(c);
      assert ChildCandidate(entries[i], parent, stat) == Some(c);
    }
  }

  /** Everything listed comes from a /proc directory whose whole name is a
      decimal number, whose stat record was readable and reports `parent`. */
  lemma LinuxChildrenAreNumericDirectories(entries: seq<DirEntry>, parent: UInt32, stat: StatRecords, c: UInt32)
    requires c in LinuxChildren(entries, parent, stat)
    ensures exists i :: 0 <= i < |entries| && entries[i].isDirectory &&
              Strtol10Whole(entries[i].name).Some? &&
              var pid := Strtol10Whole(entries[i].name).value;
              pid != parent && pid in stat && ToUInt32(stat[pid]) == parent && ToUInt32(pid) == c
  {
    LinuxChildrenMembers(entries, parent, stat, c);
  }

  /** Conversely, every directory whose name is a pid other than `parent`
      and whose readable stat record reports `parent` is listed. */
  lemma LinuxChildrenComplete(entries: seq<DirEntry>, parent: UInt32, stat: StatRecords, i: nat)
    requires i < |entries| && entries[i].isDirectory
    requires Strtol10Whole(entries[i].name).Some?
    requires var pid := Strtol10Whole(entries[i].name).value;
             0 <= pid < UInt32Modulus && pid != parent && pid in stat && ToUInt32(stat[pid]) == parent
    ensures Strtol10Whole(entries[i].name).value in LinuxChildren(entries, parent, stat)
  {
    LinuxChildrenMembers(entries, parent, stat, Strtol10Whole(entries[i].name).value);
  }

  /** The parent itself is never listed, even when its own stat record names
      it as its own parent, provided stat records exist only for pids in the
      kernel's range (a wider number would be truncated by push_back). */
  lemma LinuxChildrenExcludeParent(entries: seq<DirEntry>, parent: UInt32, stat: StatRecords)
    requires forall pid :: pid in stat ==> 0 <= pid < UInt32Modulus
    ensures parent !in LinuxChildren(entries, parent, stat)
  {
    LinuxChildrenMembers(entries, parent, stat, parent);
  }

  /** The scan never aborts: an entry that contributes nothing (not a
      directory, not a number, the parent itself, or an unreadable stat
      record) is skipped and the entries after it are still examined. */
  lemma LinuxChildrenConcat(a: seq<DirEntry>, b: seq<DirEntry>, parent: UInt32, stat: StatRecords)
    ensures LinuxChildren(a + b, parent, stat) == LinuxChildren(a, parent, stat) + LinuxChildren(b, parent, stat)
  {
    var ca, cb, cab := Candidates(a, parent, stat), Candidates(b, parent, stat), Candidates(a + b, parent, stat);
    forall i | 0 <= i < |cab|
      ensures cab[i] == (ca + cb)[i]
    {
      if i < |a| {
        assert (a + b)[i] == a[i];
      } else {
        assert (a + b)[i] == b[i - |a|];
      }
    }
    assert cab == ca + cb;
    CollectedConcat(ca, cb);
  }

  /** One more entry scanned appends what that entry contributes. */
  lemma LinuxChildrenStep(entries: seq<DirEntry>, i: nat, parent: UInt32, stat: StatRecords)
    requires i < |entries|
    ensures LinuxChildren(entries[..i + 1], parent, stat) ==
            LinuxChildren(entries[..i], parent, stat) + Collected([ChildCandidate(entries[i], parent, stat)])
  {
    LinuxChildrenConcat(entries[..i], [entries[i]], parent, stat);
    assert entries[..i] + [entries[i]] == entries[..i + 1];
    assert Candidates([entries[i]], parent, stat) == [ChildCandidate(entries[i], parent, stat)];
  }

  /** GetChildProcesses, Linux version: every /proc entry that is a
      directory with a wholly numeric name other than `parent` has its stat
      record read; its pid is kept when the parent field equals `parent`. */
  method GetChildProcessesLinux(proc: ProcListing, parent: UInt32, stat: StatRecords)
    returns (children: seq<UInt32>)
    ensures proc.ProcUnopenable? ==> children == []
    ensures proc.ProcEntries? ==> children == LinuxChildren(proc.entries, parent, stat)
  {
    children := [];
    if proc.ProcUnopenable? {
      return;
    }
    var entries := proc.entries;
    var i := 0;
    while i < |entries|
      invariant 0 <= i <= |entries|
      invariant children == LinuxChildren(entries[..i], parent, stat)
    {
      LinuxChildrenStep(entries, i, parent, stat);
      ghost var before := children;
      var entry := entries[i];
      if entry.isDirectory {
        var parsed := Strtol10Whole(entry.name);
        if parsed.Some? && parsed.value != parent {
          var pid := parsed.value;
          if pid in stat {
            var ppid := stat[pid];
            if ToUInt32(ppid) == parent {
              children := children + [ToUInt32(pid)];
            }
          }
        }
      }
      assert children == before + Collected([ChildCandidate(entry, parent, stat)]);
      i := i + 1;
    }
    assert entries[..i] == entries;
  }
}
