/** The process table as the viewer sees it: one snapshot of
    (pid, name, parent pid) records in enumeration order, the name lookup
    by pid, and the name filter that decides which processes are listed. */
module Directory {
  import opened CTypes
  import opened Text

  /** One process as the enumeration reports it. */
  datatype ProcessRecord = ProcessRecord(pid: UInt32, name: string, ppid: UInt32)

  /** The outcome of taking one snapshot of the process table
      (CreateToolhelp32Snapshot, or openproc on Linux). Unavailable stands
      for a handle or table that could not be opened. */
  datatype Snapshot = Unavailable | Snapshot(records: seq<ProcessRecord>)
  {
    /** What the enumeration loop yields: nothing when the snapshot could
        not be taken. */
    function Records(): seq<ProcessRecord>
    {
      if Unavailable? then [] else records
    }
  }

  // ---------------------------------------------------------------------
  // Name lookup by pid

  /** The name of the first record carrying `pid`, or the empty string. */
  function NameOfPid(records: seq<ProcessRecord>, pid: UInt32): string
  {
    if records == [] then ""
    else if records[0].pid == pid then records[0].name
    else NameOfPid(records[1..], pid)
  }

  /** The first record with a matching pid decides the name. */
  lemma {:induction false} NameOfPidIsFirstMatch(records: seq<ProcessRecord>, pid: UInt32, k: nat)
    requires k < |records| && records[k].pid == pid
    requires forall j :: 0 <= j < k ==> records[j].pid != pid
    ensures NameOfPid(records, pid) == records[k].name
  {
    if k > 0 {
      assert records[0].pid != pid;
      NameOfPidIsFirstMatch(records[1..], pid, k - 1);
    }
  }

  /** Without a matching record the name is the empty string. */
  lemma {:induction false} NameOfPidMissing(records: seq<ProcessRecord>, pid: UInt32)
    requires forall j :: 0 <= j < |records| ==> records[j].pid != pid
    ensures NameOfPid(records, pid) == ""
  {
    if records != [] {
      assert records[0].pid != pid;
      NameOfPidMissing(records[1..], pid);
    }
  }

  /** Every pid of the snapshot is found: the name returned for it is the
      name of some record carrying that pid. */
  lemma {:induction false} NameOfListedPid(records: seq<ProcessRecord>, k: nat)
    requires k < |records|
    ensures exists j :: 0 <= j <= k && records[j].pid == records[k].pid
                        && NameOfPid(records, records[k].pid) == records[j].name
  {
    var pid := records[k].pid;
    if records[0].pid == pid {
      assert records[0].pid == pid && NameOfPid(records, pid) == records[0].name;
    } else {
      NameOfListedPid(records[1..], k - 1);
      var j :| 0 <= j <= k - 1 && records[1..][j].pid == pid
               && NameOfPid(records[1..], pid) == records[1..][j].name;
      assert records[j + 1].pid == pid && NameOfPid(records, pid) == records[j + 1].name;
    }
  }

  /** GetProcessNameByPID: scans a fresh snapshot and returns the name of
      the first process with the given pid, or "" when there is none. */
  method GetProcessNameByPid(snapshot: Snapshot, pid: UInt32) returns (name: string)
    ensures name == NameOfPid(snapshot.Records(), pid)
  {
    var records := snapshot.Records();
    var i := 0;
    while i < |records|
      invariant 0 <= i <= |records|
      invariant NameOfPid(records, pid) == NameOfPid(records[i..], pid)
    {
      assert records[i..][1..] == records[i + 1..];
      if records[i].pid == pid {
        return records[i].name;
      }
      i := i + 1;
    }
    return "";
  }

  // ---------------------------------------------------------------------
  // The list filter of LoadProcesses

  /** Whether LoadProcesses lists a process: always when the filter is
      empty, otherwise when the name contains the filter text. */
  predicate Shown(record: ProcessRecord, filter: string) {
    filter == [] || Contains(record.name, filter)
  }

  /** The records LoadProcesses lists, in snapshot order. */
  function Matching(records: seq<ProcessRecord>, filter: string): seq<ProcessRecord>
  {
    if records == [] then []
    else
      var last := records[|records| - 1];
      Matching(records[..|records| - 1], filter) + (if Shown(last, filter) then [last] else [])
  }

  /** With an empty filter every record is listed, in order. */
  lemma {:induction false} MatchingEmptyFilter(records: seq<ProcessRecord>)
    ensures Matching(records, []) == records
  {
    if records != [] {
      MatchingEmptyFilter(records[..|records| - 1]);
      assert records[..|records| - 1] + [records[|records| - 1]] == records;
    }
  }

  /** A record is listed exactly when it is in the snapshot and passes the
      filter. */
  lemma {:induction false} MatchingMembers(records: seq<ProcessRecord>, filter: string, r: ProcessRecord)
    ensures r in Matching(records, filter) <==> r in records && Shown(r, filter)
  {
    if records != [] {
      var init := records[..|records| - 1];
      MatchingMembers(init, filter, r);
      assert records == init + [records[|records| - 1]];
    }
  }

  /** The filter works record by record, so it keeps snapshot order: the
      records listed from a concatenation are those listed from each part. */
  lemma {:induction false} MatchingConcat(a: seq<ProcessRecord>, b: seq<ProcessRecord>, filter: string)
    ensures Matching(a + b, filter) == Matching(a, filter) + Matching(b, filter)
  {
    if b == [] {
      assert a + b == a;
    } else {
      var init, last := b[..|b| - 1], b[|b| - 1];
      var tail := if Shown(last, filter) then [last] else [];
      MatchingConcat(a, init, filter);
      assert (a + b)[..|a + b| - 1] == a + init;
      assert (a + b)[|a + b| - 1] == last;
      calc {
        Matching(a + b, filter);
        Matching(a + init, filter) + tail;
        (Matching(a, filter) + Matching(init, filter)) + tail;
        Matching(a, filter) + (Matching(init, filter) + tail);
        Matching(a, filter) + Matching(b, filter);
      }
    }
  }

  /** Filtering init, shell and shell-helper on "shell" lists the last two,
      in snapshot order. */
  lemma MatchingExample()
    ensures var init := ProcessRecord(1, "init", 0);
            var shell := ProcessRecord(50, "shell", 1);
            var helper := ProcessRecord(99, "shell-helper", 50);
            Matching([init, shell, helper], "shell") == [shell, helper]
  {
    var init := ProcessRecord(1, "init", 0);
    var shell := ProcessRecord(50, "shell", 1);
    var helper := ProcessRecord(99, "shell-helper", 50);
    ShorterDoesNotContain("init", "shell");
    ContainsItself("shell");
    assert "shell" <= "shell-helper"[0..];
    MatchingConcat([init], [shell], "shell");
    MatchingConcat([init, shell], [helper], "shell");
    assert [init, shell] + [helper] == [init, shell, helper];
    assert [init][..0] == [] && [shell][..0] == [] && [helper][..0] == [];
  }

  /** One row of the process list: pid, name, physical and virtual memory
      in kilobytes. */
  datatype Row = Row(pid: UInt32, name: string, physicalKB: Int32, virtualKB: Int32)

  /** LoadProcesses: lists, in snapshot order, every process the filter
      keeps. `memoryOf` is GetProcessMemoryInfoByPID, whose pair is
      (virtual, physical); the columns take them the other way round. */
  method LoadProcesses(snapshot: Snapshot, filter: string, memoryOf: UInt32 -> (Int32, Int32))
    returns (rows: seq<Row>)
    ensures var listed := Matching(snapshot.Records(), filter);
      |rows| == |listed| &&
      forall k :: 0 <= k < |rows| ==>
        rows[k].pid == listed[k].pid && rows[k].name == listed[k].name &&
        rows[k].virtualKB == memoryOf(listed[k].pid).0 &&
        rows[k].physicalKB == memoryOf(listed[k].pid).1
  {
    var records := snapshot.Records();
    rows := [];
    var i := 0;
    while i < |records|
      invariant 0 <= i <= |records|
      invariant var listed := Matching(records[..i], filter);
        |rows| == |listed| &&
        forall k :: 0 <= k < |rows| ==>
          rows[k].pid == listed[k].pid && rows[k].name == listed[k].name &&
          rows[k].virtualKB == memoryOf(listed[k].pid).0 &&
          rows[k].physicalKB == memoryOf(listed[k].pid).1
    {
      var record := records[i];
      assert records[..i + 1][..i] == records[..i];
      if Shown(record, filter) {
        var memory := memoryOf(record.pid);
        rows := rows + [Row(record.pid, record.name, memory.1, memory.0)];
      }
      i := i + 1;
    }
    assert records[..i] == records;
  }
}
