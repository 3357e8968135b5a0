/** The decisions made by the main window's handlers once the widgets are
    set aside: the search over the listed names, the guard in front of a
    termination request, and the names shown for the children of the
    selected process. */
module Frame {
  import opened CTypes
  import opened Text
  import opened Directory

  // ---------------------------------------------------------------------
  // OnSearchButtonClicked

  /** The row scan: the first row (by index) whose name contains `text`,
      or -1 when no row does. */
  method FindFirstMatch(names: seq<string>, text: string) returns (index: int)
    ensures -1 <= index < |names|
    ensures index == -1 <==> forall i :: 0 <= i < |names| ==> !Contains(names[i], text)
    ensures index != -1 ==> Contains(names[index], text)
    ensures forall i :: 0 <= i < index ==> !Contains(names[i], text)
  {
    index := -1;
    var i := 0;
    while i < |names|
      invariant 0 <= i <= |names|
      invariant forall j :: 0 <= j < i ==> !Contains(names[j], text)
    {
      if Contains(names[i], text) {
        index := i;
        break;
      }
      i := i + 1;
    }
  }

  /** What a click on the search button leads to. */
  datatype SearchOutcome =
    | Dismissed          // the dialog was not confirmed
    | ShowAll            // blank text: LoadProcesses() without a filter
    | Highlight(row: nat) // the row is selected and scrolled into view
    | NotFound           // "No process with the given name found."

  /** OnSearchButtonClicked: `entered` is the dialog's value when it was
      confirmed with OK. The text is trimmed at both ends; blank text lists
      every process again, any other text selects the first listed row
      whose name contains it. */
  method OnSearch(listedNames: seq<string>, entered: Option<string>) returns (outcome: SearchOutcome)
    ensures entered.None? <==> outcome == Dismissed
    ensures entered.Some? ==>
              (outcome == ShowAll <==> forall k :: 0 <= k < |entered.value| ==> IsSpace(entered.value[k]))
    ensures outcome.Highlight? ==>
              outcome.row < |listedNames| && Contains(listedNames[outcome.row], Trim(entered.value)) &&
              forall i :: 0 <= i < outcome.row ==> !Contains(listedNames[i], Trim(entered.value))
    ensures outcome == NotFound ==>
              Trim(entered.value) != [] &&
              forall i :: 0 <= i < |listedNames| ==> !Contains(listedNames[i], Trim(entered.value))
  {
    if entered.None? {
      return Dismissed;
    }
    var text := Trim(entered.value);
    if text == [] {
      return ShowAll;
    }
    var index := FindFirstMatch(listedNames, text);
    if index != -1 {
      outcome := Highlight(index);
    } else {
      outcome := NotFound;
    }
  }

  // ---------------------------------------------------------------------
  // OnKillProcess

  const SIGTERM: nat := 15

  /** The system calls a kill request may make. `kill` takes a signed
      `pid_t`, so the unsigned selected pid reaches it converted to `int`. */
  datatype SystemCall =
    | OpenProcessToTerminate(pid: UInt32)
    | TerminateProcess(pid: UInt32)
    | Kill(target: Int32, signal: nat)

  /** The calls made, in order, and whether the process list and the child
      list were reloaded afterwards. */
  datatype KillOutcome = KillOutcome(calls: seq<SystemCall>, refreshed: bool)

  /** OnKillProcess on Windows: `handleObtained` is whether OpenProcess returns a
      handle. The result of TerminateProcess is not consulted: the lists
      are reloaded whenever the handle was obtained. */
  function OnKillProcessWindows(selected: UInt32, handleObtained: bool): (r: KillOutcome)
    ensures selected == 0 ==> r.calls == [] && !r.refreshed
    ensures selected != 0 ==> |r.calls| == (if handleObtained then 2 else 1) &&
                              r.calls[0] == OpenProcessToTerminate(selected)
    ensures TerminateProcess(selected) in r.calls <==> selected != 0 && handleObtained
    ensures r.refreshed <==> selected != 0 && handleObtained
    ensures forall c :: c in r.calls ==> !c.Kill? && c.pid == selected
  {
    if selected == 0 then KillOutcome([], false)
    else if handleObtained then KillOutcome([OpenProcessToTerminate(selected), TerminateProcess(selected)], true)
    else KillOutcome([OpenProcessToTerminate(selected)], false)
  }

  /** OnKillProcess on Linux: `killResult` is what kill(pid, SIGTERM)
      returns; the lists are reloaded only when it reports success (0).
      The pid is passed as a `pid_t`: a selected pid below 2^31 reaches
      `kill` unchanged, a larger one arrives negative and so names a process
      group (2^32 - 1 becomes -1, every process the caller may signal). */
  function OnKillProcessLinux(selected: UInt32, killResult: int): (r: KillOutcome)
    ensures selected == 0 ==> r.calls == [] && !r.refreshed
    ensures selected != 0 ==> |r.calls| == 1 && r.calls[0].Kill? && r.calls[0].signal == SIGTERM
    ensures 0 < selected <= Int32Max ==> r.calls == [Kill(selected, SIGTERM)]
    ensures selected > Int32Max ==> r.calls == [Kill(selected - UInt32Modulus, SIGTERM)] && r.calls[0].target < 0
    ensures r.refreshed <==> selected != 0 && killResult == 0
  {
    if selected == 0 then KillOutcome([], false)
    else KillOutcome([Kill(ToInt32(selected), SIGTERM)], killResult == 0)
  }

  /** Selecting pid 2^32 - 1 sends SIGTERM to pid -1. */
  lemma KillLargestPidSignalsAll()
    ensures OnKillProcessLinux(0xFFFF_FFFF, 0).calls == [Kill(-1, SIGTERM)]
  {
  }

  // ---------------------------------------------------------------------
  // ListChildProcesses

  /** ListChildProcesses: the child list is cleared and refilled with the
      name of every child pid, in order; each name is looked up in a
      snapshot of its own, taken when that child's turn comes. */
  method ListChildProcesses(children: seq<UInt32>, snapshots: seq<Snapshot>) returns (names: seq<string>)
    requires |snapshots| == |children|
    ensures |names| == |children|
    ensures forall i :: 0 <= i < |children| ==> names[i] == NameOfPid(snapshots[i].Records(), children[i])
  {
    names := [];
    var i := 0;
    while i < |children|
      invariant 0 <= i <= |children|
      invariant |names| == i
      invariant forall j :: 0 <= j < i ==> names[j] == NameOfPid(snapshots[j].Records(), children[j])
    {
      var name := GetProcessNameByPid(snapshots[i], children[i]);
      names := names + [name];
      i := i + 1;
    }
  }
}
