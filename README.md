# Process Viewer: the selection and arithmetic core

Process Viewer is a wxWidgets window that lists running processes with
their pid, name, physical and virtual memory. It can filter or search the
list by name, list the children of the selected process and terminate it.
It runs on Windows, where it uses the toolhelp snapshot API, and on Linux,
where it uses `/proc` and libprocps. Under the operating-system and widget
calls sit a few deterministic rules. This project models those rules in
Dafny and proves what they guarantee. The operating system's answers
become inputs:

- a process snapshot is a sequence of `ProcessRecord(pid, name, ppid)` in
  enumeration order, or `Unavailable` when no snapshot could be taken;
- a `/proc` listing is a sequence of directory entries (name, is-directory),
  and the readable `/proc/<pid>/stat` records are a map from pid to the
  parent field they report;
- memory counters, `statm` page counts, the page size, the result of
  `OpenProcess` and of `kill` are parameters.

Machine integers are written out: `unsigned int`/`DWORD` is `UInt32`, `int`
is `Int32`, and the conversions the C++ performs, implicitly or by cast (`long` to
`unsigned int` in `push_back`, `int` to `unsigned int` in the parent-pid
comparison, the `static_cast<int>` and `*=` truncations, the
round-toward-zero `long` division by 1024, the `unsigned int` pid passed
to `kill` as a signed `pid_t`) are explicit functions in `CTypes`. `long`
is taken to be 64 bits, as on LP64 Linux, which bounds what `strtol`
returns.

Modules:

- `CTypes`: Option, the 32-bit integer types and the C conversions.
- `Text`: case-sensitive substring containment (`find != npos`), the
  whitespace trimming of `wxString::Trim`, and `strtol` as the Linux child
  scan uses it (whole name, base 10).
- `Directory`: snapshots, lookup of a name by pid, and the `LoadProcesses`
  name filter.
- `Children`: both versions of `GetChildProcesses`.
- `Memory`: both versions of `GetProcessMemoryInfoByPID`.
- `Frame`: the search handler's row scan, the kill guard, and the refill
  of the child list.

Behaviour of the code worth knowing before reading the model:

- `GetProcessMemoryInfoByPID` returns the pair (virtual, physical); the
  list shows physical memory in the column before virtual memory;
- the Windows child scan does not exclude the parent pid; only the Linux
  scan does;
- the child scan returns pids; names are looked up afterwards, one
  snapshot per child;
- a snapshot that cannot be taken gives an empty list with no failure
  value (the code only logs to the error stream);
- terminating a process reports nothing back. What the model records is
  the system calls made and whether the lists are reloaded.

## Model

| member | source | states |
|---|---|---|
| CTypes.ToUInt32 | ProcessViewer.cpp:181-187 | conversion to `unsigned int`: result in [0, 2^32), congruent to the input modulo 2^32, the identity on that range |
| CTypes.ToInt32 | ProcessViewer.cpp:383-384 | conversion to `int`: result in the `int` range, congruent modulo 2^32, the identity on in-range values |
| CTypes.CDivBy1024 | ProcessViewer.cpp:397 | `long / 1024` rounds toward zero: bracketed from below for non-negative values and from above for negative ones |
| Text.Trim | ProcessViewer.cpp:445 | trimmed text is empty exactly when the input is all whitespace, otherwise it neither starts nor ends with whitespace; it is a slice of the input with only whitespace before and after it |
| Text.Strtol10Whole | ProcessViewer.cpp:170-173 | the value accepted by `strtol` with `*endptr == '\0'` lies in the `long` range |
| Text.StrtolAcceptsExactlyNumerals | ProcessViewer.cpp:170-173 | a name is accepted if and only if it is empty or is whitespace, an optional sign and a non-empty run of digits |
| Text.StrtolReadsNumeral | ProcessViewer.cpp:170-173 | such a numeral is read as its signed digit value clamped to the `long` range |
| Text.StrtolReadsDecimalText | ProcessViewer.cpp:171-176 | every pid printed in decimal (as `/proc` names it and `%ld` prints it) is accepted and read back as the same pid |
| Text.StrtolRejectsForeignCharacter | ProcessViewer.cpp:171-173 | a name containing any character other than whitespace, sign or digit (".", "self", ...) is rejected |
| Directory.GetProcessNameByPid | ProcessViewer.cpp:417-429 | the loop returns exactly `NameOfPid` of the snapshot, an unavailable snapshot included |
| Directory.NameOfPidIsFirstMatch | ProcessViewer.cpp:421-426 | the first record carrying the pid gives the name |
| Directory.NameOfPidMissing | ProcessViewer.cpp:428 | with no record carrying the pid the result is the empty string |
| Directory.NameOfListedPid | ProcessViewer.cpp:421-426 | for every pid in the snapshot, the name returned is the name of a record with that pid at or before its position |
| Directory.MatchingEmptyFilter | ProcessViewer.cpp:354 | with an empty filter every record is listed, in snapshot order |
| Directory.MatchingMembers | ProcessViewer.cpp:348-354 | a record is listed if and only if it is in the snapshot and the filter is empty or its name contains the filter |
| Directory.MatchingConcat | ProcessViewer.cpp:348-365 | filtering distributes over concatenation, so snapshot order is preserved |
| Directory.MatchingExample | ProcessViewer.cpp:354 | filtering init, shell, shell-helper on "shell" lists shell then shell-helper |
| Directory.LoadProcesses | ProcessViewer.cpp:340-366 | one row per listed record, in order, with its pid and name, virtual memory from the first and physical memory from the second member of the memory pair |
| Children.ChildrenInSnapshotMembers | ProcessViewer.cpp:135-145 | Windows: a pid is returned if and only if some entry has that pid and the given parent |
| Children.ChildrenInSnapshotConcat | ProcessViewer.cpp:135-145 | Windows: the scan distributes over concatenation, so enumeration order is kept |
| Children.SelfParentListedOnWindows | ProcessViewer.cpp:139-141 | Windows: in any snapshot, a process reporting itself as its own parent is listed among its own children (no self-exclusion) |
| Children.ChildrenInSnapshotExample | ProcessViewer.cpp:139-141 | the children of 1 are [50] and those of 50 are [99] in the init/shell/shell-helper snapshot |
| Children.GetChildProcessesWindows | ProcessViewer.cpp:121-153 | the loop returns exactly the filtered pids, and nothing when the snapshot cannot be taken |
| Children.LinuxChildrenMembers | ProcessViewer.cpp:166-192 | Linux: a pid is returned if and only if some directory entry contributes it |
| Children.LinuxChildrenAreNumericDirectories | ProcessViewer.cpp:168-187 | Linux: every returned pid comes from a directory whose whole name parses as a number other than the parent, with a readable stat record naming the parent |
| Children.LinuxChildrenComplete | ProcessViewer.cpp:168-187 | Linux: every such directory with an in-range pid is returned |
| Children.LinuxChildrenExcludeParent | ProcessViewer.cpp:173 | Linux: the parent pid is never returned, even if it names itself as its own parent |
| Children.LinuxChildrenConcat | ProcessViewer.cpp:166-192 | Linux: an entry that is skipped or whose stat is unreadable does not end the scan; results distribute over concatenation |
| Children.GetChildProcessesLinux | ProcessViewer.cpp:157-201 | the loop returns exactly the Linux filter, and nothing when `/proc` cannot be opened |
| Memory.WindowsMemoryInfo | ProcessViewer.cpp:370-388 | (0, 0) when the process cannot be opened or queried; otherwise each figure is its byte count divided by 1024 and rounded down, for counts that fit in `int` |
| Memory.LinuxMemoryInfo | ProcessViewer.cpp:389-402 | (0, 0) when statm cannot be opened or the page size is strictly between -1024 and 1024 bytes, sysconf's error value -1 included |
| Memory.LinuxMemoryFormula | ProcessViewer.cpp:394-399 | for any non-negative page size, each figure is its page count times the page size divided by 1024 (rounded down), in (virtual, physical) order, for products that fit in `int` |
| Memory.LinuxMemoryIsBytesOver1024 | ProcessViewer.cpp:394-399 | with a page size that is a whole number of kilobytes, each figure times 1024 equals pages times page size, in (virtual, physical) order, for products that fit in `int` |
| Memory.LinuxMemoryWrapsPastInt | ProcessViewer.cpp:398-399 | beyond `int` the `*=` wraps: 2^29 pages of 4 KiB are shown as -2^31 kilobytes |
| Memory.LinuxMemoryExample | ProcessViewer.cpp:394-399 | 1000 and 200 pages of 4096 bytes give (4000, 800) |
| Frame.FindFirstMatch | ProcessViewer.cpp:455-462 | the least index whose name contains the text, or -1 exactly when none does; every earlier index fails |
| Frame.OnSearch | ProcessViewer.cpp:441-475 | a cancelled dialog does nothing; all-whitespace text reloads everything; otherwise the first row containing the trimmed text is highlighted, or not-found when none does |
| Frame.OnKillProcessWindows | ProcessViewer.cpp:481-495 | pid 0 makes no call and no refresh; otherwise OpenProcess first, then TerminateProcess (two calls) exactly when a handle was obtained, one call otherwise; refresh exactly when the handle was obtained; every call on the selected pid |
| Frame.OnKillProcessLinux | ProcessViewer.cpp:481-503 | pid 0 makes no call and no refresh; otherwise exactly one `kill` with SIGTERM, on the selected pid when it is below 2^31 and on a negative `pid_t` (a process group, or every process for -1) when it is not; a refresh exactly when `kill` returns 0 |
| Frame.KillLargestPidSignalsAll | ProcessViewer.cpp:496-497 | selecting pid 2^32 - 1 calls `kill(-1, SIGTERM)` |
| Frame.ListChildProcesses | ProcessViewer.cpp:405-415 | one name per child pid, in order, each that of the pid's first record in its own snapshot |

## Left out

- The window, list controls, dialogs, sizers, event tables and the `selectedProcessID` field: presentation. The model passes the selected pid and the dialog's value as parameters.
- `LoadProcesses` appends rows to the list control and never clears it. The model returns the rows a call appends, not the control's contents.
- Enumerating processes and reading `/proc` (`CreateToolhelp32Snapshot`, `Process32First/Next`, `openproc`/`readproc`, `opendir`/`readdir`, `fopen`/`fscanf`, `std::ifstream`) are inputs. The same goes for `OpenProcess`/`GetProcessMemoryInfo`, `sysconf`, `kill` and `TerminateProcess`. Closing handles and files is not modelled.
- How `fscanf("%*d %*s %*c %d")` tokenises a stat record and how `>>` reads statm are library behaviour. The parent field and the page counts are inputs. An unmatched `%d`, which leaves `ppid` uninitialised, is not modelled.
- `GetRunningProcesses` (name-only listing) and `GetProcessIDByProcessName` are not modelled. They do not feed the window's logic, and the latter converts a process name to a pid with `std::stoi`, which throws on non-numeric names.
- `ConvertToWideString` and the UTF-8/UTF-16 conversions: strings are sequences of characters.
- Logging to `std::cerr`/`std::wcout`, and the `%d`/`to_wstring` formatting of list cells.
- Children.LinuxChildrenExcludeParent: assumes stat records exist only for pids in [0, 2^32), the kernel's range. A numeric `/proc` name beyond that range would be truncated by `push_back` and could equal the parent.
- Children.LinuxChildrenComplete: covers only pids in [0, 2^32). Larger parsed values are listed in truncated form, as `LinuxChildrenMembers` states.
- Memory.LinuxMemoryFormula: stated only for products that fit in `int`; beyond that, see the next line.
- Memory.LinuxMemoryIsBytesOver1024: stated only for products that fit in `int`. Beyond that range the figure is the `int` truncation `LinuxMemoryInfo` computes; for example 2^29 pages of 4 KiB give -2^31, as `LinuxMemoryWrapsPastInt` states.
- Memory.WindowsMemoryInfo: the divided-by-1024 property is stated for counts that fit in `int` after division. Beyond that, the figure is the `int` truncation the function computes.
- Frame.ListChildProcesses: each child's name comes from its own snapshot. The snapshots are inputs, so processes that appear or exit between lookups are captured only by supplying different snapshots.
