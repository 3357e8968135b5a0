/** GetProcessMemoryInfoByPID: the memory figures of one process in
    kilobytes, returned as the pair (virtual, physical). What the operating
    system reports is an input; the model is the arithmetic done on it. */
module Memory {
  import opened CTypes

  /** What OpenProcess and GetProcessMemoryInfo yield for one pid. */
  datatype WindowsMemoryQuery =
    | NotOpened
    | CountersUnavailable
    | Counters(privateUsage: nat, workingSetSize: nat)

  /** Windows: bytes divided by 1024 (unsigned, rounded down), then cast to
      `int`. Either failure leaves both figures at 0. */
  function WindowsMemoryInfo(query: WindowsMemoryQuery): (r: (Int32, Int32))
    ensures !query.Counters? ==> r == (0, 0)
    ensures query.Counters? && query.privateUsage < 1024 * UInt32Modulus / 2 ==>
              r.0 * 1024 <= query.privateUsage < r.0 * 1024 + 1024
    ensures query.Counters? && query.workingSetSize < 1024 * UInt32Modulus / 2 ==>
              r.1 * 1024 <= query.workingSetSize < r.1 * 1024 + 1024
  {
    match query
    case Counters(privateUsage, workingSetSize) =>
      (ToInt32(privateUsage / 1024), ToInt32(workingSetSize / 1024))
    case _ => (0, 0)
  }

  /** What reading /proc/<pid>/statm yields: its first two fields, the
      program size and the resident set, both counted in pages. */
  datatype StatmRead = StatmUnopenable | Statm(sizePages: Int32, residentPages: Int32)

  /** Linux: page counts multiplied by `sysconf(_SC_PAGESIZE) / 1024`
      (a `long` division, rounded toward zero), stored back into `int`.
      An unopenable statm file leaves both figures at 0, and so does a
      page size strictly between -1024 and 1024 bytes (sysconf's error
      value -1 included). */
  function LinuxMemoryInfo(statm: StatmRead, pageSizeBytes: int): (r: (Int32, Int32))
    ensures statm.StatmUnopenable? ==> r == (0, 0)
    ensures -1024 < pageSizeBytes < 1024 ==> r == (0, 0)
  {
    match statm
    case Statm(sizePages, residentPages) =>
      var kbPerPage := CDivBy1024(pageSizeBytes);
      (ToInt32(sizePages * kbPerPage), ToInt32(residentPages * kbPerPage))
    case StatmUnopenable => (0, 0)
  }

  /** For any non-negative page size the figures are the page counts times
      the whole kilobytes in a page, as long as those products fit in `int`. */
  lemma LinuxMemoryFormula(sizePages: Int32, residentPages: Int32, pageSizeBytes: nat)
    requires IsInt32(sizePages * (pageSizeBytes / 1024)) && IsInt32(residentPages * (pageSizeBytes / 1024))
    ensures LinuxMemoryInfo(Statm(sizePages, residentPages), pageSizeBytes) ==
            (sizePages * (pageSizeBytes / 1024), residentPages * (pageSizeBytes / 1024))
  {
  }

  /** For a page size that is a whole number of kilobytes, the figures are
      exactly the byte sizes divided by 1024, as long as they fit in `int`. */
  lemma LinuxMemoryIsBytesOver1024(sizePages: Int32, residentPages: Int32, kilobytesPerPage: nat)
    requires IsInt32(sizePages * kilobytesPerPage) && IsInt32(residentPages * kilobytesPerPage)
    ensures var r := LinuxMemoryInfo(Statm(sizePages, residentPages), kilobytesPerPage * 1024);
            r.0 * 1024 == sizePages * (kilobytesPerPage * 1024) &&
            r.1 * 1024 == residentPages * (kilobytesPerPage * 1024)
  {
  }

  /** Past the `int` range the figure wraps: 2^29 pages of 4 KiB (2 TiB)
      are shown as -2^31 kilobytes. */
  lemma LinuxMemoryWrapsPastInt()
    ensures LinuxMemoryInfo(Statm(0x2000_0000, 0), 4096) == (-0x8000_0000, 0)
  {
  }

  /** 1000 pages of program size and 200 resident pages of 4 KiB give
      4000 KB virtual and 800 KB physical. */
  lemma LinuxMemoryExample()
    ensures LinuxMemoryInfo(Statm(1000, 200), 4096) == (4000, 800)
  {
  }
}
