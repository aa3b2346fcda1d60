/** The shape of one poll's measurements, as the monitor assembles them. */
module Metrics {

  /** `get_memory_info()`: sizes in gigabytes, usage in percent. */
  datatype MemoryInfo = MemoryInfo(totalGb: real, availableGb: real, usedGb: real, percent: real)

  /** `get_disk_info()` for the configured partition. */
  datatype DiskInfo = DiskInfo(totalGb: real, usedGb: real, freeGb: real, percent: real)

  /** One entry of the process list. */
  datatype ProcInfo = ProcInfo(pid: int, name: string, cpuPercent: real, memoryPercent: real)

  /** `build_snapshot()`: one point-in-time capture. */
  datatype Snapshot = Snapshot(
    timestamp: string,
    cpu: real,
    memory: MemoryInfo,
    disk: DiskInfo,
    topProcesses: seq<ProcInfo>)
}
