/**
 * The monitor loop: poll a snapshot, check it against the thresholds,
 * dispatch an alert when one is breached, then sleep one second at a time
 * until the next poll, stopping as soon as a termination signal has been
 * seen.
 */
module Monitor {
  import opened Wrappers
  import opened Metrics
  import opened Config
  import opened Processes
  import opened Notifier

  /** The dimension that triggered an alert; the source tags them "cpu", "memory" and "disk". */
  datatype Reason = Cpu | Memory | Disk

  /**
   * `should_alert()`: CPU, then memory, then disk, each compared with `>=`
   * against its threshold; the first breach is reported, or none.
   */
  function ShouldAlert(m: Snapshot, cfg: Settings): (r: (bool, Option<Reason>))
    ensures r.0 <==> r.1.Some?
    ensures !r.0 <==> (m.cpu < cfg.cpuThreshold as real
                       && m.memory.percent < cfg.memThreshold as real
                       && m.disk.percent < cfg.diskThreshold as real)
    ensures r.1 == Some(Cpu) <==> m.cpu >= cfg.cpuThreshold as real
    ensures r.1 == Some(Memory) <==> m.cpu < cfg.cpuThreshold as real && m.memory.percent >= cfg.memThreshold as real
    ensures r.1 == Some(Disk) <==> (m.cpu < cfg.cpuThreshold as real && m.memory.percent < cfg.memThreshold as real
                                      && m.disk.percent >= cfg.diskThreshold as real)
  {
    if m.cpu >= cfg.cpuThreshold as real then (true, Some(Cpu))
    else if m.memory.percent >= cfg.memThreshold as real then (true, Some(Memory))
    else if m.disk.percent >= cfg.diskThreshold as real then (true, Some(Disk))
    else (false, None)
  }

  /** What the metrics source answers for one poll. */
  datatype Sample = Sample(timestamp: string, cpu: real, memory: MemoryInfo, disk: DiskInfo, processes: seq<ProcRead>)

  /** The snapshot a poll yields when no process read escapes. */
  function SnapshotOf(raw: Sample, topN: int): Snapshot {
    Snapshot(raw.timestamp, raw.cpu, raw.memory, raw.disk, Take(Sort(Readable(raw.processes)), topN))
  }

  /** `build_snapshot()`: the sample with its top processes, or the read error that escaped. */
  method BuildSnapshot(raw: Sample, cfg: Settings) returns (r: Result<Snapshot, ReadError>)
    ensures r.Err? <==> FirstFatal(raw.processes).Some?
    ensures r.Err? ==> FirstFatal(raw.processes) == Some(r.error)
    ensures r.Ok? ==> r.value == SnapshotOf(raw, cfg.topN)
    ensures r.Ok? ==> Descending(r.value.topProcesses)
  {
    var top := GetTopProcesses(raw.processes, cfg.topN);
    match top
    case Err(e) =>
      r := Err(e);
    case Ok(procs) =>
      r := Ok(Snapshot(raw.timestamp, raw.cpu, raw.memory, raw.disk, procs));
  }

  /** The number of one-second sleeps in a full interval. */
  function Full(interval: int): nat {
    if interval > 0 then interval else 0
  }

  /**
   * The sleep phase: `while slept < INTERVAL and running: sleep(1); slept += 1`.
   * The phase's first check of the `running` flag is check number `first`
   * of the run, and check k sees the flag set exactly when
   * `k < signalAfter` (only the signal handler writes the flag, and only to
   * clear it). The phase sleeps after each check that sees the flag set,
   * stops at the first check that does not, and never sleeps more than the
   * interval.
   */
  method SleepPhase(interval: int, first: nat, signalAfter: nat) returns (slept: nat)
    ensures slept <= Full(interval)
    ensures slept > 0 ==> first + slept <= signalAfter
    ensures slept < interval ==> first + slept >= signalAfter
  {
    slept := 0;
    while slept < interval && first + slept < signalAfter
      invariant slept <= Full(interval)
      invariant slept > 0 ==> first + slept <= signalAfter
      decreases interval - slept
    {
      slept := slept + 1;
    }
  }

  /** What the polling half of one pass of the outer loop did. */
  datatype Polled = Polled(snapshot: Snapshot, alert: (bool, Option<Reason>), dispatch: Option<map<string, bool>>)

  /** One pass of the outer loop: the poll, then the seconds slept. */
  datatype Cycle = Cycle(polled: Polled, slept: nat)

  /**
   * What a poll of `raw` yields when no process read escapes: the snapshot,
   * the verdict of `ShouldAlert` on it, and the dispatch result exactly when
   * that verdict is a breach.
   */
  function PollOf(cfg: Settings, raw: Sample, faults: SmtpFaults, post: PostOutcome): Polled {
    var m := SnapshotOf(raw, cfg.topN);
    var alert := ShouldAlert(m, cfg);
    Polled(m, alert, if alert.0 then Some(Dispatched(cfg, faults, post)) else None)
  }

  /** An exception that escapes a poll: a process read, or a header of the alert email. */
  datatype Failure = ReadFailed(read: ReadError) | HeaderFailed(header: HeaderError)

  /**
   * The exception a poll of `raw` raises, if any: the first escaping process
   * read error; failing that, when the snapshot breaches a threshold and the
   * email channel is enabled, the header error of composing the message.
   */
  function PollFailure(cfg: Settings, show: Show, raw: Sample): Option<Failure> {
    var m := SnapshotOf(raw, cfg.topN);
    match FirstFatal(raw.processes)
    case Some(e) => Some(ReadFailed(e))
    case None =>
      if ShouldAlert(m, cfg).0 && ComposeFails(cfg) then Some(HeaderFailed(RejectedHeader(cfg).value))
      else None
  }

  /**
   * The polling state: build the snapshot, evaluate the thresholds and, on a
   * breach, notify every channel.
   */
  method Poll(cfg: Settings, show: Show, raw: Sample, faults: SmtpFaults, post: PostOutcome)
    returns (r: Result<Polled, Failure>)
    ensures r.Err? <==> PollFailure(cfg, show, raw).Some?
    ensures r.Err? ==> PollFailure(cfg, show, raw) == Some(r.error)
    ensures r.Ok? ==> r.value == PollOf(cfg, raw, faults, post)
  {
    var built := BuildSnapshot(raw, cfg);
    if built.Err? {
      return Err(ReadFailed(built.error));
    }
    var m := built.value;
    var alert := ShouldAlert(m, cfg);
    var dispatch := None;
    if alert.0 {
      var result, _ := NotifyAll(cfg, m, show, faults, post);
      if result.Err? {
        return Err(HeaderFailed(result.error));
      }
      dispatch := Some(result.value);
    }
    r := Ok(Polled(m, alert, dispatch));
  }

  /** The flag checks that saw the flag set: one per poll and one per second slept. */
  function Spent(cycles: seq<Cycle>): nat {
    if cycles == [] then 0 else Spent(cycles[..|cycles| - 1]) + 1 + cycles[|cycles| - 1].slept
  }

  lemma SpentAppend(before: seq<Cycle>, c: Cycle)
    ensures Spent(before + [c]) == Spent(before) + 1 + c.slept
  {
    assert (before + [c])[..|before|] == before;
  }

  /** Cycle i polled `sample(i)` with the channels answering `faults(i)` and `post(i)`. */
  predicate PolledAsSampled(cfg: Settings, sample: nat -> Sample, faults: nat -> SmtpFaults,
                            post: nat -> PostOutcome, cycles: seq<Cycle>) {
    forall i :: 0 <= i < |cycles| ==> cycles[i].polled == PollOf(cfg, sample(i), faults(i), post(i))
  }

  lemma PolledAppend(cfg: Settings, sample: nat -> Sample, faults: nat -> SmtpFaults,
                     post: nat -> PostOutcome, cycles: seq<Cycle>, c: Cycle)
    requires PolledAsSampled(cfg, sample, faults, post, cycles)
    requires c.polled == PollOf(cfg, sample(|cycles|), faults(|cycles|), post(|cycles|))
    ensures PolledAsSampled(cfg, sample, faults, post, cycles + [c])
  {
    var next := cycles + [c];
    assert forall i :: 0 <= i < |cycles| ==> next[i] == cycles[i];
    assert next[|cycles|] == c;
  }

  /**
   * `main_loop()`. The termination signal is delivered once `signalAfter`
   * checks of the `running` flag have seen it set: the check numbered k
   * sees `k < signalAfter`. Poll i reads `sample(i)` and, when it alerts,
   * the channels answer `faults(i)` and `post(i)`. `failure` is the
   * exception that escaped a poll and ended the loop.
   */
  method MainLoop(cfg: Settings, show: Show, signalAfter: nat, sample: nat -> Sample,
                  faults: nat -> SmtpFaults, post: nat -> PostOutcome)
    returns (cycles: seq<Cycle>, failure: Option<Failure>)
    ensures PolledAsSampled(cfg, sample, faults, post, cycles)
    ensures forall i :: 0 <= i < |cycles| ==> cycles[i].slept <= Full(cfg.interval)
    ensures forall i :: 0 <= i < |cycles| && (i < |cycles| - 1 || failure.Some?) ==> cycles[i].slept == Full(cfg.interval)
    ensures failure.None? ==> Spent(cycles) == signalAfter
    ensures failure.Some? ==> Spent(cycles) < signalAfter && PollFailure(cfg, show, sample(|cycles|)) == failure
  {
    cycles, failure := [], None;
    ghost var spent := 0;
    var checks := 0;
    var running := checks < signalAfter;
    checks := checks + 1;
    while running
      invariant spent == Spent(cycles)
      invariant running ==> checks == spent + 1 && spent < signalAfter
      invariant !running ==> spent == signalAfter
      invariant PolledAsSampled(cfg, sample, faults, post, cycles)
      invariant forall i :: 0 <= i < |cycles| ==> cycles[i].slept <= Full(cfg.interval)
      invariant forall i :: 0 <= i < |cycles| && (i < |cycles| - 1 || running) ==> cycles[i].slept == Full(cfg.interval)
      decreases signalAfter - spent
    {
      var index := |cycles|;
      var polled := Poll(cfg, show, sample(index), faults(index), post(index));
      if polled.Err? {
        failure := Some(polled.error);
        return;
      }
      var slept := SleepPhase(cfg.interval, checks, signalAfter);
      checks := checks + slept + (if slept < cfg.interval then 1 else 0);
      SpentAppend(cycles, Cycle(polled.value, slept));
      PolledAppend(cfg, sample, faults, post, cycles, Cycle(polled.value, slept));
      cycles := cycles + [Cycle(polled.value, slept)];
      spent := spent + 1 + slept;
      running := checks < signalAfter;
      checks := checks + 1;
    }
  }
}
