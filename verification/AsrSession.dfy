/** One Deepgram session of pkg/asr/deepgram.go: any number of PushAudio and Close calls,
    the workers of every connection and the teardown, interleaved at every lock section. */
module AsrSession {
  /** What the session tells the breaker. */
  datatype Report = Success | Failure | Abort

  datatype Error = None | Interrupted | Refused

  /** After failAndClose a push returns, but a reader goes back to its connection. */
  datatype Resume = Return | Read(gen: nat)

  datatype Teardown = ByClose | ByFail(resume: Resume)

  /** Where a goroutine stands between two lock sections. */
  datatype Thread =
    // PushAudio and, inside it, ensureConnected; `retry` is its second attempt
    | Push | Ensure(retry: bool) | Backoff(retry: bool) | Dial(retry: bool) | DialFailed(error: Error)
    | Install(retry: bool) | ReportSuccess(retry: bool, gen: nat) | Spawn(retry: bool, gen: nat) | Write(retry: bool)
    // failAndClose and Close
    | Fail(error: Error, resume: Resume) | Close
    | Settle(error: Error, how: Teardown) | ReportEnd(report: Report, how: Teardown) | Cancel(how: Teardown)
    | AwaitWorkers | AwaitSends | CloseOut
    // readLoop and keepAliveLoop
    | Reading(gen: nat) | Accept(gen: nat) | Sending(gen: nat) | Lost(gen: nat) | KeepAlive | WorkerDone
    | Finished

  /** Connections are numbered from 1 by the generation they are installed under; `conn` is
      s.conn, 0 for nil, and `taken` the connection the teardown took from it to close.
      `reports`, `owner` and `reporter` are history: what the breaker was told, the
      goroutine that tears the session down and the one that settles. So are `shut` and
      `lost`, the connections on which Close was called and those whose reading failed.
      `outClosed` counts closings of `out`, and `delivered` holds the connections its
      transcripts came from. */
  datatype Session = Session(
    conn: nat, taken: nat, shut: set<nat>, lost: set<nat>,
    gen: nat, closed: bool, attempts: nat, connectedOnce: bool, breakerSettled: bool, cancelled: bool,
    sendWG: int, workerWG: int, delivered: seq<nat>, outClosed: nat,
    threads: seq<Thread>, reports: seq<Report>, owner: int, reporter: int)

  const OPENED := Session(0, 0, {}, {}, 0, false, 0, false, false, false, 0, 0, [], 0, [], [], -1, -1)

  /** What a dial, a write, a timer or a read comes back with. */
  datatype Answer = Works | Fails(error: Error) | BadUrl | Transcript | ErrorFrame

  datatype Step = CallPush | CallClose | CancelOutside | Move(t: nat, answer: Answer)

  /** A goroutine blocked on a wait group or on the channel may move only as they allow. */
  predicate MayMove(s: Session, thread: Thread, answer: Answer) {
    match thread
    case Finished => false
    case Backoff(_) => answer.Works? || s.cancelled
    case AwaitWorkers => s.workerWG == 0
    case AwaitSends => s.sendWG == 0
    case Sending(_) => answer.Works? || s.cancelled
    case _ => true
  }

  predicate Enabled(s: Session, step: Step) {
    step.Move? ==> step.t < |s.threads| && MayMove(s, s.threads[step.t], step.answer)
  }

  function Goto(s: Session, t: nat, next: Thread): Session
    requires t < |s.threads|
  {
    s.(threads := s.threads[t := next])
  }

  /** ensureConnected has returned without error. */
  function Ensured(retry: bool): Thread { Write(retry) }

  function EnsureSection(max: int, s: Session, t: nat, retry: bool): Session
    requires t < |s.threads|
  {
    Goto(s, t,
      if s.conn != 0 then Ensured(retry)
      else if s.closed then Fail(Refused, Return)
      else if s.attempts >= max then Fail(Refused, Return)
      else if s.attempts > 0 then Backoff(retry)
      else Dial(retry))
  }

  /** The dialed connection becomes the session's, closed or not and whatever it had. */
  function InstallSection(s: Session, t: nat, retry: bool): Session
    requires t < |s.threads|
  {
    var gen := s.gen + 1;
    var live := s.(conn := gen, gen := gen);
    if !s.connectedOnce && !s.breakerSettled then
      Goto(live.(connectedOnce := true, breakerSettled := true, reporter := t), t, ReportSuccess(retry, gen))
    else
      Goto(live, t, Spawn(retry, gen))
  }

  function CloseSection(s: Session, t: nat, error: Error, how: Teardown): Session
    requires t < |s.threads|
  {
    if s.closed then Goto(s, t, if how.ByFail? && how.resume.Read? then Reading(how.resume.gen) else Finished)
    else Goto(s.(closed := true, conn := 0, taken := s.conn, owner := t), t, Settle(error, how))
  }

  function SettleSection(s: Session, t: nat, error: Error, how: Teardown): Session
    requires t < |s.threads|
  {
    if s.breakerSettled then Goto(s, t, Cancel(how))
    else
      var settled := s.(breakerSettled := true);
      if s.connectedOnce then Goto(settled, t, Cancel(how))
      else Goto(settled.(reporter := t), t, ReportEnd(if error.Refused? then Failure else Abort, how))
  }

  /** The connection taken is closed and the context cancelled. failAndClose leaves the
      waiting to a goroutine of its own. */
  function CancelSection(s: Session, t: nat, how: Teardown): Session
    requires t < |s.threads|
  {
    var after := s.(cancelled := true, shut := if s.taken == 0 then s.shut else s.shut + {s.taken});
    match how
    case ByClose => Goto(after, t, AwaitWorkers)
    case ByFail(resume) =>
      var back := Goto(after, t, if resume.Read? then Reading(resume.gen) else Finished);
      back.(threads := back.threads + [AwaitWorkers], owner := |back.threads|)
  }

  function ReadSection(s: Session, t: nat, gen: nat, answer: Answer): Session
    requires t < |s.threads|
  {
    match answer
    case Fails(_) => Goto(s.(lost := s.lost + {gen}), t, Lost(gen))
    case Transcript => Goto(s, t, Accept(gen))
    case ErrorFrame => Goto(s, t, Fail(Refused, Read(gen)))
    case _ => s
  }

  predicate IsPush(thread: Thread) {
    thread.Push? || thread.Ensure? || thread.Backoff? || thread.Dial? || thread.DialFailed? || thread.Write?
  }

  function PushSection(max: int, s: Session, t: nat, answer: Answer): Session
    requires t < |s.threads| && IsPush(s.threads[t])
  {
    match s.threads[t]
    case Push => Goto(s, t, if s.closed then Finished else if s.conn != 0 then Write(false) else Ensure(false))
    case Ensure(retry) => EnsureSection(max, s, t, retry)
    case Backoff(retry) => Goto(s, t, if answer.Works? then Dial(retry) else Fail(Interrupted, Return))
    case Dial(retry) =>
      Goto(s, t, if answer.Works? then Install(retry)
                 else if answer.BadUrl? then Fail(Refused, Return)
                 else DialFailed(if answer.Fails? then answer.error else Refused))
    case DialFailed(error) => Goto(s.(attempts := s.attempts + 1), t, Fail(error, Return))
    case Write(retry) =>
      Goto(s, t, if s.conn != 0 && answer.Works? then Finished else if retry then Fail(Refused, Return) else Ensure(true))
  }

  predicate IsConnect(thread: Thread) {
    thread.Install? || thread.ReportSuccess? || thread.Spawn?
  }

  function ConnectSection(s: Session, t: nat): Session
    requires t < |s.threads| && IsConnect(s.threads[t])
  {
    match s.threads[t]
    case Install(retry) => InstallSection(s, t, retry)
    case ReportSuccess(retry, gen) => Goto(s.(reports := s.reports + [Success]), t, Spawn(retry, gen))
    case Spawn(retry, gen) =>
      var back := Goto(s, t, Ensured(retry));
      back.(workerWG := s.workerWG + 2, threads := back.threads + [Reading(gen), KeepAlive])
  }

  predicate IsTeardown(thread: Thread) {
    thread.Fail? || thread.Close? || thread.Settle? || thread.ReportEnd? || thread.Cancel? || thread.AwaitWorkers? ||
    thread.AwaitSends? || thread.CloseOut?
  }

  function TeardownSection(s: Session, t: nat): Session
    requires t < |s.threads| && IsTeardown(s.threads[t])
  {
    match s.threads[t]
    case Fail(error, resume) => CloseSection(s, t, error, ByFail(resume))
    case Close => CloseSection(s, t, None, ByClose)
    case Settle(error, how) => SettleSection(s, t, error, how)
    case ReportEnd(report, how) => Goto(s.(reports := s.reports + [report]), t, Cancel(how))
    case Cancel(how) => CancelSection(s, t, how)
    case AwaitWorkers => Goto(s, t, AwaitSends)
    case AwaitSends => Goto(s, t, CloseOut)
    case CloseOut => Goto(s.(outClosed := s.outClosed + 1), t, Finished)
  }

  predicate IsWorker(thread: Thread) {
    thread.Reading? || thread.Accept? || thread.Sending? || thread.Lost? || thread.KeepAlive? || thread.WorkerDone?
  }

  function WorkerSection(s: Session, t: nat, answer: Answer): Session
    requires t < |s.threads| && IsWorker(s.threads[t])
  {
    match s.threads[t]
    case Reading(gen) => ReadSection(s, t, gen, answer)
    case Accept(gen) =>
      if s.closed || gen != s.gen then Goto(s, t, Reading(gen)) else Goto(s.(sendWG := s.sendWG + 1), t, Sending(gen))
    case Sending(gen) =>
      Goto(s.(sendWG := s.sendWG - 1, delivered := if answer.Works? then s.delivered + [gen] else s.delivered), t, Reading(gen))
    case Lost(gen) => Goto(if s.closed || gen != s.gen then s else s.(conn := 0), t, WorkerDone)
    case KeepAlive => Goto(s, t, WorkerDone)
    case WorkerDone => Goto(s.(workerWG := s.workerWG - 1), t, Finished)
  }

  function Section(max: int, s: Session, t: nat, answer: Answer): Session
    requires t < |s.threads|
  {
    var thread := s.threads[t];
    if IsPush(thread) then PushSection(max, s, t, answer)
    else if IsConnect(thread) then ConnectSection(s, t)
    else if IsTeardown(thread) then TeardownSection(s, t)
    else if IsWorker(thread) then WorkerSection(s, t, answer)
    else s
  }

  function Apply(max: int, s: Session, step: Step): Session
    requires Enabled(s, step)
  {
    match step
    case CallPush => s.(threads := s.threads + [Push])
    case CallClose => s.(threads := s.threads + [Close])
    case CancelOutside => s.(cancelled := true)
    case Move(t, answer) => Section(max, s, t, answer)
  }

  /** A transcript goes out. */
  predicate Delivers(s: Session, step: Step) {
    step.Move? && step.t < |s.threads| && s.threads[step.t].Sending? && step.answer.Works?
  }
}
