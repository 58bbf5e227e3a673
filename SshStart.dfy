/** ssh/start.go: running the built tasks one after another.

    Each task gets a green banner sized to the terminal, then connects its
    jump hops and its target and performs its action. A failing task
    either stops the run with its error or, with FailedContinue, is
    reported and the run goes on. The terminal size query is the oracle
    `widthAt` (the width it reports before the task at each position, or
    None when it fails); what the run shows and does is the list of
    events it returns. */
module SshStart {
  import opened Base
  import opened Strs
  import opened ConfigHost
  import opened TaskConfig
  import opened SshClient

  /** What a run shows and does, in order. */
  datatype Event =
    | Banner(line: string)                  // printed on stderr before a task
    | Ran(position: nat, calls: seq<Call>)  // taskStart of the task at `position`
    | Reported(error: Error)                // "[ERROR] ..." printed before going on

  // ---------------------------------------------------------------------
  // taskStart (ssh/start.go:14-38)

  /** The action of a task of this revision: its shell takes the remote
      listen address and the proxy server. */
  function TaskAction(r: TaskRecord): Call {
    Dispatch(r.command, r.downloadSrc, r.downloadDest, r.uploadSrc, r.uploadDest, [r.remoteListen, r.proxyServer])
  }

  /** taskStart: a new client connects the jump hops and the target, then
      performs the task's action. The calls it made come back with the
      error. */
  method TaskStart(task: Task, remote: Remote) returns (err: Option<Error>, calls: seq<Call>)
    ensures (calls, err) == RunTask(remote, task.target, TaskAction(task.Record()))
  {
    var client := new Client();
    err := ConnectAll(client, remote, task.target.jumpList + [task.target]);
    if err.Some? {
      return err, client.log;
    }
    if task.command != "" {
      var exitCode;
      exitCode, err := client.Execute(remote, task.command);
      return err, client.log;
    }
    if task.downloadSrc != "" {
      err := client.Download(remote, task.downloadSrc, task.downloadDest);
      return err, client.log;
    }
    if task.uploadSrc != "" {
      err := client.Upload(remote, task.uploadSrc, task.uploadDest);
      return err, client.log;
    }
    err := client.Shell(remote, [task.remoteListen, task.proxyServer]);
    return err, client.log;
  }

  // ---------------------------------------------------------------------
  // The banner (ssh/start.go:46-55)

  const Green := "\U{1B}[1;32m"
  const Reset := "\U{1B}[0m"

  /** The banner text for a task among `n`. */
  function BannerMessage(r: TaskRecord, n: nat): string {
    "-----> [" + IntToString(r.index + 1) + " / " + NatToString(n) + "] " + Summary(r.target) + " " + r.message + " <-----"
  }

  /** The dashes that pad `len` bytes on a terminal `w` wide. */
  function FillLen(len: nat, w: int): int
    requires w > 0
  {
    w - len % w
  }

  /** The banner printed before a task, when the width is known and
      positive. */
  function BannerLine(r: TaskRecord, n: nat, width: Option<int>): Option<string> {
    match width
    case None => None
    case Some(w) =>
      if w <= 0 then None
      else
        var message := BannerMessage(r, n);
        var fill := FillLen(Utf8Len(message), w);
        if fill > 0 then Some(Green + message + Repeat('-', fill) + Reset) else Some(message)
  }

  /** With a positive width the banner is always padded: by 1 to w
      dashes, so that the text and the dashes end exactly at the first
      multiple of w past the text. */
  lemma BannerPadding(r: TaskRecord, n: nat, w: int)
    requires w > 0
    ensures var message := BannerMessage(r, n);
            var len := Utf8Len(message);
            var fill := FillLen(len, w);
            0 < fill <= w &&
            BannerLine(r, n, Some(w)) == Some(Green + message + Repeat('-', fill) + Reset) &&
            Utf8Len(message + Repeat('-', fill)) == len + fill &&
            (len / w) * w <= len < len + fill == (len / w + 1) * w
  {
    var message := BannerMessage(r, n);
    var len := Utf8Len(message);
    var fill := FillLen(len, w);
    Utf8LenAppend(message, Repeat('-', fill));
    Utf8LenAscii('-', fill);
    DivisionStep(len, w);
  }

  /** len + (w - len % w) is the multiple of w that follows len. */
  lemma DivisionStep(len: nat, w: int)
    requires w > 0
    ensures (len / w) * w <= len < len + (w - len % w) == (len / w + 1) * w
  {
    var q := len / w;
    assert len == q * w + len % w;
    assert (q + 1) * w == q * w + w;
  }

  /** Without a usable width there is no banner. */
  lemma NoWidthNoBanner(r: TaskRecord, n: nat, width: Option<int>)
    ensures BannerLine(r, n, width).None? <==> (width.None? || width.value <= 0)
  {
  }

  // ---------------------------------------------------------------------
  // Start (ssh/start.go:40-66)

  /** The events of the task at `position` among `n`, and its error. */
  function TaskEvents(r: TaskRecord, position: nat, n: nat, width: Option<int>, remote: Remote)
    : (seq<Event>, Option<Error>)
  {
    var banner := match BannerLine(r, n, width) case None => [] case Some(line) => [Banner(line)];
    var (calls, err) := RunTask(remote, r.target, TaskAction(r));
    (banner + [Ran(position, calls)], err)
  }

  /** The loop of Start over the tasks `rs`, where `run` gives the events
      and the error of a task at a position. */
  function StartLoop(rs: seq<TaskRecord>, failedContinue: bool,
                     run: (TaskRecord, nat) -> (seq<Event>, Option<Error>)): (seq<Event>, Option<Error>)
  {
    if |rs| == 0 then ([], None)
    else
      var (events, err) := StartLoop(rs[..|rs| - 1], failedContinue, run);
      if err.Some? then (events, err)
      else
        var k := |rs| - 1;
        var (more, e) := run(rs[k], k);
        if e.None? then (events + more, None)
        else if failedContinue then (events + more + [Reported(e.value)], None)
        else (events + more, e)
  }

  /** The tasks of a run of `n`, with the terminal widths of `widthAt`. */
  function Runner(n: nat, widthAt: nat -> Option<int>, remote: Remote)
    : (TaskRecord, nat) -> (seq<Event>, Option<Error>)
  {
    (r: TaskRecord, k: nat) => TaskEvents(r, k, n, widthAt(k), remote)
  }

  /** Start on the task list `rs`. */
  function StartSpec(rs: seq<TaskRecord>, failedContinue: bool, widthAt: nat -> Option<int>, remote: Remote)
    : (seq<Event>, Option<Error>)
  {
    if |rs| == 0 then ([], Some(NoTasks)) else StartLoop(rs, failedContinue, Runner(|rs|, widthAt, remote))
  }

  /** `run` is the task of a run of `n`, named so that the loop below
      never has to look inside it. */
  ghost predicate RunsTasks(run: (TaskRecord, nat) -> (seq<Event>, Option<Error>), n: nat,
                            widthAt: nat -> Option<int>, remote: Remote)
  {
    forall r, k: nat {:trigger TaskEvents(r, k, n, widthAt(k), remote)} ::
      run(r, k) == TaskEvents(r, k, n, widthAt(k), remote)
  }

  lemma RunnerRunsTasks(n: nat, widthAt: nat -> Option<int>, remote: Remote)
    ensures RunsTasks(Runner(n, widthAt, remote), n, widthAt, remote)
  {
  }

  /** One more task after a loop with no error so far. */
  lemma StartLoopNext(rs: seq<TaskRecord>, failedContinue: bool,
                      run: (TaskRecord, nat) -> (seq<Event>, Option<Error>), k: nat, events: seq<Event>)
    requires k < |rs| && StartLoop(rs[..k], failedContinue, run) == (events, None)
    ensures var (more, e) := run(rs[k], k);
            StartLoop(rs[..k + 1], failedContinue, run) ==
              if e.None? then (events + more, None)
              else if failedContinue then (events + more + [Reported(e.value)], None)
              else (events + more, e)
  {
    assert rs[..k + 1][..k] == rs[..k];
  }

  /** Once the loop has an error, the later tasks change nothing. */
  lemma {:induction false} StartLoopStops(rs: seq<TaskRecord>, failedContinue: bool,
                                        run: (TaskRecord, nat) -> (seq<Event>, Option<Error>), k: nat)
    requires k <= |rs| && StartLoop(rs[..k], failedContinue, run).1.Some?
    ensures StartLoop(rs, failedContinue, run) == StartLoop(rs[..k], failedContinue, run)
    decreases |rs| - k
  {
    if k < |rs| {
      assert rs[..k + 1][..k] == rs[..k];
      StartLoopStops(rs, failedContinue, run, k + 1);
    } else {
      assert rs[..k] == rs;
    }
  }

  /** Start: the tasks of `tc` in order, under its failure policy. */
  method Start(tc: TaskConfig, widthAt: nat -> Option<int>, remote: Remote)
    returns (err: Option<Error>, events: seq<Event>)
    ensures (events, err) == StartSpec(Records(tc.tasks), tc.failedContinue, widthAt, remote)
  {
    var tasks := tc.tasks;
    if |tasks| == 0 {
      return Some(NoTasks), [];
    }
    RunnerRunsTasks(|tasks|, widthAt, remote);
    err, events := StartTasks(tasks, tc.failedContinue, Runner(|tasks|, widthAt, remote), widthAt, remote);
  }

  /** The loop of Start over `tasks`. */
  method StartTasks(tasks: seq<Task>, failedContinue: bool, ghost run: (TaskRecord, nat) -> (seq<Event>, Option<Error>),
                    widthAt: nat -> Option<int>, remote: Remote)
    returns (err: Option<Error>, events: seq<Event>)
    requires RunsTasks(run, |tasks|, widthAt, remote)
    ensures (events, err) == StartLoop(Records(tasks), failedContinue, run)
  {
    ghost var rs := Records(tasks);
    events := [];
    var k := 0;
    while k < |tasks|
      invariant 0 <= k <= |tasks|
      invariant Records(tasks) == rs
      invariant StartLoop(rs[..k], failedContinue, run) == (events, None)
    {
      StartLoopNext(rs, failedContinue, run, k, events);
      RecordAt(tasks, k);
      var more, e := StartOne(tasks[k], k, |tasks|, run, widthAt, remote);
      assert Records(tasks) == rs;
      events := events + more;
      if e.Some? {
        if failedContinue {
          events := events + [Reported(e.value)];
          k := k + 1;
          continue;
        }
        StartLoopStops(rs, failedContinue, run, k + 1);
        return e, events;
      }
      k := k + 1;
    }
    assert rs[..k] == rs;
    return None, events;
  }

  /** One pass of Start's loop: the banner, when the terminal width is
      known and positive, then taskStart. */
  method StartOne(task: Task, k: nat, n: nat, ghost run: (TaskRecord, nat) -> (seq<Event>, Option<Error>),
                  widthAt: nat -> Option<int>, remote: Remote)
    returns (more: seq<Event>, e: Option<Error>)
    requires RunsTasks(run, n, widthAt, remote)
    ensures (more, e) == run(task.Record(), k)
  {
    ghost var r := task.Record();
    more := [];
    var width := widthAt(k);
    if width.Some? && width.value > 0 {
      var w := width.value;
      var message := "-----> [" + IntToString(task.index + 1) + " / " + NatToString(n) + "] " +
                     Summary(task.target) + " " + task.message + " <-----";
      assert message == BannerMessage(r, n);
      var fill := w - Utf8Len(message) % w;
      assert fill == FillLen(Utf8Len(BannerMessage(r, n)), w);
      if fill > 0 {
        message := Green + message + Repeat('-', fill) + Reset;
      }
      assert BannerLine(r, n, width) == Some(message);
      more := [Banner(message)];
    } else {
      assert BannerLine(r, n, width).None?;
    }
    assert more == match BannerLine(r, n, width) case None => [] case Some(line) => [Banner(line)];
    var calls;
    e, calls := TaskStart(task, remote);
    more := more + [Ran(k, calls)];
    assert (more, e) == TaskEvents(r, k, n, width, remote);
  }

  // ---------------------------------------------------------------------
  // What Start guarantees

  /** The positions of the tasks that ran, in the order they ran. */
  function RanPositions(events: seq<Event>): seq<nat> {
    if |events| == 0 then []
    else RanPositions(events[..|events| - 1]) +
         (match events[|events| - 1] case Ran(k, _) => [k] case _ => [])
  }

  /** 0, 1, ..., n - 1. */
  function Upto(n: nat): (r: seq<nat>)
    ensures |r| == n && forall i :: 0 <= i < n ==> r[i] == i
  {
    if n == 0 then [] else Upto(n - 1) + [n - 1]
  }

  lemma {:induction false} RanPositionsAppend(a: seq<Event>, b: seq<Event>)
    ensures RanPositions(a + b) == RanPositions(a) + RanPositions(b)
    decreases |b|
  {
    if |b| == 0 {
      assert a + b == a;
    } else {
      assert (a + b)[..|a + b| - 1] == a + b[..|b| - 1];
      RanPositionsAppend(a, b[..|b| - 1]);
    }
  }

  /** The errors reported on the way, in the order they were printed. */
  function Reports(events: seq<Event>): seq<Error> {
    if |events| == 0 then []
    else Reports(events[..|events| - 1]) +
         (match events[|events| - 1] case Reported(e) => [e] case _ => [])
  }

  lemma {:induction false} ReportsAppend(a: seq<Event>, b: seq<Event>)
    ensures Reports(a + b) == Reports(a) + Reports(b)
    decreases |b|
  {
    if |b| == 0 {
      assert a + b == a;
    } else {
      assert (a + b)[..|a + b| - 1] == a + b[..|b| - 1];
      ReportsAppend(a, b[..|b| - 1]);
    }
  }

  /** The errors of the tasks of `rs` that fail under `run`, in task order. */
  function Failures(rs: seq<TaskRecord>, run: (TaskRecord, nat) -> (seq<Event>, Option<Error>)): seq<Error> {
    if |rs| == 0 then []
    else
      var k := |rs| - 1;
      Failures(rs[..k], run) + (match run(rs[k], k).1 case Some(e) => [e] case None => [])
  }

  /** The errors of the tasks of `rs` that fail, in task order. */
  function TaskFailures(rs: seq<TaskRecord>, remote: Remote): seq<Error> {
    if |rs| == 0 then []
    else
      var k := |rs| - 1;
      TaskFailures(rs[..k], remote) + (match TaskError(rs[k], remote) case Some(e) => [e] case None => [])
  }

  /** The error a task ends with, which depends on neither its position
      nor the banner. */
  function TaskError(r: TaskRecord, remote: Remote): Option<Error> {
    RunTask(remote, r.target, TaskAction(r)).1
  }

  /** A task's events hold one Ran, for its own position. */
  lemma TaskEventsRun(r: TaskRecord, position: nat, n: nat, width: Option<int>, remote: Remote)
    ensures var (events, err) := TaskEvents(r, position, n, width, remote);
            RanPositions(events) == [position] && Reports(events) == [] && err == TaskError(r, remote)
  {
    var banner := match BannerLine(r, n, width) case None => [] case Some(line) => [Banner(line)];
    var calls := RunTask(remote, r.target, TaskAction(r)).0;
    RanPositionsAppend(banner, [Ran(position, calls)]);
    ReportsAppend(banner, [Ran(position, calls)]);
    assert RanPositions([Ran(position, calls)]) == RanPositions([]) + [position];
    assert Reports([Ran(position, calls)]) == Reports([]) + [];
    if |banner| == 1 {
      assert RanPositions(banner) == RanPositions([]) + [];
      assert Reports(banner) == Reports([]) + [];
    }
  }

  /** Start with no task runs nothing and fails. */
  lemma NoTasksRunNothing(failedContinue: bool, widthAt: nat -> Option<int>, remote: Remote)
    ensures StartSpec([], failedContinue, widthAt, remote) == ([], Some(NoTasks))
  {
  }

  /** `run` reports one Ran, for the position it is given. */
  ghost predicate RunsOnce(run: (TaskRecord, nat) -> (seq<Event>, Option<Error>)) {
    forall r, k: nat {:trigger run(r, k)} :: RanPositions(run(r, k).0) == [k]
  }

  /** The tasks of a run report their own positions and end with their
      own error. */
  lemma RunnerRunsOnce(n: nat, widthAt: nat -> Option<int>, remote: Remote)
    ensures RunsOnce(Runner(n, widthAt, remote))
    ensures forall r, k: nat :: Runner(n, widthAt, remote)(r, k).1 == TaskError(r, remote)
  {
    forall r, k: nat
      ensures RanPositions(Runner(n, widthAt, remote)(r, k).0) == [k]
      ensures Runner(n, widthAt, remote)(r, k).1 == TaskError(r, remote)
    {
      TaskEventsRun(r, k, n, widthAt(k), remote);
    }
  }

  /** `run` reports no error itself: reporting is the loop's business. */
  ghost predicate ReportsNothing(run: (TaskRecord, nat) -> (seq<Event>, Option<Error>)) {
    forall r, k: nat {:trigger run(r, k)} :: Reports(run(r, k).0) == []
  }

  /** The tasks of a run print no report of their own, and the failures
      under the runner are the tasks' own failures. */
  lemma {:induction false} RunnerReportsNothing(rs: seq<TaskRecord>, n: nat, widthAt: nat -> Option<int>, remote: Remote)
    ensures ReportsNothing(Runner(n, widthAt, remote))
    ensures Failures(rs, Runner(n, widthAt, remote)) == TaskFailures(rs, remote)
    decreases |rs|
  {
    forall r, k: nat
      ensures Reports(Runner(n, widthAt, remote)(r, k).0) == []
    {
      TaskEventsRun(r, k, n, widthAt(k), remote);
    }
    if |rs| > 0 {
      var k := |rs| - 1;
      RunnerReportsNothing(rs[..k], n, widthAt, remote);
      RunnerError(n, widthAt, remote, rs[k], k);
    }
  }

  /** With FailedContinue every task runs, in order, the loop ends without
      an error, and the errors reported are those of the failing tasks, in
      order. */
  lemma {:induction false} ContinueRunsAll(rs: seq<TaskRecord>, run: (TaskRecord, nat) -> (seq<Event>, Option<Error>))
    requires RunsOnce(run) && ReportsNothing(run)
    ensures var (events, err) := StartLoop(rs, true, run);
            err.None? && RanPositions(events) == Upto(|rs|) && Reports(events) == Failures(rs, run)
    decreases |rs|
  {
    if |rs| > 0 {
      ContinueRunsAll(rs[..|rs| - 1], run);
      ContinueExtends(rs, run, StartLoop(rs[..|rs| - 1], true, run).0);
    }
  }

  /** The step of ContinueRunsAll: the last task runs after the others,
      and its error, if any, is reported after its events. */
  lemma ContinueExtends(rs: seq<TaskRecord>, run: (TaskRecord, nat) -> (seq<Event>, Option<Error>), events: seq<Event>)
    requires RunsOnce(run) && ReportsNothing(run) && |rs| > 0
    requires StartLoop(rs[..|rs| - 1], true, run) == (events, None)
    requires RanPositions(events) == Upto(|rs| - 1) && Reports(events) == Failures(rs[..|rs| - 1], run)
    ensures StartLoop(rs, true, run).1.None?
    ensures RanPositions(StartLoop(rs, true, run).0) == Upto(|rs|)
    ensures Reports(StartLoop(rs, true, run).0) == Failures(rs, run)
  {
    var k := |rs| - 1;
    var (more, e) := run(rs[k], k);
    StartLoopNext(rs, true, run, k, events);
    assert rs[..k + 1] == rs;
    var tail: seq<Event> := if e.Some? then [Reported(e.value)] else [];
    if e.Some? {
      assert StartLoop(rs, true, run) == (events + more + tail, None);
    } else {
      assert events + more + tail == events + more;
      assert StartLoop(rs, true, run) == (events + more + tail, None);
    }
    assert RanPositions(more) == [k] && Reports(more) == [];
    RanPositionsAppend(events, more);
    ReportsAppend(events, more);
    RanPositionsAppend(events + more, tail);
    ReportsAppend(events + more, tail);
    if e.Some? {
      assert RanPositions(tail) == RanPositions([]) + [];
      assert Reports(tail) == Reports([]) + [e.value];
    }
  }

  /** Without FailedContinue the tasks run in order up to the first that
      fails: with no error every task ran and succeeded; with an error it
      is that of the last task run, and every earlier one succeeded. */
  lemma {:induction false} AbortStopsAtFirstFailure(rs: seq<TaskRecord>,
                                                  run: (TaskRecord, nat) -> (seq<Event>, Option<Error>))
    requires RunsOnce(run)
    ensures var (events, err) := StartLoop(rs, false, run);
            var m := |RanPositions(events)|;
            m <= |rs| && RanPositions(events) == Upto(m) &&
            (forall j :: 0 <= j < m && (err.None? || j < m - 1) ==> run(rs[j], j).1.None?) &&
            (err.None? ==> m == |rs|) &&
            (err.Some? ==> 0 < m && err == run(rs[m - 1], m - 1).1)
    decreases |rs|
  {
    if |rs| > 0 {
      var k := |rs| - 1;
      AbortStopsAtFirstFailure(rs[..k], run);
      var (events, err) := StartLoop(rs[..k], false, run);
      assert forall j :: 0 <= j < k ==> rs[..k][j] == rs[j];
      if err.None? {
        AbortExtends(rs, run, events);
      } else {
        assert StartLoop(rs, false, run) == (events, err);
      }
    }
  }

  /** The step of AbortStopsAtFirstFailure past a prefix that ran every
      task and succeeded: the last task runs too, and its error ends the
      loop. */
  lemma AbortExtends(rs: seq<TaskRecord>, run: (TaskRecord, nat) -> (seq<Event>, Option<Error>), events: seq<Event>)
    requires RunsOnce(run) && |rs| > 0
    requires StartLoop(rs[..|rs| - 1], false, run) == (events, None)
    requires RanPositions(events) == Upto(|rs| - 1)
    ensures StartLoop(rs, false, run).1 == run(rs[|rs| - 1], |rs| - 1).1
    ensures RanPositions(StartLoop(rs, false, run).0) == Upto(|rs|)
  {
    var k := |rs| - 1;
    var (more, e) := run(rs[k], k);
    StartLoopNext(rs, false, run, k, events);
    assert rs[..k + 1] == rs;
    assert StartLoop(rs, false, run) == (events + more, e);
    RanPositionsAppend(events, more);
    assert RanPositions(more) == [k];
  }

  /** Start with FailedContinue on a non-empty list runs every task, in
      order, and returns no error. */
  lemma StartContinues(rs: seq<TaskRecord>, widthAt: nat -> Option<int>, remote: Remote)
    requires |rs| > 0
    ensures var (events, err) := StartSpec(rs, true, widthAt, remote);
            err.None? && RanPositions(events) == Upto(|rs|) && Reports(events) == TaskFailures(rs, remote)
  {
    RunnerRunsOnce(|rs|, widthAt, remote);
    RunnerReportsNothing(rs, |rs|, widthAt, remote);
    ContinueRunsAll(rs, Runner(|rs|, widthAt, remote));
  }

  /** Start without FailedContinue on a non-empty list: the tasks run in
      order until one fails, and the error is that task's. */
  lemma StartAborts(rs: seq<TaskRecord>, widthAt: nat -> Option<int>, remote: Remote)
    requires |rs| > 0
    ensures var (events, err) := StartSpec(rs, false, widthAt, remote);
            var m := |RanPositions(events)|;
            0 < m <= |rs| && RanPositions(events) == Upto(m) &&
            (forall j :: 0 <= j < m - 1 ==> TaskError(rs[j], remote).None?) &&
            (err.None? <==> TaskError(rs[m - 1], remote).None?) &&
            (err.None? ==> m == |rs|) &&
            (err.Some? ==> err == TaskError(rs[m - 1], remote))
  {
    var run := Runner(|rs|, widthAt, remote);
    RunnerRunsOnce(|rs|, widthAt, remote);
    AbortStopsAtFirstFailure(rs, run);
    var (events, err) := StartLoop(rs, false, run);
    assert StartSpec(rs, false, widthAt, remote) == (events, err);
    var m := |RanPositions(events)|;
    assert 0 < m;
    forall j | 0 <= j < m
      ensures run(rs[j], j).1 == TaskError(rs[j], remote)
    {
      RunnerError(|rs|, widthAt, remote, rs[j], j);
    }
    RunnerError(|rs|, widthAt, remote, rs[m - 1], m - 1);
    if err.None? {
      assert run(rs[m - 1], m - 1).1.None?;
    }
  }

  /** A task of a run ends with its own error. */
  lemma RunnerError(n: nat, widthAt: nat -> Option<int>, remote: Remote, r: TaskRecord, k: nat)
    ensures Runner(n, widthAt, remote)(r, k).1 == TaskError(r, remote)
  {
    TaskEventsRun(r, k, n, widthAt(k), remote);
  }

  /** Start without FailedContinue that returns no error had at least one
      task, ran every task in order, and each of them succeeded. */
  lemma AbortSuccessRanAll(rs: seq<TaskRecord>, widthAt: nat -> Option<int>, remote: Remote)
    ensures var (events, err) := StartSpec(rs, false, widthAt, remote);
            err.None? ==>
              |rs| > 0 && RanPositions(events) == Upto(|rs|) &&
              forall j :: 0 <= j < |rs| ==> TaskError(rs[j], remote).None?
  {
    if |rs| > 0 {
      RunnerRunsOnce(|rs|, widthAt, remote);
      AbortStopsAtFirstFailure(rs, Runner(|rs|, widthAt, remote));
    }
  }
}
