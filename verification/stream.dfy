/** The process lifecycle of `main` (src/main.rs), as a sequential trace: the
    header and opening bracket, then one snapshot and comma per successful cycle,
    triggered by the timer or by SIGCONT, interleaved with the air-quality
    refresher's fetches. */
module Stream {
  import opened Errors
  import opened Ints
  import opened SwayBar
  import Aqi
  import Status

  /** Line logged when the continue signal arrives. */
  const CONTINUE_LINE: string := "Got continue signal"

  /** What is written to standard output, piece by piece. */
  datatype Chunk =
    | HeaderLine(json: string)    // the header object and a line feed
    | OpenBracket                 // "[" and a line feed
    | Snapshot(blocks: seq<Block>) // one pretty-printed array and a line feed
    | Comma                       // a bare ","

  /** The process: the air-quality cell, standard output, the log file. */
  datatype Proc = Proc(cache: Aqi.AqiCache, out: seq<Chunk>, log: seq<string>)

  /** Still looping, or returned from `main` with an error. */
  datatype Run = Running(p: Proc) | Exited(error: CliError, p: Proc)

  /** What wakes the loop. A `logFailure` is the error of an append to the log file
      in that event (`None`: the append succeeds). */
  datatype Event =
    | Tick(sampled: Status.Sampled, logFailure: Option<CliError>)
    | Continue(sampled: Status.Sampled, signalLogFailure: Option<CliError>, logFailure: Option<CliError>)
    | AqiFetched(fetched: Result<u32>)

  /** Process start: hook SIGCONT (a failure ends `main` with an error before
      anything is written), print the header and the opening bracket. */
  function Start(hookFailure: Option<CliError>): (r: Run)
    ensures hookFailure.Some? ==> r.Exited? && r.p.out == []
    ensures hookFailure.None? ==>
      r == Running(Proc(Aqi.INITIAL, [HeaderLine(HeaderJson(DEFAULT_HEADER)), OpenBracket], []))
  {
    match hookFailure
    case Some(e) => Exited(CliError("tokio failed to hook on signal SIGCONT: " + e.msg), Proc(Aqi.INITIAL, [], []))
    case None => Running(Proc(Aqi.INITIAL, [HeaderLine(HeaderJson(DEFAULT_HEADER)), OpenBracket], []))
  }

  /** `log(line)?`: append a line, or leave `main` with the append's error. */
  function Log(p: Proc, line: string, failure: Option<CliError>): (r: Run)
    ensures failure.None? ==> r == Running(p.(log := p.log + [line]))
    ensures failure.Some? ==> r == Exited(failure.value, p)
  {
    match failure
    case None => Running(p.(log := p.log + [line]))
    case Some(e) => Exited(e, p)
  }

  /** `if let Err(e) = emit_status(..) { log(&e.to_string())? }`. */
  function Emit(p: Proc, s: Status.Sampled, logFailure: Option<CliError>): (r: Run)
    ensures Status.AllOk(s) ==>
      r == Running(p.(out := p.out + [Snapshot(Status.EmitStatus(p.cache, s).value), Comma]))
    ensures !Status.AllOk(s) ==>
      r == Log(p, Status.FirstError(s).value.msg, logFailure)
  {
    match Status.EmitStatus(p.cache, s)
    case Ok(blocks) => Running(p.(out := p.out + [Snapshot(blocks), Comma]))
    case Err(e) => Log(p, e.msg, logFailure)
  }

  /** One turn of the loop. */
  function Step(r: Run, e: Event): Run {
    match r
    case Exited(_, _) => r
    case Running(p) =>
      match e
      case Tick(s, logFailure) => Emit(p, s, logFailure)
      case Continue(s, signalLogFailure, logFailure) =>
        (match Log(p, CONTINUE_LINE, signalLogFailure)
         case Exited(err, q) => Exited(err, q)
         case Running(q) => Emit(q, s, logFailure))
      case AqiFetched(fetched) => Running(p.(cache := Aqi.Refresh(p.cache, fetched)))
  }

  function RunAll(r: Run, es: seq<Event>): Run
    decreases |es|
  {
    if |es| == 0 then r else RunAll(Step(r, es[0]), es[1..])
  }

  lemma {:induction false} RunAllAppend(r: Run, es: seq<Event>, e: Event)
    ensures RunAll(r, es + [e]) == Step(RunAll(r, es), e)
    decreases |es|
  {
    if |es| == 0 {
      assert es + [e] == [e];
    } else {
      assert (es + [e])[1..] == es[1..] + [e];
      RunAllAppend(Step(r, es[0]), es[1..], e);
    }
  }

  // ---------------------------------------------------------------- stream shape

  /** The swaybar stream: the header, `[`, then snapshots each followed by a comma.
      It always ends after `[` or after a comma; no closing bracket is written. */
  predicate Framed(out: seq<Chunk>) {
    && |out| >= 2 && |out| % 2 == 0
    && out[0] == HeaderLine(HeaderJson(DEFAULT_HEADER))
    && out[1] == OpenBracket
    && forall k :: 2 <= k < |out| ==> (if k % 2 == 0 then out[k].Snapshot? else out[k] == Comma)
  }

  lemma StepKeepsFramed(r: Run, e: Event)
    requires Framed(r.p.out)
    ensures Framed(Step(r, e).p.out)
    ensures |Step(r, e).p.out| >= |r.p.out| && Step(r, e).p.out[..|r.p.out|] == r.p.out
  {
  }

  /** Whatever happens, the output written so far is a well-framed stream, and
      it only grows: the output after any prefix of the events is a prefix of the
      output after all of them. */
  lemma {:induction false} AlwaysFramed(es: seq<Event>)
    ensures Framed(RunAll(Start(None), es).p.out)
    ensures forall k :: 0 <= k <= |es| ==>
      RunAll(Start(None), es[..k]).p.out <= RunAll(Start(None), es).p.out
    decreases |es|
  {
    var s := Start(None);
    if |es| == 0 {
      assert es[..0] == es;
    } else {
      var init := es[..|es| - 1];
      var last := es[|es| - 1];
      assert es == init + [last];
      RunAllAppend(s, init, last);
      AlwaysFramed(init);
      StepKeepsFramed(RunAll(s, init), last);
      var before := RunAll(s, init).p.out;
      var after := RunAll(s, es).p.out;
      assert before <= after;
      forall k | 0 <= k <= |es|
        ensures RunAll(s, es[..k]).p.out <= after
      {
        if k < |es| {
          assert es[..k] == init[..k];
          assert RunAll(s, init[..k]).p.out <= before;
        } else {
          assert es[..k] == es;
        }
      }
    }
  }

  // ---------------------------------------------------------------- one turn

  /** A failed cycle writes nothing to the output and appends exactly its error
      message to the log; the loop goes on. */
  lemma FailedCycleOnlyLogs(p: Proc, s: Status.Sampled)
    requires !Status.AllOk(s)
    ensures Step(Running(p), Tick(s, None)) ==
      Running(p.(log := p.log + [Status.FirstError(s).value.msg]))
  {
  }

  /** When logging a failed cycle fails, `main` returns that logging error. */
  lemma LogFailureEndsMain(p: Proc, s: Status.Sampled, e: CliError)
    requires !Status.AllOk(s)
    ensures Step(Running(p), Tick(s, Some(e))) == Exited(e, p)
  {
  }

  /** The continue signal is a logged timer tick. */
  lemma ContinueIsLoggedTick(p: Proc, s: Status.Sampled, logFailure: Option<CliError>)
    ensures Step(Running(p), Continue(s, None, logFailure)) ==
      Step(Running(p.(log := p.log + [CONTINUE_LINE])), Tick(s, logFailure))
  {
  }

  /** When logging the continue signal fails, `main` returns that error before
      any snapshot is taken. */
  lemma ContinueLogFailureEndsMain(p: Proc, s: Status.Sampled, e: CliError, logFailure: Option<CliError>)
    ensures Step(Running(p), Continue(s, Some(e), logFailure)) == Exited(e, p)
  {
  }

  /** A successful cycle appends its snapshot and a comma and logs nothing. */
  lemma SuccessfulCycleWrites(p: Proc, s: Status.Sampled, logFailure: Option<CliError>)
    requires Status.AllOk(s)
    ensures Step(Running(p), Tick(s, logFailure)) ==
      Running(p.(out := p.out + [Snapshot(Status.EmitStatus(p.cache, s).value), Comma]))
  {
  }

  /** After `main` has returned nothing changes any more. */
  lemma {:induction false} ExitedIsFinal(err: CliError, p: Proc, es: seq<Event>)
    ensures RunAll(Exited(err, p), es) == Exited(err, p)
    decreases |es|
  {
    if |es| > 0 {
      ExitedIsFinal(err, p, es[1..]);
    }
  }

  // ---------------------------------------------------------------- aqi cell

  /** The fetch outcomes among the events, in order. */
  function Fetches(es: seq<Event>): seq<Result<u32>> {
    if |es| == 0 then []
    else if es[|es| - 1].AqiFetched? then Fetches(es[..|es| - 1]) + [es[|es| - 1].fetched]
    else Fetches(es[..|es| - 1])
  }

  /** Only fetches touch the air-quality cell, and status cycles never do: while
      `main` runs, the cell is the refresher's state after the fetches so far. */
  lemma {:induction false} CellFollowsRefresher(es: seq<Event>)
    ensures RunAll(Start(None), es).Running? ==>
      RunAll(Start(None), es).p.cache == Aqi.RunRefresher(Aqi.INITIAL, Fetches(es))
    decreases |es|
  {
    if |es| > 0 {
      var init := es[..|es| - 1];
      var e := es[|es| - 1];
      assert es == init + [e];
      RunAllAppend(Start(None), init, e);
      CellFollowsRefresher(init);
      if RunAll(Start(None), init).Exited? {
        ExitedAfter(RunAll(Start(None), init), e);
      } else if e.AqiFetched? {
        Aqi.RunRefresherAppend(Aqi.INITIAL, Fetches(init), e.fetched);
      }
    }
  }

  lemma ExitedAfter(r: Run, e: Event)
    requires r.Exited?
    ensures Step(r, e) == r
  {
  }
}
