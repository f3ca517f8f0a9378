/** The judging harness: compile once, then run the tests in order, stopping at the first that does
    not pass, or running all of them. The process runner answers each request according to
    everything it was asked before, so what earlier runs left behind may matter to later ones. */
module Judge {
  import opened Options
  import opened CompareOutput

  /** Undecided is the empty verdict a result starts with. */
  datatype Verdict =
    | Undecided
    | Accepted
    | WrongAnswer
    | TimeLimit
    | MemoryLimit
    | OutputLimit
    | RuntimeError
    | CompileError
    | InternalError

  datatype Limits = Limits(cpuMs: int, wallMs: int, memoryKb: int, outputBytes: int, fileBytes: int)

  datatype Test = Test(name: string, input: string, answer: string, showOutput: bool)

  /** How to judge: all of a job but its tests and whether to run all of them. */
  datatype Setup = Setup(nonce: string, work: string, compile: seq<string>, run: seq<string>, compileLimits: Limits,
                         runLimits: Limits, mode: string, tolerance: real, caseInsensitive: bool)

  datatype Job = Job(setup: Setup, tests: seq<Test>, runAll: bool)

  datatype Outcome = Outcome(cpuMs: int, wallMs: int, peakKb: int, exitCode: Option<int>, signal: Option<int>,
                             wallTimedOut: bool, outputExceeded: bool, memoryExceeded: bool, output: Bytes)

  datatype TestResult = TestResult(name: string, verdict: Verdict, timeMs: int, wallMs: int, memoryKb: int,
                                   exitCode: Option<int>, signal: Option<int>, output: Option<Bytes>)

  datatype Result = Result(nonce: string, verdict: Verdict, compileOutput: Bytes, compileTimeMs: int,
                           tests: seq<TestResult>, error: string)

  datatype Request = Request(argv: seq<string>, stdin: Option<Bytes>, limits: Limits, work: string, compile: bool)
  datatype Attempt = Ran(outcome: Outcome) | Failed(error: string)
  datatype FileRead = Content(bytes: Bytes) | Unreadable(error: string)

  /** What the harness cannot decide itself: how runs end, what files hold, how numbers parse. */
  datatype World = World(respond: (seq<Request>, Request) -> Attempt, files: string -> FileRead, parse: Parser)

  class Runner {
    const world: World
    var history: seq<Request>

    constructor (world: World)
      ensures this.world == world && history == []
    {
      this.world := world;
      history := [];
    }

    method Run(request: Request) returns (attempt: Attempt)
      modifies this
      ensures history == old(history) + [request] && attempt == world.respond(old(history), request)
    {
      attempt := world.respond(history, request);
      history := history + [request];
    }
  }

  // ---- how one run ended ----------------------------------------------------------------------

  const SIGKILL := 9
  const SIGXCPU := 24

  predicate OutOfTime(out: Outcome, lim: Limits) {
    out.wallTimedOut || out.cpuMs > lim.cpuMs
    || out.signal == Some(SIGXCPU) || (out.signal == Some(SIGKILL) && out.cpuMs >= lim.cpuMs)
  }

  predicate OutOfMemory(out: Outcome, lim: Limits) {
    out.memoryExceeded || (lim.memoryKb > 0 && out.peakKb > lim.memoryKb)
  }

  predicate Crashed(out: Outcome) {
    out.signal.Some? || (out.exitCode.Some? && out.exitCode.value != 0)
  }

  function Classify(out: Outcome, lim: Limits): Verdict {
    if OutOfTime(out, lim) then TimeLimit
    else if out.outputExceeded then OutputLimit
    else if OutOfMemory(out, lim) then MemoryLimit
    else if Crashed(out) then RuntimeError
    else Accepted
  }

  /** A submission killed for running out of time is a time limit even though it also died of a
      signal, flooded its output or filled its memory; a kill before its time is up is not. */
  lemma TimeComesFirst(out: Outcome, lim: Limits)
    ensures out.wallTimedOut || out.cpuMs > lim.cpuMs ==> Classify(out, lim) == TimeLimit
    ensures Classify(out, lim) == TimeLimit && !out.wallTimedOut && out.cpuMs < lim.cpuMs ==>
              out.signal == Some(SIGXCPU)
    ensures Classify(out, lim) != TimeLimit && out.outputExceeded ==> Classify(out, lim) == OutputLimit
    ensures Classify(out, lim) == MemoryLimit && !out.memoryExceeded ==> lim.memoryKb > 0 && out.peakKb > lim.memoryKb
    ensures Classify(out, lim) == RuntimeError ==> out.signal.Some? || out.exitCode != Some(0)
  {
  }

  /** Limits that allow all that `tight` allows; no memory limit is the loosest. */
  predicate Looser(loose: Limits, tight: Limits) {
    loose.cpuMs >= tight.cpuMs && (loose.memoryKb <= 0 || (tight.memoryKb > 0 && loose.memoryKb >= tight.memoryKb))
  }

  /** A run within its limits is within looser ones; a run a looser limit turns from bad to good was
      over its time or its memory. */
  lemma LooserLimitsForgiveOnlyWhatTheyBound(out: Outcome, tight: Limits, loose: Limits)
    requires Looser(loose, tight)
    ensures Classify(out, tight) == Accepted ==> Classify(out, loose) == Accepted
    ensures Classify(out, loose) == Accepted ==> Classify(out, tight) in {Accepted, TimeLimit, MemoryLimit}
    ensures Crashed(out) ==> Classify(out, loose) != Accepted
  {
  }

  // ---- texts ----------------------------------------------------------------------------------

  const COMPILE_OUTPUT_LIMIT := 16 * 1024
  const SHOWN_OUTPUT_LIMIT := 16 * 1024

  function Ascii(s: string): (r: Bytes)
    ensures |r| == |s|
  {
    seq(|s|, i requires 0 <= i < |s| => if s[i] < 128 as char then s[i] as Byte else 63)
  }

  /** A newline, an ellipsis in UTF-8, and "(truncated)". */
  const TRUNCATED_NOTE: Bytes := [10, 226, 128, 166, 32] + Ascii("(truncated)")

  const TOOK_TOO_LONG := Ascii("Compilation took too long.")
  const USED_TOO_MUCH := Ascii("Compilation used too much memory.")

  function TruncateText(b: Bytes, limit: nat): (r: Bytes)
    ensures b[..if |b| < limit then |b| else limit] <= r && |r| <= limit + |TRUNCATED_NOTE|
    ensures |b| <= limit ==> r == b
  {
    if |b| > limit then b[..limit] + TRUNCATED_NOTE else b
  }

  function JoinNote(text: Bytes, note: Bytes): Bytes {
    if text == [] then note else text + [10] + note
  }

  // ---- the steps of a job ---------------------------------------------------------------------

  datatype TestEnd = Done(result: TestResult) | Broken(error: string)

  function CompileRequest(s: Setup): Request {
    Request(s.compile, None, s.compileLimits, s.work, true)
  }

  function TestRequest(s: Setup, input: Bytes): Request {
    Request(s.run, Some(input), s.runLimits, s.work, false)
  }

  /** What running this test asks of the runner: nothing, when its input cannot be opened. */
  function Asked(s: Setup, w: World, t: Test): seq<Request> {
    match w.files(t.input)
    case Content(input) => [TestRequest(s, input)]
    case Unreadable(_) => []
  }

  function Shown(t: Test, out: Outcome): Option<Bytes> {
    if t.showOutput then Some(TruncateText(out.output, SHOWN_OUTPUT_LIMIT)) else None
  }

  function Report(t: Test, out: Outcome, verdict: Verdict): TestResult {
    TestResult(t.name, verdict, out.cpuMs, out.wallMs, out.peakKb, out.exitCode, out.signal, Shown(t, out))
  }

  function Scored(s: Setup, w: World, t: Test, out: Outcome): TestEnd {
    var ended := Classify(out, s.runLimits);
    if ended != Accepted then Done(Report(t, out, ended))
    else match w.files(t.answer)
         case Unreadable(e) => Broken(e)
         case Content(answer) =>
           if OutputMatches(w.parse, out.output, answer, s.mode, s.tolerance, s.caseInsensitive)
           then Done(Report(t, out, Accepted)) else Done(Report(t, out, WrongAnswer))
  }

  /** How a test ends after the runner has been asked `history`. */
  function Tested(s: Setup, w: World, t: Test, history: seq<Request>): TestEnd {
    match w.files(t.input)
    case Unreadable(e) => Broken(e)
    case Content(input) =>
      match w.respond(history, TestRequest(s, input))
      case Failed(e) => Broken(e)
      case Ran(out) => Scored(s, w, t, out)
  }

  function Compiled(s: Setup): seq<Request> {
    if s.compile == [] then [] else [CompileRequest(s)]
  }

  /** What the runner was asked before test `k`, when the tests before it have been run. */
  function HistoryAt(s: Setup, w: World, tests: seq<Test>, k: nat): seq<Request>
    requires k <= |tests|
  {
    if k == 0 then Compiled(s) else HistoryAt(s, w, tests, k - 1) + Asked(s, w, tests[k - 1])
  }

  function TestEndAt(s: Setup, w: World, tests: seq<Test>, k: nat): TestEnd
    requires k < |tests|
  {
    Tested(s, w, tests[k], HistoryAt(s, w, tests, k))
  }

  predicate CompileFine(s: Setup, out: Outcome) {
    !out.wallTimedOut && out.cpuMs <= s.compileLimits.cpuMs && !out.memoryExceeded && !Crashed(out)
  }

  /** There is nothing to compile, or the compiler ran and ended well within its limits. */
  predicate CompilePasses(s: Setup, w: World) {
    s.compile == [] || match w.respond([], CompileRequest(s))
                       case Failed(_) => false
                       case Ran(out) => CompileFine(s, out)
  }

  function CompileText(s: Setup, out: Outcome): Bytes {
    var text := TruncateText(out.output, COMPILE_OUTPUT_LIMIT);
    if out.wallTimedOut || out.cpuMs > s.compileLimits.cpuMs then JoinNote(text, TOOK_TOO_LONG)
    else if out.memoryExceeded then JoinNote(text, USED_TOO_MUCH)
    else text
  }

  /** The result before any test: undecided exactly when compiling passed. */
  function AfterCompile(s: Setup, w: World): (r: Result)
    ensures r.verdict == Undecided <==> CompilePasses(s, w)
    ensures r.verdict in {Undecided, CompileError, InternalError} && r.tests == []
    ensures r.nonce == s.nonce && (r.error == "" <==> r.verdict != InternalError)
    ensures r.verdict == InternalError <==> s.compile != [] && w.respond([], CompileRequest(s)).Failed?
  {
    if s.compile == [] then Result(s.nonce, Undecided, [], 0, [], "")
    else match w.respond([], CompileRequest(s))
         case Failed(e) => Result(s.nonce, InternalError, [], 0, [], "running the compiler: " + e)
         case Ran(out) =>
           Result(s.nonce, if CompileFine(s, out) then Undecided else CompileError,
                  CompileText(s, out), out.cpuMs, [], "")
  }

  // ---- what a judgement is --------------------------------------------------------------------

  function FirstFailure(rs: seq<TestResult>): Verdict {
    if rs == [] then Accepted
    else if rs[0].verdict != Accepted then rs[0].verdict
    else FirstFailure(rs[1..])
  }

  /** How many results come up to and including the first failure. */
  function UpToFailure(rs: seq<TestResult>): (n: nat)
    ensures n <= |rs|
    ensures forall i | 0 <= i < n - 1 :: rs[i].verdict == Accepted
    ensures if FirstFailure(rs) == Accepted then n == |rs| && forall i | 0 <= i < n :: rs[i].verdict == Accepted
            else 0 < n && rs[n - 1].verdict == FirstFailure(rs)
  {
    if rs == [] then 0
    else if rs[0].verdict != Accepted then 1
    else 1 + UpToFailure(rs[1..])
  }

  ghost predicate RanInOrder(job: Job, w: World, rs: seq<TestResult>) {
    |rs| <= |job.tests| && forall i | 0 <= i < |rs| :: TestEndAt(job.setup, w, job.tests, i) == Done(rs[i])
  }

  /** After every one of these results the job goes on with the next test. */
  predicate GoesOn(job: Job, rs: seq<TestResult>) {
    job.runAll || FirstFailure(rs) == Accepted
  }

  /** Stopped because nothing is left to run or, when lazy, the last test failed. */
  predicate Finished(job: Job, rs: seq<TestResult>) {
    if job.runAll || FirstFailure(rs) == Accepted then |rs| == |job.tests| else |rs| == UpToFailure(rs)
  }

  ghost predicate HarnessFailed(job: Job, w: World, res: Result) {
    |res.tests| < |job.tests| && GoesOn(job, res.tests) && res.verdict == InternalError &&
    var end := TestEndAt(job.setup, w, job.tests, |res.tests|);
    end.Broken? && res.error == "running test " + job.tests[|res.tests|].name + ": " + end.error
  }

  ghost predicate IsJudgement(job: Job, w: World, res: Result) {
    var start := AfterCompile(job.setup, w);
    if start.verdict != Undecided then res == start
    else res.nonce == start.nonce && res.compileOutput == start.compileOutput &&
         res.compileTimeMs == start.compileTimeMs &&
         RanInOrder(job, w, res.tests) &&
         (HarnessFailed(job, w, res)
          || (Finished(job, res.tests) && res.verdict == FirstFailure(res.tests) && res.error == ""))
  }

  // ---- the harness ----------------------------------------------------------------------------

  method RunTest(s: Setup, t: Test, r: Runner) returns (end: TestEnd)
    modifies r
    ensures end == Tested(s, r.world, t, old(r.history)) && r.history == old(r.history) + Asked(s, r.world, t)
  {
    var file := r.world.files(t.input);
    if file.Unreadable? {
      return Broken(file.error);
    }
    var attempt := r.Run(TestRequest(s, file.bytes));
    if attempt.Failed? {
      return Broken(attempt.error);
    }
    var out := attempt.outcome;
    var tr := TestResult(t.name, Undecided, out.cpuMs, out.wallMs, out.peakKb, out.exitCode, out.signal, None);
    if t.showOutput {
      tr := tr.(output := Some(TruncateText(out.output, SHOWN_OUTPUT_LIMIT)));
    }
    tr := tr.(verdict := Classify(out, s.runLimits));
    if tr.verdict != Accepted {
      return Done(tr);
    }
    var answer := r.world.files(t.answer);
    if answer.Unreadable? {
      return Broken(answer.error);
    }
    if !OutputMatches(r.world.parse, out.output, answer.bytes, s.mode, s.tolerance, s.caseInsensitive) {
      tr := tr.(verdict := WrongAnswer);
    }
    return Done(tr);
  }

  method CompileStep(s: Setup, r: Runner) returns (res: Result)
    requires r.history == []
    modifies r
    ensures res == AfterCompile(s, r.world) && r.history == Compiled(s)
  {
    res := Result(s.nonce, Undecided, [], 0, [], "");
    if |s.compile| > 0 {
      var attempt := r.Run(CompileRequest(s));
      if attempt.Failed? {
        return res.(verdict := InternalError, error := "running the compiler: " + attempt.error);
      }
      var out := attempt.outcome;
      res := res.(compileTimeMs := out.cpuMs, compileOutput := TruncateText(out.output, COMPILE_OUTPUT_LIMIT));
      if out.wallTimedOut || out.cpuMs > s.compileLimits.cpuMs {
        return res.(verdict := CompileError, compileOutput := JoinNote(res.compileOutput, TOOK_TOO_LONG));
      }
      if out.memoryExceeded {
        return res.(verdict := CompileError, compileOutput := JoinNote(res.compileOutput, USED_TOO_MUCH));
      }
      if out.signal.Some? || (out.exitCode.Some? && out.exitCode.value != 0) {
        return res.(verdict := CompileError);
      }
    }
  }

  /** The tests so far have been run, and the job goes on. */
  ghost predicate Going(job: Job, w: World, res: Result) {
    var start := AfterCompile(job.setup, w);
    start.verdict == Undecided && res == start.(tests := res.tests, verdict := res.verdict)
    && RanInOrder(job, w, res.tests) && GoesOn(job, res.tests)
    && res.verdict == if FirstFailure(res.tests) == Accepted then Undecided else FirstFailure(res.tests)
  }

  /** Everything the runner was asked: to compile, and to run each test reported, and the one the
      harness failed at. A lazy job asks nothing after its first failure. */
  ghost function Requested(job: Job, w: World, res: Result): seq<Request> {
    if !CompilePasses(job.setup, w) || |res.tests| > |job.tests| then Compiled(job.setup)
    else HistoryAt(job.setup, w, job.tests, if HarnessFailed(job, w, res) then |res.tests| + 1 else |res.tests|)
  }

  /** So far, with this much asked; and at the end. */
  ghost predicate Midway(job: Job, w: World, res: Result, asked: seq<Request>) {
    |res.tests| <= |job.tests| && Going(job, w, res) && asked == HistoryAt(job.setup, w, job.tests, |res.tests|)
  }

  ghost predicate Ended(job: Job, w: World, res: Result, asked: seq<Request>) {
    IsJudgement(job, w, res) && asked == Requested(job, w, res)
  }

  method Judge(job: Job, r: Runner) returns (res: Result)
    requires r.history == []
    modifies r
    ensures IsJudgement(job, r.world, res)
    ensures r.history == Requested(job, r.world, res)
  {
    res := CompileStep(job.setup, r);
    if res.verdict != Undecided {
      return;
    }
    StartsMidway(job, r.world);
    for i := 0 to |job.tests|
      invariant |res.tests| == i && Midway(job, r.world, res, r.history)
    {
      ghost var asked, before := r.history, res;
      var t := job.tests[i];
      var end := RunTest(job.setup, t, r);
      if end.Broken? {
        BrokenTest(job, r.world, before, asked, end.error);
        return res.(verdict := InternalError, error := "running test " + t.name + ": " + end.error);
      }
      OneMoreTest(job, r.world, before, asked, end.result);
      res := res.(tests := res.tests + [end.result]);
      if end.result.verdict != Accepted {
        if res.verdict == Undecided {
          res := res.(verdict := end.result.verdict);
        }
        if !job.runAll {
          return;
        }
      }
    }
    AllTestsRan(job, r.world, res, r.history);
    if res.verdict == Undecided {
      res := res.(verdict := Accepted);
    }
  }

  lemma StartsMidway(job: Job, w: World)
    requires CompilePasses(job.setup, w)
    ensures Midway(job, w, AfterCompile(job.setup, w), Compiled(job.setup))
  {
  }

  lemma BrokenTest(job: Job, w: World, res: Result, asked: seq<Request>, error: string)
    requires Midway(job, w, res, asked) && |res.tests| < |job.tests|
    requires Tested(job.setup, w, job.tests[|res.tests|], asked) == Broken(error)
    ensures Ended(job, w,
              res.(verdict := InternalError, error := "running test " + job.tests[|res.tests|].name + ": " + error),
                  asked + Asked(job.setup, w, job.tests[|res.tests|]))
  {
    assert HarnessFailed(job, w,
        res.(verdict := InternalError, error := "running test " + job.tests[|res.tests|].name + ": " + error));
  }

  lemma AllTestsRan(job: Job, w: World, res: Result, asked: seq<Request>)
    requires Midway(job, w, res, asked) && |res.tests| == |job.tests|
    ensures Ended(job, w, if res.verdict == Undecided then res.(verdict := Accepted) else res, asked)
  {
    VerdictOfResults(job, w, res.tests);
  }

  function WithResult(res: Result, tr: TestResult): Result {
    res.(tests := res.tests + [tr],
         verdict := if res.verdict == Undecided && tr.verdict != Accepted then tr.verdict else res.verdict)
  }

  lemma OneMoreTest(job: Job, w: World, res: Result, asked: seq<Request>, tr: TestResult)
    requires Midway(job, w, res, asked) && |res.tests| < |job.tests|
    requires Tested(job.setup, w, job.tests[|res.tests|], asked) == Done(tr)
    ensures var after, asked' := WithResult(res, tr), asked + Asked(job.setup, w, job.tests[|res.tests|]);
            if tr.verdict == Accepted || job.runAll then Midway(job, w, after, asked') else Ended(job, w, after, asked')
  {
    OneMoreRan(job, w, res.tests, tr);
    if tr.verdict == Accepted || job.runAll {
      GoesOnMidway(job, w, res, tr);
    } else {
      StopsAtFailure(job, w, res, tr);
    }
  }

  lemma GoesOnMidway(job: Job, w: World, res: Result, tr: TestResult)
    requires Going(job, w, res) && RanInOrder(job, w, res.tests + [tr]) && (tr.verdict == Accepted || job.runAll)
    ensures Going(job, w, WithResult(res, tr))
  {
    VerdictOfResults(job, w, res.tests);
    OneMoreResult(res.tests, tr);
  }

  lemma StopsAtFailure(job: Job, w: World, res: Result, tr: TestResult)
    requires Going(job, w, res) && RanInOrder(job, w, res.tests + [tr]) && tr.verdict != Accepted && !job.runAll
    ensures var after := WithResult(res, tr);
            IsJudgement(job, w, after) && Requested(job, w, after) == HistoryAt(job.setup, w, job.tests, |after.tests|)
  {
    VerdictOfResults(job, w, res.tests + [tr]);
    OneMoreResult(res.tests, tr);
  }

  lemma OneMoreRan(job: Job, w: World, rs: seq<TestResult>, r: TestResult)
    requires RanInOrder(job, w, rs) && |rs| < |job.tests| && TestEndAt(job.setup, w, job.tests, |rs|) == Done(r)
    ensures RanInOrder(job, w, rs + [r])
  {
  }

  lemma {:induction false} OneMoreResult(rs: seq<TestResult>, r: TestResult)
    ensures FirstFailure(rs + [r]) == if FirstFailure(rs) == Accepted then r.verdict else FirstFailure(rs)
    ensures FirstFailure(rs) == Accepted ==> UpToFailure(rs + [r]) == |rs| + 1
  {
    if rs != [] {
      OneMoreResult(rs[1..], r);
      assert (rs + [r])[1..] == rs[1..] + [r];
    }
  }

  /** A test never comes back undecided or with a harness verdict. */
  lemma TestVerdict(s: Setup, w: World, tests: seq<Test>, k: nat)
    requires k < |tests|
    ensures var end := TestEndAt(s, w, tests, k);
            end.Done? ==> end.result.verdict !in {Undecided, InternalError, CompileError}
  {
  }

  // ---- what a judgement means -----------------------------------------------------------------

  lemma {:induction false} FirstFailureIsAResult(rs: seq<TestResult>)
    ensures FirstFailure(rs) != Accepted ==> exists i :: 0 <= i < |rs| && rs[i].verdict == FirstFailure(rs)
  {
    if FirstFailure(rs) != Accepted {
      assert rs[UpToFailure(rs) - 1].verdict == FirstFailure(rs);
    }
  }

  /** A harness verdict among completed tests comes from the harness only. */
  lemma VerdictOfResults(job: Job, w: World, rs: seq<TestResult>)
    requires RanInOrder(job, w, rs)
    ensures FirstFailure(rs) !in {Undecided, InternalError, CompileError}
  {
    FirstFailureIsAResult(rs);
    if FirstFailure(rs) != Accepted {
      var i :| 0 <= i < |rs| && rs[i].verdict == FirstFailure(rs);
      TestVerdict(job.setup, w, job.tests, i);
    }
  }

  lemma AllAccepted(rs: seq<TestResult>)
    ensures FirstFailure(rs) == Accepted <==> forall i | 0 <= i < |rs| :: rs[i].verdict == Accepted
  {
    FirstFailureIsAResult(rs);
  }

  /** Accepted exactly when compiling passed, and every test ran and was accepted. */
  lemma AcceptedMeansEverythingPassed(job: Job, w: World, res: Result)
    requires IsJudgement(job, w, res)
    ensures res.verdict == Accepted <==>
              CompilePasses(job.setup, w) && forall i | 0 <= i < |job.tests| ::
                  Passes(TestEndAt(job.setup, w, job.tests, i))
    ensures res.verdict == Accepted ==>
              |res.tests| == |job.tests| && forall i | 0 <= i < |res.tests| ::
                  TestEndAt(job.setup, w, job.tests, i) == Done(res.tests[i])
  {
    if CompilePasses(job.setup, w) {
      AllAccepted(res.tests);
      if |res.tests| < |job.tests| && HarnessFailed(job, w, res) {
        assert !Passes(TestEndAt(job.setup, w, job.tests, |res.tests|));
      } else if exists i :: 0 <= i < |res.tests| && res.tests[i].verdict != Accepted {
        var i :| 0 <= i < |res.tests| && res.tests[i].verdict != Accepted;
        assert !Passes(TestEndAt(job.setup, w, job.tests, i));
      }
    }
  }

  predicate Passes(end: TestEnd) {
    end.Done? && end.result.verdict == Accepted
  }

  // ---- comparing judgements -------------------------------------------------------------------

  /** The first `n` tests, their files and the runner's answers are the same for both. */
  ghost predicate SeeTheSame(w1: World, tests1: seq<Test>, w2: World, tests2: seq<Test>, n: nat) {
    w1.respond == w2.respond && w1.parse == w2.parse && n <= |tests1| && n <= |tests2|
    && forall i | 0 <= i < n :: tests1[i] == tests2[i]
                                && w1.files(tests1[i].input) == w2.files(tests2[i].input)
                                && w1.files(tests1[i].answer) == w2.files(tests2[i].answer)
  }

  lemma {:induction false} SameHistory(s: Setup, w1: World, tests1: seq<Test>, w2: World, tests2: seq<Test>, n: nat)
    requires SeeTheSame(w1, tests1, w2, tests2, n)
    ensures HistoryAt(s, w1, tests1, n) == HistoryAt(s, w2, tests2, n)
  {
    if n > 0 {
      SameHistory(s, w1, tests1, w2, tests2, n - 1);
    }
  }

  lemma SameEnd(s: Setup, w1: World, tests1: seq<Test>, w2: World, tests2: seq<Test>, n: nat, k: nat)
    requires SeeTheSame(w1, tests1, w2, tests2, n) && k < n
    ensures TestEndAt(s, w1, tests1, k) == TestEndAt(s, w2, tests2, k)
  {
    SameHistory(s, w1, tests1, w2, tests2, k);
  }

  /** A lazy job's results all pass but the last. */
  lemma LazyResults(job: Job, w: World, res: Result, i: nat)
    requires IsJudgement(job, w, res) && !job.runAll && i < |res.tests| && res.tests[i].verdict != Accepted
    ensures i == |res.tests| - 1 && res.verdict == res.tests[i].verdict
  {
    AllAccepted(res.tests);
    assert UpToFailure(res.tests) == i + 1;
  }

  /** Results stop before the last test only for a harness error or, when lazy, a failure. */
  lemma WhyItStopped(job: Job, w: World, res: Result)
    requires IsJudgement(job, w, res) && CompilePasses(job.setup, w) && |res.tests| < |job.tests|
    ensures TestEndAt(job.setup, w, job.tests, |res.tests|).Broken?
         || (!job.runAll && res.tests != [] && res.tests[|res.tests| - 1].verdict != Accepted)
  {
  }

  /** Stopping early loses only what comes after the first failure. */
  lemma LazyResultsAreRunAllsUpToTheFirstFailure(job: Job, w: World, lazy: Result, full: Result)
    requires IsJudgement(job.(runAll := false), w, lazy) && IsJudgement(job.(runAll := true), w, full)
    ensures lazy.tests == full.tests[..UpToFailure(full.tests)]
  {
    if CompilePasses(job.setup, w) {
      var u := UpToFailure(full.tests);
      if |lazy.tests| < u {
        WhyItStopped(job.(runAll := false), w, lazy);
        assert false;
      } else if |lazy.tests| > u {
        assert TestEndAt(job.setup, w, job.tests, u).Done?;
        if FirstFailure(full.tests) == Accepted {
          WhyItStopped(job.(runAll := true), w, full);
        } else {
          assert lazy.tests[u - 1] == full.tests[u - 1];
          LazyResults(job.(runAll := false), w, lazy, u - 1);
        }
        assert false;
      }
    }
  }

  lemma {:induction false} FailureOfPrefix(rs: seq<TestResult>)
    ensures FirstFailure(rs[..UpToFailure(rs)]) == FirstFailure(rs)
  {
    if rs != [] && rs[0].verdict == Accepted {
      FailureOfPrefix(rs[1..]);
      assert rs[..UpToFailure(rs)][1..] == rs[1..][..UpToFailure(rs[1..])];
    }
  }

  /** Some test does not pass, and after it, the first of all, some test meets a harness error. */
  ghost predicate FailsThenBreaks(s: Setup, w: World, tests: seq<Test>) {
    exists i, k :: 0 <= i < k < |tests| && !Passes(TestEndAt(s, w, tests, i)) && FirstBroken(s, w, tests, k)
  }

  ghost predicate FirstBroken(s: Setup, w: World, tests: seq<Test>, k: nat)
    requires k < |tests|
  {
    TestEndAt(s, w, tests, k).Broken? && forall j | 0 <= j < k :: TestEndAt(s, w, tests, j).Done?
  }

  lemma RunAllBreaksAfterFailure(job: Job, w: World, full: Result)
    requires IsJudgement(job.(runAll := true), w, full) && CompilePasses(job.setup, w)
    ensures FailsThenBreaks(job.setup, w, job.tests) <==>
              full.verdict == InternalError && FirstFailure(full.tests) != Accepted
  {
    var s, tests, n := job.setup, job.tests, |full.tests|;
    AllAccepted(full.tests);
    VerdictOfResults(job.(runAll := true), w, full.tests);
    if full.verdict == InternalError && FirstFailure(full.tests) != Accepted {
      var i :| 0 <= i < n && full.tests[i].verdict != Accepted;
      assert !Passes(TestEndAt(s, w, tests, i)) && FirstBroken(s, w, tests, n);
    }
    if i, k :| 0 <= i < k < |tests| && !Passes(TestEndAt(s, w, tests, i)) && FirstBroken(s, w, tests, k) {
      if n < k {
        WhyItStopped(job.(runAll := true), w, full);
        assert false;
      }
      assert n == k && full.tests[i].verdict != Accepted;
    }
  }

  /** Stopping early changes the verdict exactly when compiling passes and running on would meet a
      harness error after a test has failed. */
  lemma LazyVerdictIsRunAlls(job: Job, w: World, lazy: Result, full: Result)
    requires IsJudgement(job.(runAll := false), w, lazy) && IsJudgement(job.(runAll := true), w, full)
    ensures lazy.verdict != full.verdict <==> CompilePasses(job.setup, w) && FailsThenBreaks(job.setup, w, job.tests)
    ensures lazy.verdict == full.verdict <==> !(full.verdict == InternalError && FirstFailure(full.tests) != Accepted)
    ensures full.verdict != InternalError ==> lazy.verdict == full.verdict
  {
    LazyResultsAreRunAllsUpToTheFirstFailure(job, w, lazy, full);
    FailureOfPrefix(full.tests);
    if CompilePasses(job.setup, w) {
      VerdictOfResults(job, w, full.tests);
      RunAllBreaksAfterFailure(job, w, full);
    }
  }

  /** They do differ: of two tests the first crashes and the runner fails at the second. */
  method LazyAndRunAllMayDiffer() returns (job: Job, w: World, lazy: Result, full: Result)
    ensures IsJudgement(job.(runAll := false), w, lazy) && IsJudgement(job.(runAll := true), w, full)
    ensures lazy.verdict == RuntimeError && full.verdict == InternalError
  {
    var crash := Outcome(1, 1, 1, Some(1), None, false, false, false, []);
    w := World((asked, _) => if asked == [] then Ran(crash) else Failed("gone"), _ => Content([]), _ => NotANumber);
    var limits := Limits(1000, 1000, 0, 1000, 1000);
    var test := Test("t", "in", "out", false);
    job := Job(Setup("n", "work", [], ["run"], limits, limits, "token", 0.0, false), [test, test], false);
    var r1 := new Runner(w);
    lazy := Judge(job, r1);
    var r2 := new Runner(w);
    full := Judge(job.(runAll := true), r2);
    CrashThenBreak(job, w, crash);
    LazyVerdictIsRunAlls(job, w, lazy, full);
    LazyResultsAreRunAllsUpToTheFirstFailure(job, w, lazy, full);
    RunAllBreaksAfterFailure(job, w, full);
    assert full.tests[0].verdict == RuntimeError;
    LazyResults(job, w, lazy, 0);
  }

  lemma CrashThenBreak(job: Job, w: World, crash: Outcome)
    requires |job.tests| == 2 && job.setup.compile == [] && w.files(job.tests[0].input).Content?
             && w.files(job.tests[1].input).Content?
    requires forall q :: w.respond([], q) == Ran(crash)
    requires forall asked, q | asked != [] :: w.respond(asked, q) == Failed("gone")
    requires Classify(crash, job.setup.runLimits) == RuntimeError
    ensures TestEndAt(job.setup, w, job.tests, 0) == Done(Report(job.tests[0], crash, RuntimeError))
    ensures CompilePasses(job.setup, w) && FailsThenBreaks(job.setup, w, job.tests)
  {
    assert HistoryAt(job.setup, w, job.tests, 0) == [];
    assert HistoryAt(job.setup, w, job.tests, 1) == Asked(job.setup, w, job.tests[0]);
    assert !Passes(TestEndAt(job.setup, w, job.tests, 0)) && FirstBroken(job.setup, w, job.tests, 1);
  }

  /** For one runner and one set of files there is only one judgement. */
  lemma OneJudgement(job: Job, w: World, a: Result, b: Result)
    requires IsJudgement(job, w, a) && IsJudgement(job, w, b)
    ensures a == b
  {
    if CompilePasses(job.setup, w) {
      NotLonger(job, w, a, b);
      NotLonger(job, w, b, a);
      assert a.tests == b.tests;
    }
  }

  lemma NotLonger(job: Job, w: World, a: Result, b: Result)
    requires IsJudgement(job, w, a) && IsJudgement(job, w, b) && CompilePasses(job.setup, w)
    ensures |b.tests| <= |a.tests|
    ensures forall i | 0 <= i < |b.tests| :: i < |a.tests| ==> a.tests[i] == b.tests[i]
  {
    if |a.tests| < |b.tests| {
      WhyItStopped(job, w, a);
      assert TestEndAt(job.setup, w, job.tests, |a.tests|).Done?;
      LazyResults(job, w, b, |a.tests| - 1);
      assert false;
    }
  }

  function OutputAt(res: Result, i: nat): Option<Bytes> {
    if i < |res.tests| then res.tests[i].output else None
  }

  /** Output is shown for a test exactly when the job asks for it. */
  lemma OutputOnlyWhereAsked(job: Job, w: World, res: Result, i: nat)
    requires IsJudgement(job, w, res)
    ensures OutputAt(res, i).Some? <==> i < |res.tests| && job.tests[i].showOutput
    ensures OutputAt(res, i).Some? ==> |OutputAt(res, i).value| <= 16384 + |TRUNCATED_NOTE|
  {
    if i < |res.tests| {
      assert TestEndAt(job.setup, w, job.tests, i) == Done(res.tests[i]);
    }
  }

  /** When output is shown only for tests that come before any hidden one, what is shown does not
      depend on the hidden tests: not on how many there are, nor on what their files hold. */
  lemma HiddenTestsDoNotShow(setup: Setup, runAll: bool, tests1: seq<Test>, w1: World, res1: Result,
                             tests2: seq<Test>, w2: World, res2: Result, hidden: nat, i: nat)
    requires SeeTheSame(w1, tests1, w2, tests2, hidden)
    requires forall k | hidden <= k < |tests1| :: !tests1[k].showOutput
    requires forall k | hidden <= k < |tests2| :: !tests2[k].showOutput
    requires IsJudgement(Job(setup, tests1, runAll), w1, res1) && IsJudgement(Job(setup, tests2, runAll), w2, res2)
    ensures OutputAt(res1, i) == OutputAt(res2, i)
  {
    var job1, job2 := Job(setup, tests1, runAll), Job(setup, tests2, runAll);
    OutputOnlyWhereAsked(job1, w1, res1, i);
    OutputOnlyWhereAsked(job2, w2, res2, i);
    if i < hidden && CompilePasses(setup, w1) {
      SameEnd(setup, w1, tests1, w2, tests2, hidden, i);
      if i < |res1.tests| {
        SameReach(job1, w1, res1, job2, w2, res2, hidden, i);
      } else if i < |res2.tests| {
        SameReach(job2, w2, res2, job1, w1, res1, hidden, i);
      }
    }
  }

  /** Among tests both see alike, one judgement reaches no further than the other. */
  lemma SameReach(job1: Job, w1: World, res1: Result, job2: Job, w2: World, res2: Result, n: nat, i: nat)
    requires SeeTheSame(w1, job1.tests, w2, job2.tests, n) && job1.setup == job2.setup && job1.runAll == job2.runAll
    requires IsJudgement(job1, w1, res1) && IsJudgement(job2, w2, res2) && CompilePasses(job1.setup, w1)
             && CompilePasses(job2.setup, w2)
    requires i < n && i < |res1.tests|
    ensures i < |res2.tests|
  {
    var m := |res2.tests|;
    if m <= i {
      SameEnd(job1.setup, w1, job1.tests, w2, job2.tests, n, m);
      WhyItStopped(job2, w2, res2);
      assert TestEndAt(job1.setup, w1, job1.tests, m) == Done(res1.tests[m]);
      SameEnd(job1.setup, w1, job1.tests, w2, job2.tests, n, m - 1);
      LazyResults(job1, w1, res1, m - 1);
      assert false;
    }
  }

  // ---- what a verdict says of the program -----------------------------------------------------

  /** The process ended of itself, reporting success, within its time, output and memory. */
  predicate EndedWell(out: Outcome, lim: Limits) {
    && out.signal.None? && (out.exitCode.None? || out.exitCode == Some(0))
    && !out.wallTimedOut && out.cpuMs <= lim.cpuMs && !out.outputExceeded
    && !out.memoryExceeded && (lim.memoryKb <= 0 || out.peakKb <= lim.memoryKb)
  }

  /** A run is good exactly when its process ended well. */
  lemma GoodEndings(out: Outcome, lim: Limits)
    ensures Classify(out, lim) == Accepted <==> EndedWell(out, lim)
  {
  }

  /** What the program did on test `k`, if the runner got it to run: it was given the test's input
      and asked after everything before it. */
  ghost predicate RanTo(job: Job, w: World, k: nat, out: Outcome)
    requires k < |job.tests|
  {
    var t := job.tests[k];
    w.files(t.input).Content? &&
    var asked := Request(job.setup.run, Some(w.files(t.input).bytes), job.setup.runLimits, job.setup.work, false);
    w.respond(HistoryAt(job.setup, w, job.tests, k), asked) == Ran(out)
  }

  /** On test `k` the program ended well, and its output is the answer as the job compares them. */
  ghost predicate RightAnswer(job: Job, w: World, k: nat)
    requires k < |job.tests|
  {
    var s, answer := job.setup, w.files(job.tests[k].answer);
    exists out :: RanTo(job, w, k, out) && EndedWell(out, s.runLimits) && answer.Content?
                  && OutputMatches(w.parse, out.output, answer.bytes, s.mode, s.tolerance, s.caseInsensitive)
  }

  /** It ended well, and its output is something else. */
  ghost predicate OtherAnswer(job: Job, w: World, k: nat)
    requires k < |job.tests|
  {
    var s, answer := job.setup, w.files(job.tests[k].answer);
    exists out :: RanTo(job, w, k, out) && EndedWell(out, s.runLimits) && answer.Content?
                  && !OutputMatches(w.parse, out.output, answer.bytes, s.mode, s.tolerance, s.caseInsensitive)
  }

  lemma TestVerdictMeaning(job: Job, w: World, k: nat)
    requires k < |job.tests|
    ensures var end := TestEndAt(job.setup, w, job.tests, k);
            && (Passes(end) <==> RightAnswer(job, w, k))
            && (end.Done? && end.result.verdict == WrongAnswer <==> OtherAnswer(job, w, k))
  {
    var s, t := job.setup, job.tests[k];
    if w.files(t.input).Content? {
      var attempt := w.respond(HistoryAt(s, w, job.tests, k), TestRequest(s, w.files(t.input).bytes));
      if attempt.Ran? {
        GoodEndings(attempt.outcome, s.runLimits);
        assert RanTo(job, w, k, attempt.outcome);
      }
    }
  }

  /** There is nothing to compile, or the compiler ran, ended of itself, reporting success, and
      within its time and memory. */
  ghost predicate Compiles(job: Job, w: World) {
    job.setup.compile == [] ||
    exists out ::
      && w.respond([], Request(job.setup.compile, None, job.setup.compileLimits, job.setup.work, true)) == Ran(out)
      && out.signal.None? && (out.exitCode.None? || out.exitCode == Some(0))
      && !out.wallTimedOut && out.cpuMs <= job.setup.compileLimits.cpuMs && !out.memoryExceeded
  }

  lemma CompilesMeaning(job: Job, w: World)
    ensures CompilePasses(job.setup, w) <==> Compiles(job, w)
  {
  }

  /** Accepted exactly when the program compiles and gives the right answer to every test. */
  lemma AcceptedMeansRightAnswers(job: Job, w: World, res: Result)
    requires IsJudgement(job, w, res)
    ensures res.verdict == Accepted <==>
              Compiles(job, w) && forall k | 0 <= k < |job.tests| :: RightAnswer(job, w, k)
  {
    AcceptedMeansEverythingPassed(job, w, res);
    CompilesMeaning(job, w);
    forall k | 0 <= k < |job.tests| ensures Passes(TestEndAt(job.setup, w, job.tests, k)) <==> RightAnswer(job, w, k) {
      TestVerdictMeaning(job, w, k);
    }
  }

  /** Every result reported is of its own test, and says the answer is right, or wrong, exactly when
      the program ended well and its output is, or is not, the answer. The nonce is the job's. */
  lemma ReportedVerdicts(job: Job, w: World, res: Result, k: nat)
    requires IsJudgement(job, w, res)
    ensures res.nonce == job.setup.nonce
    ensures k < |res.tests| ==>
              && k < |job.tests| && res.tests[k].name == job.tests[k].name
              && (res.tests[k].verdict == Accepted <==> RightAnswer(job, w, k))
              && (res.tests[k].verdict == WrongAnswer <==> OtherAnswer(job, w, k))
  {
    if k < |res.tests| {
      assert TestEndAt(job.setup, w, job.tests, k) == Done(res.tests[k]);
      TestVerdictMeaning(job, w, k);
    }
  }

  /** What a competitor sees of the compiler: the first 16 kB of its output, and, where it ran over its
      time or its memory, a line that says so at the end. */
  lemma CompileOutputMeaning(s: Setup, w: World, out: Outcome)
    requires s.compile != [] && w.respond([], CompileRequest(s)) == Ran(out)
    ensures var text := AfterCompile(s, w).compileOutput;
            && out.output[..if |out.output| < 16384 then |out.output| else 16384] <= text
            && |text| <= 16384 + |TRUNCATED_NOTE| + 40
            && AfterCompile(s, w).compileTimeMs == out.cpuMs
            && (out.wallTimedOut || out.cpuMs > s.compileLimits.cpuMs ==>
                  EndsWith(text, Ascii("Compilation took too long.")))
            && (!out.wallTimedOut && out.cpuMs <= s.compileLimits.cpuMs && out.memoryExceeded ==>
                  EndsWith(text, Ascii("Compilation used too much memory.")))
  {
    var text := TruncateText(out.output, COMPILE_OUTPUT_LIMIT);
    JoinNoteMeaning(text, TOOK_TOO_LONG);
    JoinNoteMeaning(text, USED_TOO_MUCH);
  }

  predicate EndsWith(text: Bytes, note: Bytes) {
    |note| <= |text| && text[|text| - |note|..] == note
  }

  lemma JoinNoteMeaning(text: Bytes, note: Bytes)
    ensures text <= JoinNote(text, note) && EndsWith(JoinNote(text, note), note)
    ensures |JoinNote(text, note)| <= |text| + 1 + |note|
  {
    if text != [] {
      assert JoinNote(text, note)[|text| + 1..] == note;
    }
  }
}
