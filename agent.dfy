/** The analysis agent (server/services/agent.ts, class `IDEAgent`): the
    executor table, the name of the file that is run, the merge of the
    advisory result with the execution outcome, and the per-file history.

    Running the code (temporary directory, `writeFile`, `execFile`, the
    clock and the heap sample) is not modelled: `AnalyzeCode` receives a
    function `run` that gives the outcome of running an executor on a file. */
module Agent {
  import opened Wrappers
  import opened Text
  import opened Schema
  import opened ReplyParser

  /* ---------------------------------------------------------------------- */
  /* Executors and file names                                               */
  /* ---------------------------------------------------------------------- */

  /** The table has an entry for `l`. */
  lemma ListedExecutor(l: Language, table: map<Language, string>)
    requires table == map[Python := "python", JavaScript := "node", TypeScript := "tsx",
                          Java := "java", Cpp := "g++", Go := "go", Rust := "rustc"]
    ensures l in table && table[l] != ""
  {
    match l
    case Python => case JavaScript => case TypeScript => case Java =>
    case Cpp => case Go => case Rust =>
  }

  /** `executionEnvironments` as the constructor fills it: the interpreter
      or compiler invoked for each language. It has an entry for every
      language, so the "Unsupported language" error of `executeCode` cannot
      be raised for a parsed submission. */
  function ExecutorTable(): (table: map<Language, string>)
    ensures forall l: Language :: l in table && table[l] != ""
  {
    var table := map[Python := "python", JavaScript := "node", TypeScript := "tsx",
                     Java := "java", Cpp := "g++", Go := "go", Rust := "rustc"];
    assert forall l: Language :: l in table && table[l] != "" by {
      forall l: Language ensures l in table && table[l] != "" {
        ListedExecutor(l, table);
      }
    }
    table
  }

  /** The extension `getExecutableFilename` gives each language. */
  function Extension(l: Language): (ext: string)
    ensures ext != [] && '.' !in ext
  {
    match l
    case Python => "py"
    case JavaScript => "js"
    case TypeScript => "ts"
    case Java => "java"
    case Cpp => "cpp"
    case Go => "go"
    case Rust => "rs"
  }

  /** `filename.split('.')[0]`: the part of the name before its first dot. */
  function BaseName(filename: string): (base: string)
    ensures '.' !in base
    ensures |base| <= |filename| && base == filename[..|base|]
    ensures |base| == |filename| || filename[|base|] == '.'
  {
    Split(filename, '.')[0]
  }

  /** `getExecutableFilename(filename, language)`: the name the code is
      written to, whatever extension the submitted name had. */
  function ExecutableFilename(filename: string, l: Language): (name: string)
    ensures exists k :: (0 <= k < |name| && name[k] == '.' && '.' !in name[..k] && '.' !in name[k + 1..]
                         && name[..k] == BaseName(filename) && name[k + 1..] == Extension(l))
  {
    var base := BaseName(filename);
    assert (base + "." + Extension(l))[..|base|] == base;
    assert (base + "." + Extension(l))[|base| + 1..] == Extension(l);
    base + "." + Extension(l)
  }

  /* ---------------------------------------------------------------------- */
  /* Merging                                                                */
  /* ---------------------------------------------------------------------- */

  /** What `executeCode` returns: the observed output (stdout, or stderr when
      stdout is empty), the elapsed time and the heap sample. */
  datatype Execution = Execution(output: string, executionTime: real, memoryUsage: real)

  /** The outcome of running one submission: the process ran and produced
      these streams and measurements, or a step of `executeCode` raised an
      error (its message, absent when the thrown value was not an `Error`). */
  datatype ExecOutcome =
    | Ran(stdout: string, stderr: string, executionTime: real, memoryUsage: real)
    | Failed(message: Option<string>)

  /** `{ output: stdout || stderr, execution_time, memory_usage }` */
  function Observed(o: ExecOutcome): (ex: Execution)
    requires o.Ran?
    ensures ex.output == (if o.stdout != "" then o.stdout else o.stderr)
    ensures ex.executionTime == o.executionTime && ex.memoryUsage == o.memoryUsage
    ensures ex.output == "" <==> o.stdout == "" && o.stderr == ""
    ensures !LooksLikeError(ex.output) <==>
      (o.stdout != "" && !Contains(LowerAscii(o.stdout), "error")) || (o.stdout == "" && !LooksLikeError(o.stderr))
  {
    Execution(if o.stdout != "" then o.stdout else o.stderr, o.executionTime, o.memoryUsage)
  }

  /** The heuristic of `enhanceResults`: the output is non-empty and its lower-case form contains "error". */
  predicate LooksLikeError(output: string) {
    output != "" && Contains(LowerAscii(output), "error")
  }

  /** The error `enhanceResults` appends for output that looks like an error: no file, line 0. */
  function RuntimeError(output: string): ErrorEntry {
    ErrorEntry("RUNTIME", Some(output), None, Some(0), None, Some("error"))
  }

  /** `enhanceResults(analysis, staticAnalysis, executionResult)`. */
  function Enhance(st: AnalysisResult, ex: Execution): (r: AnalysisResult)
    ensures r.suggestions == st.suggestions && r.executionOutput == st.executionOutput
    ensures r.output == Some(ex.output)
    ensures r.metrics.Some?
    ensures r.metrics.value.executionTime == Some(ex.executionTime)
    ensures r.metrics.value.memoryUsage == Some(ex.memoryUsage)
    ensures r.metrics.value.complexity == (if st.metrics.Some? then st.metrics.value.complexity else None)
    ensures |r.errors| == |st.errors| + (if LooksLikeError(ex.output) then 1 else 0)
    ensures r.errors[..|st.errors|] == st.errors
    ensures LooksLikeError(ex.output) ==> r.errors[|st.errors|] == RuntimeError(ex.output)
  {
    var complexity := if st.metrics.Some? then st.metrics.value.complexity else None;
    var errors := if LooksLikeError(ex.output) then st.errors + [RuntimeError(ex.output)] else st.errors;
    assert errors[..|st.errors|] == st.errors;
    AnalysisResult(errors, st.suggestions,
                   Some(Metrics(Some(ex.executionTime), Some(ex.memoryUsage), complexity)),
                   st.executionOutput, Some(ex.output))
  }

  /** The merged result conforms to the schema exactly when the advisory
      result did and no runtime error was appended: the appended error has
      no file, which the error schema requires. */
  lemma EnhanceValidity(st: AnalysisResult, ex: Execution)
    ensures ValidResult(Enhance(st, ex)) <==> ValidResult(st) && !LooksLikeError(ex.output)
  {
    var r := Enhance(st, ex);
    if LooksLikeError(ex.output) {
      assert !ValidError(r.errors[|st.errors|]);
    } else {
      assert r.errors == st.errors;
    }
  }

  /** The result `analyzeCode` returns when a step raised an error. */
  function AgentErrorResult(message: Option<string>, filename: string): (r: AnalysisResult)
    ensures |r.errors| == 1 && r.suggestions == [] && r.metrics == Some(ZeroMetrics)
    ensures r.errors[0].kind == "agent_error" && r.errors[0].file == Some(filename)
    ensures r.errors[0].severity == Some("error")
    ensures r.errors[0].message == Some(if message.Some? then message.value else "Unknown error occurred")
    ensures ValidResult(r)
  {
    AnalysisResult([ErrorEntry("agent_error", Some(message.GetOr("Unknown error occurred")), Some(filename), None, None, Some("error"))],
                   [], Some(ZeroMetrics), None, None)
  }

  /* ---------------------------------------------------------------------- */
  /* History                                                                */
  /* ---------------------------------------------------------------------- */

  /** The results recorded for `filename` (none when it was never analysed). */
  function HistoryIn(history: map<string, seq<AnalysisResult>>, filename: string): seq<AnalysisResult> {
    if filename in history then history[filename] else []
  }

  /** `learnFromAnalysis` on the history map: `result` is appended to the
      sequence of `filename`, created empty if missing. */
  function Recorded(history: map<string, seq<AnalysisResult>>, filename: string, result: AnalysisResult)
    : (h: map<string, seq<AnalysisResult>>)
    ensures h.Keys == history.Keys + {filename}
    ensures HistoryIn(h, filename) == HistoryIn(history, filename) + [result]
    ensures forall f :: f != filename ==> HistoryIn(h, f) == HistoryIn(history, f)
  {
    history[filename := HistoryIn(history, filename) + [result]]
  }

  class IDEAgent {
    var executionEnvironments: map<Language, string>
    var learningData: map<string, seq<AnalysisResult>>

    ghost predicate Valid()
      reads this
    {
      executionEnvironments == ExecutorTable()
    }

    constructor ()
      ensures Valid() && learningData == map[]
    {
      executionEnvironments := ExecutorTable();
      learningData := map[];
    }

    /** The results recorded so far for `filename`, oldest first. */
    function History(filename: string): seq<AnalysisResult>
      reads this
    {
      HistoryIn(learningData, filename)
    }

    /** `learnFromAnalysis(filename, result)` */
    method LearnFromAnalysis(filename: string, result: AnalysisResult)
      modifies this`learningData
      ensures learningData == Recorded(old(learningData), filename, result)
      ensures History(filename) == old(History(filename)) + [result]
      ensures forall f :: f != filename ==> History(f) == old(History(f))
    {
      if filename !in learningData {
        learningData := learningData[filename := []];
      }
      learningData := learningData[filename := learningData[filename] + [result]];
    }

    /** `analyzeCode(analysis)`: the advisory result for the service's answer
        `reply`, then the execution of the file with the language's executor,
        then the merge, then the history. An error raised by the execution
        step becomes a single `agent_error` and nothing is recorded. */
    method AnalyzeCode(analysis: CodeAnalysis, reply: Reply,
                       run: (string, string, string) -> ExecOutcome) returns (result: AnalysisResult)
      requires Valid()
      modifies this`learningData
      ensures Valid()
      ensures var outcome := run(ExecutorTable()[analysis.language],
                                 ExecutableFilename(analysis.filename, analysis.language), analysis.code);
        match outcome
        case Failed(message) =>
          result == AgentErrorResult(message, analysis.filename) && learningData == old(learningData)
        case Ran(_, _, _, _) =>
          && result == Enhance(StaticAnalysis(reply, analysis.filename), Observed(outcome))
          && learningData == Recorded(old(learningData), analysis.filename, result)
    {
      var staticAnalysis := PerformStaticAnalysis(reply, analysis.filename);
      var executor := executionEnvironments[analysis.language];
      var outcome := run(executor, ExecutableFilename(analysis.filename, analysis.language), analysis.code);
      if outcome.Failed? {
        return AgentErrorResult(outcome.message, analysis.filename);
      }
      result := Enhance(staticAnalysis, Observed(outcome));
      LearnFromAnalysis(analysis.filename, result);
    }
  }
}
