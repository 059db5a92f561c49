/** The `/api/analyze` handler (server/routes.ts): for each submitted file,
    in order, run it, record its output and runtime error, and append the
    advisory errors and suggestions; then save the batch with the
    `improvedCode` map and answer with errors, suggestions and outputs.

    Writing and running the files, and the advisory call, are not modelled:
    each file comes with the outcome of running it and with the advisory
    result for it. */
module Routes {
  import opened Wrappers
  import opened Schema
  import opened Storage

  /** One entry of the request's `files`. */
  datatype FileInput = FileInput(name: string, content: string)

  /** What happened when the route wrote and ran one file: `exec` returned
      these streams, `exec` rejected with this message, or `writeFile`
      threw this message. */
  datatype RunOutcome =
    | Executed(stdout: string, stderr: string)
    | ExecFailed(message: string)
    | WriteFailed(message: string)

  /** The advisory result for one file (its errors and suggestions). */
  datatype Advice = Advice(errors: seq<ErrorEntry>, suggestions: seq<Suggestion>)

  /** One file with the outcome of running it and its advisory result. */
  datatype FileStep = FileStep(file: FileInput, run: RunOutcome, advice: Advice)

  /** `combinedAnalysis`: the response body. It has no metrics. */
  datatype Combined = Combined(errors: seq<ErrorEntry>, suggestions: seq<Suggestion>, output: map<string, string>)

  /** The record the route saves. */
  datatype SavedBatch = SavedBatch(
    files: seq<FileInput>,
    analysis: Combined,
    suggestions: seq<Suggestion>,
    improvedCode: map<string, string>,
    output: map<string, string>)

  /** The HTTP status and JSON body of the answer. */
  datatype Response = Response(status: int, body: Combined)

  /** The runtime error of a file that ran: present when it wrote to stderr,
      even if the run succeeded; a failed run gives the failure's message. */
  function RuntimeErrors(name: string, run: RunOutcome): (r: seq<ErrorEntry>)
    requires !run.WriteFailed?
    ensures |r| <= 1
    ensures |r| == 1 <==> run.ExecFailed? || run.stderr != ""
    ensures |r| == 1 ==>
      && r[0].kind == "runtime" && r[0].file == Some(name) && r[0].line == Some(1)
      && r[0].severity.None?
      && r[0].message == Some(if run.ExecFailed? then run.message else run.stderr)
  {
    match run
    case Executed(_, stderr) =>
      if stderr != "" then [ErrorEntry("runtime", Some(stderr), Some(name), Some(1), None, None)] else []
    case ExecFailed(message) => [ErrorEntry("runtime", Some(message), Some(name), Some(1), None, None)]
  }

  /** `output[file.name]` for a file that ran: stdout when non-empty, else
      stderr; the failure's message for a failed run. */
  function RunOutput(run: RunOutcome): string
    requires !run.WriteFailed?
  {
    match run
    case Executed(stdout, stderr) => if stdout != "" then stdout else stderr
    case ExecFailed(message) => message
  }

  /** The state of the loop: still going, or stopped by an exception. */
  datatype Progress = Going(combined: Combined) | Stopped(message: string)

  /** One turn of the loop body: a file that cannot be written stops the
      loop with its message; otherwise the file's findings are appended to
      what was collected, and its output is recorded. */
  function Step(p: Progress, s: FileStep): (r: Progress)
    ensures r.Going? <==> p.Going? && !s.run.WriteFailed?
    ensures p.Stopped? ==> r == p
    ensures p.Going? && s.run.WriteFailed? ==> r == Stopped(s.run.message)
    ensures r.Going? ==>
      && p.combined.errors <= r.combined.errors && p.combined.suggestions <= r.combined.suggestions
      && s.file.name in r.combined.output
  {
    match p
    case Stopped(_) => p
    case Going(c) =>
      if s.run.WriteFailed? then Stopped(s.run.message)
      else
        Going(Combined(
          c.errors + RuntimeErrors(s.file.name, s.run) + s.advice.errors,
          c.suggestions + s.advice.suggestions,
          c.output[s.file.name := RunOutput(s.run)]))
  }

  /** The loop over `steps`, from an empty `combinedAnalysis`. When it runs
      to the end, every file was written. */
  function Fold(steps: seq<FileStep>): (r: Progress)
    ensures r.Going? ==> forall i :: 0 <= i < |steps| ==> !steps[i].run.WriteFailed?
    decreases |steps|
  {
    if steps == [] then Going(Combined([], [], map[]))
    else
      var init := steps[..|steps| - 1];
      assert forall i :: 0 <= i < |init| ==> init[i] == steps[i];
      Step(Fold(init), steps[|steps| - 1])
  }

  /** The body of the 400 answer: one `execution` error, nothing else. */
  function ExecutionFailure(message: string): (c: Combined)
    ensures c.suggestions == [] && c.output == map[] && |c.errors| == 1
    ensures c.errors[0].kind == "execution" && c.errors[0].message == Some(message) && c.errors[0].file.None?
    ensures !ValidError(c.errors[0])
  {
    Combined([ErrorEntry("execution", Some(message), None, None, None, None)], [], map[])
  }

  /** A suggestion that the `improvedCode` reduce takes: its `file` and
      `code` are both present and non-empty (truthy). */
  predicate HasImprovedCode(s: Suggestion) {
    s.file.Some? && s.file.value != "" && s.code.Some? && s.code.value != ""
  }

  /** The `improvedCode` reduce over `suggestions`: only truthy file names
      and code get in. */
  function ImprovedCode(suggestions: seq<Suggestion>): (r: map<string, string>)
    ensures forall k :: k in r ==> k != "" && r[k] != ""
    decreases |suggestions|
  {
    if suggestions == [] then map[]
    else
      var acc := ImprovedCode(suggestions[..|suggestions| - 1]);
      var s := suggestions[|suggestions| - 1];
      if HasImprovedCode(s) then acc[s.file.value := s.code.value] else acc
  }

  /** The loop of the reduce. */
  method CollectImprovedCode(suggestions: seq<Suggestion>) returns (acc: map<string, string>)
    ensures acc == ImprovedCode(suggestions)
  {
    acc := map[];
    for i := 0 to |suggestions|
      invariant acc == ImprovedCode(suggestions[..i])
    {
      assert suggestions[..i + 1][..i] == suggestions[..i];
      var s := suggestions[i];
      if s.file.Some? && s.file.value != "" && s.code.Some? && s.code.value != "" {
        acc := acc[s.file.value := s.code.value];
      }
    }
    assert suggestions[..|suggestions|] == suggestions;
  }

  /** The answer of the handler for the files of `steps`: 400 exactly when
      some file could not be written, with the first such file's message. */
  function Handle(steps: seq<FileStep>): (r: Response)
    ensures r.status == 200 || r.status == 400
    ensures r.status == 400 <==> exists i :: 0 <= i < |steps| && steps[i].run.WriteFailed?
    ensures forall i | 0 <= i < |steps| && steps[i].run.WriteFailed? ::
      (forall j :: 0 <= j < i ==> !steps[j].run.WriteFailed?) ==>
        r == Response(400, ExecutionFailure(steps[i].run.message))
  {
    StoppedIffWriteFailed(steps);
    match Fold(steps)
    case Stopped(message) => Response(400, ExecutionFailure(message))
    case Going(c) => Response(200, c)
  }

  /** Once stopped, the loop stays stopped. */
  lemma {:induction false} StoppedStays(steps: seq<FileStep>, i: nat)
    requires i <= |steps| && Fold(steps[..i]).Stopped?
    ensures Fold(steps) == Fold(steps[..i])
    decreases |steps| - i
  {
    if i < |steps| {
      assert steps[..i + 1][..i] == steps[..i];
      StoppedStays(steps, i + 1);
    } else {
      assert steps[..i] == steps;
    }
  }

  /** Suggestion `s` supplies improved code for the file `name`. */
  predicate Supplies(s: Suggestion, name: string) {
    HasImprovedCode(s) && s.file.value == name
  }

  /** `improvedCode` has an entry for exactly the files some suggestion
      supplies code for. */
  lemma {:induction false} ImprovedCodeDomain(suggestions: seq<Suggestion>, name: string)
    ensures name in ImprovedCode(suggestions) <==>
      exists i :: 0 <= i < |suggestions| && Supplies(suggestions[i], name)
    decreases |suggestions|
  {
    if suggestions != [] {
      var n := |suggestions| - 1;
      var init := suggestions[..n];
      ImprovedCodeDomain(init, name);
      assert forall i :: 0 <= i < n ==> init[i] == suggestions[i];
    }
  }

  /** "The last suggestion with code wins": the entry of a file is the code
      of the last suggestion that supplies code for it. */
  lemma {:induction false} ImprovedCodeLastWins(suggestions: seq<Suggestion>, name: string, i: nat)
    requires i < |suggestions| && Supplies(suggestions[i], name)
    requires forall j :: i < j < |suggestions| ==> !Supplies(suggestions[j], name)
    ensures name in ImprovedCode(suggestions)
    ensures ImprovedCode(suggestions)[name] == suggestions[i].code.value
    decreases |suggestions|
  {
    var n := |suggestions| - 1;
    if i < n {
      var init := suggestions[..n];
      assert init[i] == suggestions[i];
      assert forall j :: i < j < n ==> init[j] == suggestions[j];
      ImprovedCodeLastWins(init, name, i);
    }
  }

  /** Processing stops exactly when some file could not be written, and the
      answer then carries the message of the first such file. */
  lemma {:induction false} StoppedIffWriteFailed(steps: seq<FileStep>)
    ensures Fold(steps).Stopped? <==> exists i :: 0 <= i < |steps| && steps[i].run.WriteFailed?
    ensures forall i | 0 <= i < |steps| && steps[i].run.WriteFailed? ::
      (forall j :: 0 <= j < i ==> !steps[j].run.WriteFailed?) ==>
        Fold(steps) == Stopped(steps[i].run.message)
    decreases |steps|
  {
    if steps != [] {
      var n := |steps| - 1;
      var init := steps[..n];
      StoppedIffWriteFailed(init);
      assert forall i :: 0 <= i < n ==> init[i] == steps[i];
    }
  }

  /** `output[name]` is present for exactly the files named `name`, and holds
      the output of the last of them. */
  lemma {:induction false} OutputLastWins(steps: seq<FileStep>, name: string)
    requires Fold(steps).Going?
    ensures name in Fold(steps).combined.output <==> exists i :: 0 <= i < |steps| && steps[i].file.name == name
    ensures forall i | 0 <= i < |steps| && steps[i].file.name == name ::
      (forall j :: i < j < |steps| ==> steps[j].file.name != name) ==>
        && !steps[i].run.WriteFailed? && name in Fold(steps).combined.output
        && Fold(steps).combined.output[name] == RunOutput(steps[i].run)
    decreases |steps|
  {
    if steps != [] {
      var n := |steps| - 1;
      var init := steps[..n];
      assert steps == init + [steps[n]];
      FoldLast(init, steps[n]);
      OutputLastWins(init, name);
      assert forall i :: 0 <= i < n ==> init[i] == steps[i];
      StoppedIffWriteFailed(steps);
    }
  }

  /** Files are processed in order and their findings are concatenated:
      the errors and suggestions of a batch are those of its first part
      followed by those of its second part, with nothing merged or dropped. */
  lemma {:induction false} FoldConcatenates(a: seq<FileStep>, b: seq<FileStep>)
    requires Fold(a + b).Going?
    ensures Fold(a).Going? && Fold(b).Going?
    ensures Fold(a + b).combined.errors == Fold(a).combined.errors + Fold(b).combined.errors
    ensures Fold(a + b).combined.suggestions == Fold(a).combined.suggestions + Fold(b).combined.suggestions
    decreases |b|
  {
    if b == [] {
      assert a + b == a;
    } else {
      var n := |b| - 1;
      assert a + b == a + b[..n] + [b[n]];
      assert b == b[..n] + [b[n]];
      FoldConcatenates(a, b[..n]);
      FoldConcatenatesStep(a, b[..n], b[n]);
    }
  }

  /** The inductive step of `FoldConcatenates`: one more file at the end. */
  lemma FoldConcatenatesStep(a: seq<FileStep>, b: seq<FileStep>, last: FileStep)
    requires Fold(a + b + [last]).Going?
    requires Fold(a + b).Going? ==> Fold(a).Going? && Fold(b).Going?
    requires Fold(a + b).Going? ==> Fold(a + b).combined.errors == Fold(a).combined.errors + Fold(b).combined.errors
    requires Fold(a + b).Going? ==>
      Fold(a + b).combined.suggestions == Fold(a).combined.suggestions + Fold(b).combined.suggestions
    ensures Fold(a).Going? && Fold(b + [last]).Going?
    ensures Fold(a + b + [last]).combined.errors == Fold(a).combined.errors + Fold(b + [last]).combined.errors
    ensures Fold(a + b + [last]).combined.suggestions
      == Fold(a).combined.suggestions + Fold(b + [last]).combined.suggestions
  {
    FoldLast(a + b, last);
    FoldLast(b, last);
    var x, y := Fold(a).combined, Fold(b).combined;
    var r := RuntimeErrors(last.file.name, last.run);
    Regroup(x.errors, y.errors, r);
    Regroup(x.errors, y.errors + r, last.advice.errors);
    Regroup(x.suggestions, y.suggestions, last.advice.suggestions);
  }

  /** Concatenation regrouped. */
  lemma Regroup<T>(x: seq<T>, y: seq<T>, z: seq<T>)
    ensures x + y + z == x + (y + z)
  {
  }

  /** A run is not stopped after its last file exactly when it was not
      stopped before it and that file could be written; the file then adds
      its runtime error, then its advisory errors, then its advisory
      suggestions. */
  lemma FoldLast(init: seq<FileStep>, last: FileStep)
    ensures Fold(init + [last]).Going? <==> Fold(init).Going? && !last.run.WriteFailed?
    ensures Fold(init + [last]).Going? ==>
      && Fold(init + [last]).combined.errors
         == Fold(init).combined.errors + RuntimeErrors(last.file.name, last.run) + last.advice.errors
      && Fold(init + [last]).combined.suggestions == Fold(init).combined.suggestions + last.advice.suggestions
      && Fold(init + [last]).combined.output == Fold(init).combined.output[last.file.name := RunOutput(last.run)]
  {
    assert (init + [last])[..|init|] == init;
  }

  /** One file alone: its runtime error (if any) comes before its advisory
      errors, and its output is recorded under its name. */
  lemma OneFile(step: FileStep)
    requires !step.run.WriteFailed?
    ensures Fold([step]) == Going(Combined(RuntimeErrors(step.file.name, step.run) + step.advice.errors,
                                           step.advice.suggestions,
                                           map[step.file.name := RunOutput(step.run)]))
  {
    assert [step][..0] == [];
  }

  /** The `/api/analyze` handler after request validation: the loop over the
      files, then (when no exception stopped it) the save and the answer. */
  method AnalyzeFiles(store: MemStorage<SavedBatch>, steps: seq<FileStep>) returns (response: Response)
    requires store.Valid()
    modifies store
    ensures store.Valid()
    ensures response == Handle(steps)
    ensures response.status == 200 ==>
      && store.currentId == old(store.currentId) + 1
      && store.analyses == old(store.analyses)[old(store.currentId) := Stored(old(store.currentId),
           SavedBatch(seq(|steps|, i requires 0 <= i < |steps| => steps[i].file), response.body,
                      response.body.suggestions, ImprovedCode(response.body.suggestions), response.body.output))]
    ensures response.status != 200 ==> store.analyses == old(store.analyses) && store.currentId == old(store.currentId)
  {
    var errors: seq<ErrorEntry> := [];
    var suggestions: seq<Suggestion> := [];
    var output: map<string, string> := map[];
    for i := 0 to |steps|
      invariant Fold(steps[..i]) == Going(Combined(errors, suggestions, output))
    {
      assert steps[..i + 1][..i] == steps[..i];
      var step := steps[i];
      var name := step.file.name;
      match step.run {
        case WriteFailed(message) =>
          StoppedStays(steps, i + 1);
          return Response(400, ExecutionFailure(message));
        case Executed(stdout, stderr) =>
          output := output[name := if stdout != "" then stdout else stderr];
          if stderr != "" {
            errors := errors + [ErrorEntry("runtime", Some(stderr), Some(name), Some(1), None, None)];
          }
        case ExecFailed(message) =>
          errors := errors + [ErrorEntry("runtime", Some(message), Some(name), Some(1), None, None)];
          output := output[name := message];
      }
      errors := errors + step.advice.errors;
      suggestions := suggestions + step.advice.suggestions;
    }
    assert steps[..|steps|] == steps;
    var combined := Combined(errors, suggestions, output);
    var improved := CollectImprovedCode(suggestions);
    var files := seq(|steps|, i requires 0 <= i < |steps| => steps[i].file);
    var _ := store.SaveAnalysis(SavedBatch(files, combined, suggestions, improved, output));
    response := Response(200, combined);
  }
}
