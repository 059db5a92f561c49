/** The data model of the agent (shared/agent-schema.ts): the language enum,
    the submission, and the analysis result with its errors, suggestions and
    metrics. The zod schemas become datatypes; an optional key becomes an
    `Option` field, and what the schemas demand beyond the shape of the data
    becomes the `Valid…` predicates. A JSON number is a `real`; line and
    column numbers are `int`. The key `type` is spelled `kind` (`type` is a
    Dafny keyword). */
module Schema {
  import opened Wrappers

  /** `languageSchema` */
  datatype Language = Python | JavaScript | TypeScript | Java | Cpp | Go | Rust

  /** Every language, in the order the enum lists them. */
  const AllLanguages: seq<Language> := [Python, JavaScript, TypeScript, Java, Cpp, Go, Rust]

  /** The string that stands for `l` in JSON. */
  function LanguageName(l: Language): string {
    match l
    case Python => "python"
    case JavaScript => "javascript"
    case TypeScript => "typescript"
    case Java => "java"
    case Cpp => "cpp"
    case Go => "go"
    case Rust => "rust"
  }

  /** `languageSchema.safeParse(s)`: the language named `s`, if any. */
  function ParseLanguage(s: string): (r: Option<Language>)
    ensures r.Some? ==> LanguageName(r.value) == s
  {
    if s == "python" then Some(Python)
    else if s == "javascript" then Some(JavaScript)
    else if s == "typescript" then Some(TypeScript)
    else if s == "java" then Some(Java)
    else if s == "cpp" then Some(Cpp)
    else if s == "go" then Some(Go)
    else if s == "rust" then Some(Rust)
    else None
  }

  /** The optional `context` of a submission. */
  datatype Context = Context(
    projectRoot: string,
    dependencies: Option<map<string, string>>,
    environment: Option<map<string, string>>)

  /** `codeAnalysisSchema`: one submitted file. */
  datatype CodeAnalysis = CodeAnalysis(
    code: string,
    language: Language,
    filename: string,
    context: Option<Context>)

  /** One entry of `errors`. The schema requires `message` and `file`; the
      agent's runtime error leaves out the file, the route's errors may lack
      it, and an error result built from a thrown value without a message
      lacks the message, so both are optional here and `ValidError` demands
      them. */
  datatype ErrorEntry = ErrorEntry(
    kind: string,
    message: Option<string>,
    file: Option<string>,
    line: Option<int>,
    column: Option<int>,
    severity: Option<string>)

  /** One entry of `suggestions`. `severity` is not a key of the schema (zod
      drops unknown keys), but the agent's parser writes it. */
  datatype Suggestion = Suggestion(
    kind: string,
    message: string,
    file: Option<string>,
    code: Option<string>,
    line: Option<int>,
    performanceImpact: Option<string>,
    confidence: Option<real>,
    severity: Option<string>)

  /** `metrics`: every field optional. */
  datatype Metrics = Metrics(
    executionTime: Option<real>,
    memoryUsage: Option<real>,
    complexity: Option<real>)

  /** `analysisResultSchema`. `output` is not a key of the schema (whose key
      is `execution_output`), but the agent sets it on every merged result. */
  datatype AnalysisResult = AnalysisResult(
    errors: seq<ErrorEntry>,
    suggestions: seq<Suggestion>,
    metrics: Option<Metrics>,
    executionOutput: Option<string>,
    output: Option<string>)

  /** The three severities the schema admits. */
  predicate ValidSeverity(s: string) {
    s == "error" || s == "warning" || s == "info"
  }

  predicate ValidError(e: ErrorEntry) {
    e.message.Some? && e.file.Some? && (e.severity.Some? ==> ValidSeverity(e.severity.value))
  }

  predicate ValidSuggestion(s: Suggestion) {
    s.file.Some?
  }

  /** The result conforms to `analysisResultSchema`. */
  predicate ValidResult(r: AnalysisResult) {
    && (forall i :: 0 <= i < |r.errors| ==> ValidError(r.errors[i]))
    && (forall i :: 0 <= i < |r.suggestions| ==> ValidSuggestion(r.suggestions[i]))
  }

  /** The enum has exactly seven members, and parsing a language's name gives
      that language back. */
  lemma {:induction false} LanguageEnum(l: Language)
    ensures l in AllLanguages && |AllLanguages| == 7
    ensures forall i, j :: 0 <= i < j < |AllLanguages| ==> AllLanguages[i] != AllLanguages[j]
    ensures ParseLanguage(LanguageName(l)) == Some(l)
  {
    match l
    case Python =>
    case JavaScript =>
    case TypeScript =>
    case Java =>
    case Cpp =>
    case Go =>
    case Rust =>
  }
}
