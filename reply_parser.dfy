/** The advisory-reply parser of the agent (server/services/agent.ts,
    `performStaticAnalysis` and `createErrorResult`): the language model's
    free-text reply is cut into `ERRORS:`, `SUGGESTIONS:` and `METRICS:`
    sections, each finding line is matched against
    `TYPE: message [SEVERITY] (line N)`, and the metrics are read from
    `COMPLEXITY:`, `MEMORY:` and `TIME:` keys.

    The regular expressions become deterministic functions that pick the same
    match a leftmost, backtracking regular-expression engine picks (see
    `MatchFinding`). The service call itself is not modelled: its answer is
    the parameter `reply`. */
module ReplyParser {
  import opened Wrappers
  import opened Text
  import opened Schema

  /** What the service call produced: the text of the first generation, absent
      when the response has none, or the `message` of the value the call was
      rejected with, absent when that value has no string `message` (it is
      not an `Error`). */
  datatype Reply = Generated(text: Option<string>) | ServiceFailed(message: Option<string>)

  /* ---------------------------------------------------------------------- */
  /* Sections                                                               */
  /* ---------------------------------------------------------------------- */

  /** Alternatives and lookahead terminators of the three section patterns. */
  const ErrorHeaders: seq<string> := ["ERRORS:", "TYPE:"]
  const ErrorTerminators: seq<string> := ["SUGGESTIONS:", "METRICS:", "END"]
  const SuggestionHeaders: seq<string> := ["SUGGESTIONS:"]
  const SuggestionTerminators: seq<string> := ["METRICS:", "END"]
  const MetricsHeaders: seq<string> := ["METRICS:"]
  const MetricsTerminators: seq<string> := ["DESCRIPTION:", "END"]

  /** The first of `pats[from..]` that occurs at `i` in `s`, ignoring case. */
  function PatternFrom(s: string, pats: seq<string>, i: nat, from: nat): (k: Option<nat>)
    requires from <= |pats|
    ensures k.Some? ==> from <= k.value < |pats| && OccursCIAt(s, pats[k.value], i)
    ensures forall j :: from <= j < |pats| && (k.None? || j < k.value) ==> !OccursCIAt(s, pats[j], i)
    decreases |pats| - from
  {
    if from == |pats| then None
    else if OccursCIAt(s, pats[from], i) then Some(from)
    else PatternFrom(s, pats, i, from + 1)
  }

  /** The alternative of `pats` that a regular expression `(?:P0|P1|…)/i` takes at `i`. */
  function PatternAt(s: string, pats: seq<string>, i: nat): Option<nat> {
    PatternFrom(s, pats, i, 0)
  }

  /** The leftmost position at or after `from` where one of `pats` occurs
      (ignoring case), with the alternative that matches there. */
  function FindCI(s: string, pats: seq<string>, from: nat): (r: Option<(nat, nat)>)
    requires from <= |s|
    ensures r.Some? ==> from <= r.value.0 <= |s| && PatternAt(s, pats, r.value.0) == Some(r.value.1)
    ensures forall q :: from <= q <= |s| && (r.None? || q < r.value.0) ==> PatternAt(s, pats, q).None?
    decreases |s| - from
  {
    match PatternAt(s, pats, from)
    case Some(k) => Some((from, k))
    case None => if from == |s| then None else FindCI(s, pats, from + 1)
  }

  /** Capture group 1 of `s.match(/(?:H…)([^]*?)(?=T…|$)/i)`: the text from
      the end of the leftmost header to the first terminator after it, or to
      the end of `s`; `None` when no header occurs. */
  function Section(s: string, headers: seq<string>, terminators: seq<string>): (r: Option<string>)
  {
    match FindCI(s, headers, 0)
    case None => None
    case Some((p, k)) =>
      var h := p + |headers[k]|;
      var e := match FindCI(s, terminators, h) case None => |s| case Some((q, _)) => q;
      Some(s[h..e])
  }

  /** The lines of a section that the parser walks: none when the section is
      missing or empty, else the lines of its trimmed text. */
  function SectionLines(section: Option<string>): seq<string> {
    if section.Some? && section.value != "" then Split(Trim(section.value), '\n') else []
  }

  /* ---------------------------------------------------------------------- */
  /* Finding lines                                                          */
  /* ---------------------------------------------------------------------- */

  /** The four capture groups of the finding pattern, normalised as the
      parser stores them: type trimmed and lower-cased, message trimmed,
      severity lower-cased, line number parsed when present. */
  datatype Fields = Fields(kind: string, message: string, severity: string, line: Option<int>)

  /** `\[(\w+)\]` matches at `b`. */
  predicate TokenAt(s: string, b: nat) {
    b < |s| && s[b] == '[' &&
    var e := SkipWordChars(s, b + 1); b + 1 < e < |s| && s[e] == ']'
  }

  /** The leftmost `[word]` at or after `from`. */
  function FirstToken(s: string, from: nat): (r: Option<nat>)
    requires from <= |s|
    ensures r.Some? ==> from <= r.value < |s| && TokenAt(s, r.value)
    ensures forall b :: from <= b < |s| && (r.None? || b < r.value) ==> !TokenAt(s, b)
    decreases |s| - from
  {
    if from == |s| then None
    else if TokenAt(s, from) then Some(from)
    else FirstToken(s, from + 1)
  }

  /** `\s*(?:\(line\s*(\d+)\))?` at the start of `s`: the line number when
      the parenthetical is there. */
  function LineNumber(s: string): Option<int> {
    var j := SkipSpaces(s, 0);
    if OccursCIAt(s, "(line", j) then
      var d := SkipSpaces(s, j + 5);
      var e := SkipDigits(s, d);
      if d < e < |s| && s[e] == ')' then
        assert AllDigits(s[d..e]);
        Some(DigitsValue(s[d..e]))
      else None
    else None
  }

  /** `([^:]+):\s*(.+?)\s*\[(\w+)\]\s*(?:\(line\s*(\d+)\))?` anchored at the
      start of `s`: the type runs to the first colon. */
  function MatchBody(s: string): Option<Fields> {
    if ':' !in s then None
    else
      var c := IndexOf(s, ':');
      if c == 0 then None else AfterColon(s[..c], s[c + 1..])
  }

  /** The rest of the finding pattern once the type `kind` and its colon are
      taken: `\s*(.+?)\s*\[(\w+)\]\s*(?:\(line\s*(\d+)\))?` on `rest`. */
  function AfterColon(kind: string, rest: string): Option<Fields> {
    match SeverityToken(rest)
    case None => None
    case Some(b) => Some(FieldsAt(kind, rest, b))
  }

  /** Where `\s*(.+?)\s*\[(\w+)\]` finds its bracket in `rest`: the lazy
      message ends before the first `[word]` that leaves it at least one
      character after the white space `w`; when there is none, giving back
      one space of `w` lets a `[word]` right after `w` end an empty message. */
  function SeverityToken(rest: string): (r: Option<nat>)
    ensures r.Some? ==> 1 <= r.value && TokenAt(rest, r.value)
    ensures r.Some? <==> exists b :: 1 <= b < |rest| && TokenAt(rest, b)
    ensures r.Some? ==> forall b :: SkipSpaces(rest, 0) + 1 <= b < r.value ==> !TokenAt(rest, b)
    ensures r.Some? && r.value == SkipSpaces(rest, 0) ==>
      forall b :: SkipSpaces(rest, 0) + 1 <= b < |rest| ==> !TokenAt(rest, b)
  {
    var w := SkipSpaces(rest, 0);
    var first := if w < |rest| then FirstToken(rest, w + 1) else None;
    if first.Some? then first else if w >= 1 && TokenAt(rest, w) then Some(w) else None
  }

  /** The fields of a match whose severity bracket is at `b`. */
  function FieldsAt(kind: string, rest: string, b: nat): Fields
    requires TokenAt(rest, b)
  {
    var e := SkipWordChars(rest, b + 1);
    Fields(LowerAscii(Trim(kind)), Trim(rest[..b]), LowerAscii(rest[b + 1..e]), LineNumber(rest[e + 1..]))
  }

  /** `s` without its leading colons: the first position where `[^:]+` can start. */
  function DropColons(s: string): (r: string)
    ensures |r| <= |s| && r == s[|s| - |r|..]
    ensures r == [] || r[0] != ':'
    ensures forall i :: 0 <= i < |s| - |r| ==> s[i] == ':'
  {
    if |s| > 0 && s[0] == ':' then
      var r := DropColons(s[1..]);
      assert forall i :: 1 <= i < |s| - |r| ==> s[i] == s[1..][i - 1];
      r
    else s
  }

  /** `line.match(/(?:TYPE:\s*)?([^:]+):\s*(.+?)\s*\[(\w+)\]\s*(?:\(line\s*(\d+)\))?/i)`.
      The leftmost match starts at the first character that is not a colon;
      there the optional `TYPE:` prefix is tried first. If no match starts
      there, none starts later either: every later start sees a suffix of
      the same text after a colon. */
  function MatchFinding(line: string): Option<Fields> {
    var s := DropColons(line);
    if StartsWithCI(s, "TYPE:") && MatchBody(s[5..]).Some? then MatchBody(s[5..]) else MatchBody(s)
  }

  /** A trimmed line without its `- ` bullet. */
  function CleanLine(t: string): string {
    if StartsWith(t, "- ") then t[2..] else t
  }

  /** What the parser takes from one raw line of a section whose header is
      `header`: nothing for a blank line or a line that is just the header,
      else the match of the finding pattern on the cleaned line. */
  function LineFields(raw: string, header: string): Option<Fields> {
    var t := Trim(raw);
    if t == "" || t == header then None else MatchFinding(CleanLine(t))
  }

  /** The error entry pushed for a matched line. */
  function ErrorOf(f: Fields, filename: string): ErrorEntry {
    ErrorEntry(f.kind, Some(f.message), Some(filename), f.line, None, Some(f.severity))
  }

  /** The suggestion pushed for a matched line. */
  function SuggestionOf(f: Fields, filename: string): Suggestion {
    Suggestion(f.kind, f.message, Some(filename), None, f.line, None, None, Some(f.severity))
  }

  /** The errors parsed from `lines`, in line order. */
  function ParsedErrors(lines: seq<string>, filename: string): (r: seq<ErrorEntry>)
    ensures |r| <= |lines|
    ensures forall i :: 0 <= i < |r| ==>
      r[i].message.Some? && r[i].file == Some(filename) && r[i].severity.Some? && r[i].column.None?
    decreases |lines|
  {
    if lines == [] then []
    else
      var init := ParsedErrors(lines[..|lines| - 1], filename);
      match LineFields(lines[|lines| - 1], "ERRORS:")
      case None => init
      case Some(f) => init + [ErrorOf(f, filename)]
  }

  /** The suggestions parsed from `lines`, in line order. */
  function ParsedSuggestions(lines: seq<string>, filename: string): (r: seq<Suggestion>)
    ensures |r| <= |lines|
    ensures forall i :: 0 <= i < |r| ==>
      r[i].file == Some(filename) && r[i].severity.Some? && r[i].code.None?
    decreases |lines|
  {
    if lines == [] then []
    else
      var init := ParsedSuggestions(lines[..|lines| - 1], filename);
      match LineFields(lines[|lines| - 1], "SUGGESTIONS:")
      case None => init
      case Some(f) => init + [SuggestionOf(f, filename)]
  }

  /* ---------------------------------------------------------------------- */
  /* Metrics                                                                */
  /* ---------------------------------------------------------------------- */

  /** `/KEY\s*(\d+)/i` at `p`: the value of the digit run when the key, optional
      white space and at least one digit follow. */
  function MetricAt(s: string, key: string, p: nat): Option<nat> {
    if OccursCIAt(s, key, p) then
      var d := SkipSpaces(s, p + |key|);
      var e := SkipDigits(s, d);
      if d < e then
        assert AllDigits(s[d..e]);
        Some(DigitsValue(s[d..e]))
      else None
    else None
  }

  /** The leftmost position at or after `from` where `MetricAt` matches. */
  function MetricPosition(s: string, key: string, from: nat): (r: Option<nat>)
    requires from <= |s|
    ensures r.Some? ==> from <= r.value <= |s| && MetricAt(s, key, r.value).Some?
    ensures forall p :: from <= p <= |s| && (r.None? || p < r.value) ==> MetricAt(s, key, p).None?
    decreases |s| - from
  {
    if MetricAt(s, key, from).Some? then Some(from)
    else if from == |s| then None
    else MetricPosition(s, key, from + 1)
  }

  /** `match ? parseInt(match[1]) : 0` */
  function MetricValue(s: string, key: string): nat {
    match MetricPosition(s, key, 0)
    case None => 0
    case Some(p) => MetricAt(s, key, p).value
  }

  /** The metrics of a result before anything was parsed. */
  const ZeroMetrics: Metrics := Metrics(Some(0.0), Some(0.0), Some(0.0))

  /** The metrics read from a non-empty `METRICS:` section. */
  function ParsedMetrics(section: string): Metrics {
    Metrics(Some(MetricValue(section, "TIME:") as real),
            Some(MetricValue(section, "MEMORY:") as real),
            Some(MetricValue(section, "COMPLEXITY:") as real))
  }

  /* ---------------------------------------------------------------------- */
  /* The whole reply                                                        */
  /* ---------------------------------------------------------------------- */

  /** `createErrorResult(message, filename)`; `message` is absent when the
      caller passed `undefined`. */
  function ErrorResult(message: Option<string>, filename: string): (r: AnalysisResult)
    ensures |r.errors| == 1 && r.suggestions == [] && r.metrics == Some(ZeroMetrics)
    ensures r.errors[0].kind == "analysis_error" && r.errors[0].message == message
    ensures r.errors[0].file == Some(filename) && r.errors[0].severity == Some("error")
    ensures ValidResult(r) <==> message.Some?
  {
    AnalysisResult([ErrorEntry("analysis_error", message, Some(filename), None, None, Some("error"))],
                   [], Some(ZeroMetrics), None, None)
  }

  /** The result parsed from a non-empty reply text. */
  function ParseText(text: string, filename: string): AnalysisResult {
    var t := Trim(text);
    var m := Section(t, MetricsHeaders, MetricsTerminators);
    AnalysisResult(
      ParsedErrors(SectionLines(Section(t, ErrorHeaders, ErrorTerminators)), filename),
      ParsedSuggestions(SectionLines(Section(t, SuggestionHeaders, SuggestionTerminators)), filename),
      Some(if m.Some? && m.value != "" then ParsedMetrics(m.value) else ZeroMetrics),
      None, None)
  }

  /** The result of `performStaticAnalysis` for the service's answer `reply`. */
  function StaticAnalysis(reply: Reply, filename: string): (r: AnalysisResult)
    ensures forall i :: 0 <= i < |r.errors| ==> r.errors[i].file == Some(filename) && r.errors[i].severity.Some?
    ensures reply.Generated? || reply.message.Some? ==>
      forall i :: 0 <= i < |r.errors| ==> r.errors[i].message.Some?
    ensures forall i :: 0 <= i < |r.suggestions| ==> r.suggestions[i].file == Some(filename)
    ensures r.metrics.Some? && r.executionOutput.None? && r.output.None?
    ensures reply.ServiceFailed? || reply.text.None? || reply.text.value == "" ==>
      && |r.errors| == 1 && r.suggestions == [] && r.metrics == Some(ZeroMetrics)
      && r.errors[0].kind == "analysis_error" && r.errors[0].severity == Some("error")
      && r.errors[0].message == (if reply.ServiceFailed? then reply.message else Some("No analysis generated"))
  {
    match reply
    case ServiceFailed(message) => ErrorResult(message, filename)
    case Generated(text) =>
      if text.None? || text.value == "" then ErrorResult(Some("No analysis generated"), filename)
      else ParseText(text.value, filename)
  }

  /** The loop of `performStaticAnalysis` over the lines of the `ERRORS:`
      section: skip blank lines and the header line, strip the bullet, push
      an error for every line the finding pattern matches. */
  method CollectErrors(lines: seq<string>, filename: string) returns (errors: seq<ErrorEntry>)
    ensures errors == ParsedErrors(lines, filename)
  {
    errors := [];
    for i := 0 to |lines|
      invariant errors == ParsedErrors(lines[..i], filename)
    {
      assert lines[..i + 1][..i] == lines[..i];
      var trimmed := Trim(lines[i]);
      if trimmed != "" && trimmed != "ERRORS:" {
        var fields := MatchFinding(CleanLine(trimmed));
        if fields.Some? {
          errors := errors + [ErrorOf(fields.value, filename)];
        }
      }
    }
    assert lines[..|lines|] == lines;
  }

  /** The same loop over the lines of the `SUGGESTIONS:` section. */
  method CollectSuggestions(lines: seq<string>, filename: string) returns (suggestions: seq<Suggestion>)
    ensures suggestions == ParsedSuggestions(lines, filename)
  {
    suggestions := [];
    for i := 0 to |lines|
      invariant suggestions == ParsedSuggestions(lines[..i], filename)
    {
      assert lines[..i + 1][..i] == lines[..i];
      var trimmed := Trim(lines[i]);
      if trimmed != "" && trimmed != "SUGGESTIONS:" {
        var fields := MatchFinding(CleanLine(trimmed));
        if fields.Some? {
          suggestions := suggestions + [SuggestionOf(fields.value, filename)];
        }
      }
    }
    assert lines[..|lines|] == lines;
  }

  /** `performStaticAnalysis` after the service call: a missing or empty
      text gives the error result, otherwise the trimmed text is cut into
      sections, the findings are collected and the metrics read. */
  method PerformStaticAnalysis(reply: Reply, filename: string) returns (result: AnalysisResult)
    ensures result == StaticAnalysis(reply, filename)
  {
    if reply.ServiceFailed? {
      return ErrorResult(reply.message, filename);
    }
    if reply.text.None? || reply.text.value == "" {
      return ErrorResult(Some("No analysis generated"), filename);
    }
    var text := Trim(reply.text.value);
    var metrics := ZeroMetrics;
    var errors := CollectErrors(SectionLines(Section(text, ErrorHeaders, ErrorTerminators)), filename);
    var suggestions := CollectSuggestions(SectionLines(Section(text, SuggestionHeaders, SuggestionTerminators)), filename);
    var section := Section(text, MetricsHeaders, MetricsTerminators);
    if section.Some? && section.value != "" {
      metrics := ParsedMetrics(section.value);
    }
    result := AnalysisResult(errors, suggestions, Some(metrics), None, None);
  }
}
