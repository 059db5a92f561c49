/** What the advisory-reply parser of server/services/agent.ts does with the
    reply format its own prompt asks for, and with the replies that stray
    from it. */
module ParserFacts {
  import opened Wrappers
  import opened Text
  import opened Schema
  import opened ReplyParser

  /** A finding line in the format the prompt asks for,
      `TYPE: message [SEVERITY] (line NUMBER)`: the type, a colon, then
      `Head` and `LineTag`. */
  function Render(t: string, m: string, w: string, d: string): string {
    t + ":" + (Head(m, w) + LineTag(d))
  }

  /** ` message [SEVERITY]` */
  function Head(m: string, w: string): string {
    " " + m + " [" + w + "]"
  }

  /** ` (line NUMBER)` */
  function LineTag(d: string): string {
    " (line " + d + ")"
  }

  /** The parts of a line the parser gives back unchanged: a type without a
      colon that is not the word `TYPE`, a trimmed message without `[`, a
      severity word and a line number; none of them spans two lines. */
  predicate Renderable(t: string, m: string, w: string, d: string) {
    && t != [] && ':' !in t && '\n' !in t && !EqualCI(t, "TYPE")
    && m != [] && !IsSpace(m[0]) && !IsSpace(m[|m| - 1]) && '[' !in m && '\n' !in m
    && w != [] && AllWordChars(w)
    && d != [] && AllDigits(d)
  }

  /** The fields the parser should read from `Render(t, m, w, d)`. */
  function Expected(t: string, m: string, w: string, d: string): Fields
    requires AllDigits(d)
  {
    Fields(LowerAscii(Trim(t)), m, LowerAscii(w), Some(DigitsValue(d)))
  }

  /** After the colon: one space, the message, and the first `[word]`,
      which is the bracketed severity. */
  lemma RenderedToken(m: string, w: string, tail: string)
    requires m != [] && !IsSpace(m[0]) && '[' !in m
    requires w != [] && AllWordChars(w)
    ensures var rest := Head(m, w) + tail;
      var b := |m| + 2;
      && |Head(m, w)| == b + 2 + |w|
      && SeverityToken(rest) == Some(b)
      && SkipWordChars(rest, b + 1) == b + 1 + |w|
      && rest[..b] == [' '] + m + [' ']
      && rest[b + 1..SkipWordChars(rest, b + 1)] == w
      && rest[SkipWordChars(rest, b + 1) + 1..] == tail
  {
    var rest := Head(m, w) + tail;
    var b := |m| + 2;
    var e := b + 1 + |w|;
    assert rest[1..b - 1] == m;
    assert rest[b + 1..e] == w;
    assert rest[0] == ' ' && rest[b - 1] == ' ' && rest[b] == '[' && rest[e] == ']';
    BracketAfterMessage(rest, m, w);
    assert rest[..b] == [' '] + m + [' '];
    assert rest[e + 1..] == tail;
  }

  /** The severity scan on a text laid out as ` m [w]…`, given by its parts. */
  lemma BracketAfterMessage(rest: string, m: string, w: string)
    requires m != [] && !IsSpace(m[0]) && '[' !in m
    requires w != [] && AllWordChars(w)
    requires |m| + 4 + |w| <= |rest|
    requires rest[1..|m| + 1] == m && rest[|m| + 3..|m| + 3 + |w|] == w
    requires rest[0] == ' ' && rest[|m| + 1] == ' ' && rest[|m| + 2] == '[' && rest[|m| + 3 + |w|] == ']'
    ensures SkipWordChars(rest, |m| + 3) == |m| + 3 + |w|
    ensures SeverityToken(rest) == Some(|m| + 2)
  {
    var b := |m| + 2;
    var e := b + 1 + |w|;
    assert rest[1] == m[0];
    assert SkipSpaces(rest, 0) == 1;
    assert SkipWordChars(rest, b + 1) == e by {
      assert forall k :: b + 1 <= k < e ==> rest[k] == w[k - b - 1];
    }
    assert TokenAt(rest, b);
    forall k | 2 <= k < b
      ensures !TokenAt(rest, k)
    {
      if k < b - 1 {
        assert rest[k] == m[k - 1];
      }
    }
    assert FirstToken(rest, 2) == Some(b);
  }

  /** The optional ` (line N)` after the severity bracket. */
  lemma LineTagNumber(d: string)
    requires d != [] && AllDigits(d)
    ensures LineNumber(LineTag(d)) == Some(DigitsValue(d))
  {
    var s := LineTag(d);
    assert s[0] == ' ' && s[1] == '(';
    assert SkipSpaces(s, 0) == 1;
    assert s[1..6] == "(line";
    assert OccursCIAt(s, "(line", 1);
    assert s[6] == ' ' && s[7] == d[0];
    assert SkipSpaces(s, 6) == 7;
    var f := 7 + |d|;
    assert s[7..f] == d;
    assert s[f] == ')';
    assert SkipDigits(s, 7) == f by {
      assert forall k :: 7 <= k < f ==> s[k] == d[k - 7];
    }
  }

  /** Only a line that starts with the four letters of `TYPE` and a colon
      takes the optional `TYPE:` prefix of the finding pattern. */
  lemma TypePrefix(t: string, s: string)
    requires ':' !in t && |t| < |s| && s[..|t|] == t && s[|t|] == ':'
    ensures StartsWithCI(s, "TYPE:") ==> |t| == 4 && EqualCI(t, "TYPE")
  {
    if StartsWithCI(s, "TYPE:") {
      assert forall i :: 0 <= i < |t| ==> s[i] == t[i];
      assert forall i :: 0 <= i < 4 ==> Lower(s[i]) == Lower("TYPE:"[i]);
      assert Lower(s[4]) == ':';
      assert |t| == 4;
    }
  }

  /** Round trip of the prompt's line format: a line written as the prompt
      asks is matched, and the parser reads back the type (trimmed and
      lower-cased), the message, the severity (lower-cased) and the line. */
  lemma RenderedFindingMatches(t: string, m: string, w: string, d: string)
    requires Renderable(t, m, w, d)
    ensures MatchFinding(Render(t, m, w, d)) == Some(Expected(t, m, w, d))
  {
    var rest := Head(m, w) + LineTag(d);
    var s := Render(t, m, w, d);
    assert s[..|t|] == t && s[|t|] == ':' && s[|t| + 1..] == rest;
    assert DropColons(s) == s;
    TypePrefix(t, s);
    IndexOfIs(s, ':', |t|);
    RenderedAfterColon(t, m, w, d);
  }

  /** What follows the colon of a rendered line gives back message, severity
      and line number. */
  lemma RenderedAfterColon(t: string, m: string, w: string, d: string)
    requires m != [] && !IsSpace(m[0]) && !IsSpace(m[|m| - 1]) && '[' !in m
    requires w != [] && AllWordChars(w) && d != [] && AllDigits(d)
    ensures AfterColon(t, Head(m, w) + LineTag(d)) == Some(Expected(t, m, w, d))
  {
    var rest := Head(m, w) + LineTag(d);
    RenderedToken(m, w, LineTag(d));
    TrimPadded(m);
    LineTagNumber(d);
    var b := |m| + 2;
    var e := SkipWordChars(rest, b + 1);
    assert rest[b + 1..e] == w;
    assert rest[e + 1..] == LineTag(d);
    var f := FieldsAt(t, rest, b);
    assert f.message == m;
    assert f.severity == LowerAscii(w);
    assert f.line == Some(DigitsValue(d));
  }

  /** The same line as a `- ` bullet inside a section is parsed into that
      one error. */
  lemma RenderedErrorLine(t: string, m: string, w: string, d: string, filename: string)
    requires Renderable(t, m, w, d)
    ensures ParsedErrors(["- " + Render(t, m, w, d)], filename) == [ErrorOf(Expected(t, m, w, d), filename)]
  {
    var line := "- " + Render(t, m, w, d);
    TrimKeeps(line);
    assert CleanLine(line) == Render(t, m, w, d);
    RenderedFindingMatches(t, m, w, d);
    assert LineFields(line, "ERRORS:") == Some(Expected(t, m, w, d));
    assert [line][..0] == [];
  }

  /** A line `t: m [w]` followed by any text is matched: the type is `t`
      trimmed and lower-cased, the message `m`, the severity `w`
      lower-cased, and the line number is whatever `(line N)` at the start
      of the text after the bracket gives, if anything. */
  lemma FindingOfParts(t: string, m: string, w: string, tail: string)
    requires t != [] && ':' !in t && !EqualCI(t, "TYPE")
    requires m != [] && !IsSpace(m[0]) && !IsSpace(m[|m| - 1]) && '[' !in m
    requires w != [] && AllWordChars(w)
    ensures MatchFinding(t + ":" + (Head(m, w) + tail))
      == Some(Fields(LowerAscii(Trim(t)), m, LowerAscii(w), LineNumber(tail)))
  {
    var rest := Head(m, w) + tail;
    var s := t + ":" + rest;
    assert s[..|t|] == t && s[|t|] == ':' && s[|t| + 1..] == rest;
    assert DropColons(s) == s;
    TypePrefix(t, s);
    IndexOfIs(s, ':', |t|);
    RenderedToken(m, w, tail);
    TrimPadded(m);
    var b := |m| + 2;
    var f := FieldsAt(t, rest, b);
    assert f.message == m;
    assert f.severity == LowerAscii(w);
  }

  /** The line number is set only by a `(line` right after the bracket and
      its white space: without one, the finding has no line. */
  lemma NoLineTagNoLine(t: string, m: string, w: string, tail: string)
    requires t != [] && ':' !in t && !EqualCI(t, "TYPE")
    requires m != [] && !IsSpace(m[0]) && !IsSpace(m[|m| - 1]) && '[' !in m
    requires w != [] && AllWordChars(w)
    requires !OccursCIAt(tail, "(line", SkipSpaces(tail, 0))
    ensures MatchFinding(t + ":" + (Head(m, w) + tail)) == Some(Fields(LowerAscii(Trim(t)), m, LowerAscii(w), None))
  {
    FindingOfParts(t, m, w, tail);
  }

  /** A line without `[` never matches the finding pattern: the severity
      bracket is required. */
  lemma NoBracketNoFinding(line: string)
    ensures MatchFinding(line).Some? ==> '[' in line
  {
    var s := DropColons(line);
    BracketOfBody(s);
    if |s| >= 5 {
      BracketOfBody(s[5..]);
      if '[' in s[5..] {
        var i :| 0 <= i < |s| - 5 && s[5..][i] == '[';
        assert s[5 + i] == '[';
      }
    }
    if '[' in s {
      var i :| 0 <= i < |s| && s[i] == '[';
      assert line[|line| - |s| + i] == '[';
    }
  }

  /** `MatchBody` takes the severity from a `[`. */
  lemma BracketOfBody(s: string)
    ensures MatchBody(s).Some? ==> '[' in s
  {
    if MatchBody(s).Some? {
      var c := IndexOf(s, ':');
      var rest := s[c + 1..];
      var b := SeverityToken(rest).value;
      assert s[c + 1 + b] == '[';
    }
  }

  /** The suggestion format the prompt asks for, `TYPE: message (line
      NUMBER)`, has no severity bracket, so a suggestion written exactly as
      the prompt asks is never matched and never reported. */
  lemma PromptSuggestionFormatDropped(t: string, m: string, d: string)
    requires '[' !in t && '[' !in m && AllDigits(d)
    ensures MatchFinding(t + ": " + m + LineTag(d)).None?
  {
    var line := t + ": " + m + LineTag(d);
    NoBracketNoFinding(line);
    assert '[' !in LineTag(d) by {
      assert forall i :: 0 <= i < |d| ==> d[i] != '[';
    }
  }

  /** The prompt's own error example, `SYNTAX: Missing semicolon [ERROR]
      (line 5)`, is read back field by field. */
  lemma PromptErrorExampleParsed()
    ensures MatchFinding(Render("SYNTAX", "Missing semicolon", "ERROR", "5"))
      == Some(Fields("syntax", "Missing semicolon", "error", Some(5)))
  {
    ExampleRenderable();
    RenderedFindingMatches("SYNTAX", "Missing semicolon", "ERROR", "5");
    ExampleExpected();
  }

  lemma ExampleRenderable()
    ensures Renderable("SYNTAX", "Missing semicolon", "ERROR", "5")
  {
    var t, m, w := "SYNTAX", "Missing semicolon", "ERROR";
    assert AllWordChars(w) by {
      forall i | 0 <= i < |w| ensures IsWordChar(w[i]) {
        assert w[i] in "ERROR";
      }
    }
    assert !EqualCI(t, "TYPE");
    assert ':' !in t && '\n' !in t by {
      forall i | 0 <= i < |t| ensures t[i] != ':' && t[i] != '\n' {
        assert t[i] in "SYNTAX";
      }
    }
    assert '[' !in m && '\n' !in m by {
      forall i | 0 <= i < |m| ensures m[i] != '[' && m[i] != '\n' {
        assert m[i] in "Missing semicolon";
      }
    }
  }

  lemma ExampleExpected()
    ensures Expected("SYNTAX", "Missing semicolon", "ERROR", "5") == Fields("syntax", "Missing semicolon", "error", Some(5))
  {
    TrimKeeps("SYNTAX");
    var k := LowerAscii("SYNTAX");
    assert k[0] == 's' && k[1] == 'y' && k[2] == 'n' && k[3] == 't' && k[4] == 'a' && k[5] == 'x';
    var v := LowerAscii("ERROR");
    assert v[0] == 'e' && v[1] == 'r' && v[2] == 'r' && v[3] == 'o' && v[4] == 'r';
    assert DigitsValue("5") == 5 by {
      assert "5"[..0] == [];
    }
  }

  /* ---------------------------------------------------------------------- */
  /* Lines and sections                                                     */
  /* ---------------------------------------------------------------------- */

  /** Lines are read independently and in order: the errors of two runs of
      lines are the errors of the first followed by those of the second. */
  lemma {:induction false} ParsedErrorsConcat(a: seq<string>, b: seq<string>, filename: string)
    ensures ParsedErrors(a + b, filename) == ParsedErrors(a, filename) + ParsedErrors(b, filename)
    decreases |b|
  {
    if b == [] {
      assert a + b == a;
    } else {
      var n := |b| - 1;
      assert (a + b)[..|a + b| - 1] == a + b[..n];
      assert (a + b)[|a + b| - 1] == b[n];
      ParsedErrorsConcat(a, b[..n], filename);
    }
  }

  /** The same for suggestions. */
  lemma {:induction false} ParsedSuggestionsConcat(a: seq<string>, b: seq<string>, filename: string)
    ensures ParsedSuggestions(a + b, filename) == ParsedSuggestions(a, filename) + ParsedSuggestions(b, filename)
    decreases |b|
  {
    if b == [] {
      assert a + b == a;
    } else {
      var n := |b| - 1;
      assert (a + b)[..|a + b| - 1] == a + b[..n];
      assert (a + b)[|a + b| - 1] == b[n];
      ParsedSuggestionsConcat(a, b[..n], filename);
    }
  }

  /** Lines without a `[` yield no errors. */
  lemma {:induction false} BracketFreeLinesNoErrors(lines: seq<string>, filename: string)
    requires forall i :: 0 <= i < |lines| ==> '[' !in lines[i]
    ensures ParsedErrors(lines, filename) == []
    decreases |lines|
  {
    if lines != [] {
      var raw := lines[|lines| - 1];
      BracketFreeLinesNoErrors(lines[..|lines| - 1], filename);
      var t := Trim(raw);
      if t != "" && t != "ERRORS:" {
        var c := CleanLine(t);
        NoBracketNoFinding(c);
        assert '[' !in c by {
          SubstringKeepsOut(raw, SkipSpaces(raw, 0), SkipSpacesBack(raw, SkipSpaces(raw, 0), |raw|), '[');
          if StartsWith(t, "- ") {
            SubstringKeepsOut(t, 2, |t|, '[');
          }
        }
      }
    }
  }

  /** A character absent from `s` is absent from every slice of it. */
  lemma SubstringKeepsOut(s: string, i: nat, j: nat, c: char)
    requires i <= j <= |s| && c !in s
    ensures c !in s[i..j]
  {
    forall k | 0 <= k < j - i
      ensures s[i..j][k] != c
    {
      assert s[i..j][k] == s[i + k];
    }
  }

  /** A character absent from `s` is absent from every part `split` gives. */
  lemma {:induction false} SplitKeepsOut(s: string, sep: char, c: char)
    requires c !in s
    ensures forall k :: 0 <= k < |Split(s, sep)| ==> c !in Split(s, sep)[k]
    decreases |s|
  {
    if sep in s {
      var i := IndexOf(s, sep);
      SubstringKeepsOut(s, 0, i, c);
      SubstringKeepsOut(s, i + 1, |s|, c);
      SplitKeepsOut(s[i + 1..], sep, c);
    }
  }

  /** The first character of every section terminator, `S`, `M` or `E`, in
      either case. */
  predicate StartsTerminator(c: char) {
    Lower(c) == 's' || Lower(c) == 'm' || Lower(c) == 'e'
  }

  /** The `ERRORS:` section ends at the first `END`, `SUGGESTIONS:` or
      `METRICS:` after the header, compared without case and without regard
      to word boundaries: an `end` inside a message ends the section there. */
  lemma EndInMessageCutsSection(pre: string, post: string)
    requires forall i :: 0 <= i < |pre| ==> !StartsTerminator(pre[i])
    ensures Section("ERRORS:" + pre + "end" + post, ErrorHeaders, ErrorTerminators) == Some(pre)
  {
    var s := "ERRORS:" + pre + "end" + post;
    var q := 7 + |pre|;
    assert s[..7] == "ERRORS:";
    assert s[7..q] == pre;
    assert s[q..q + 3] == "end";
    SectionUpToEnd(s, pre);
  }

  /** The same with the reply's parts given as slices. */
  lemma SectionUpToEnd(s: string, pre: string)
    requires 7 + |pre| + 3 <= |s|
    requires s[..7] == "ERRORS:" && s[7..7 + |pre|] == pre && s[7 + |pre|..7 + |pre| + 3] == "end"
    requires forall i :: 0 <= i < |pre| ==> !StartsTerminator(pre[i])
    ensures Section(s, ErrorHeaders, ErrorTerminators) == Some(pre)
  {
    var q := 7 + |pre|;
    assert FindCI(s, ErrorHeaders, 0) == Some((0, 0)) by {
      assert OccursCIAt(s, ErrorHeaders[0], 0);
    }
    assert PatternAt(s, ErrorTerminators, q).Some? by {
      assert OccursCIAt(s, ErrorTerminators[2], q);
    }
    forall p | 7 <= p < q
      ensures PatternAt(s, ErrorTerminators, p).None?
    {
      assert s[p] == s[7..q][p - 7];
      NoErrorTerminatorAt(s, p);
    }
    FindCIAt(s, ErrorTerminators, 7, q);
  }

  /** `FindCI` stops at the first position from `from` where an alternative
      matches. */
  lemma FindCIAt(s: string, pats: seq<string>, from: nat, q: nat)
    requires from <= q <= |s| && PatternAt(s, pats, q).Some?
    requires forall p :: from <= p < q ==> PatternAt(s, pats, p).None?
    ensures FindCI(s, pats, from).Some? && FindCI(s, pats, from).value.0 == q
  {
  }

  /** The section when a header occurs: `p` is the leftmost position where
      a header matches, `k` the alternative taken there, and `e` the first
      position from the header's end where a terminator matches, or the end
      of the text when none does. The section is the text in between. */
  lemma SectionOfHeader(s: string, headers: seq<string>, terminators: seq<string>, p: nat, k: nat, e: nat)
    requires p <= |s| && PatternAt(s, headers, p) == Some(k)
    requires forall q :: 0 <= q < p ==> PatternAt(s, headers, q).None?
    requires k < |headers| && p + |headers[k]| <= e <= |s|
    requires forall q :: p + |headers[k]| <= q < e ==> PatternAt(s, terminators, q).None?
    requires e == |s| || PatternAt(s, terminators, e).Some?
    ensures Section(s, headers, terminators) == Some(s[p + |headers[k]|..e])
  {
    FindCIAt(s, headers, 0, p);
    if PatternAt(s, terminators, e).Some? {
      FindCIAt(s, terminators, p + |headers[k]|, e);
    }
  }

  /** There is a section exactly when a header occurs somewhere. */
  lemma SectionPresent(s: string, headers: seq<string>, terminators: seq<string>)
    ensures Section(s, headers, terminators).None? <==> forall p :: 0 <= p <= |s| ==> PatternAt(s, headers, p).None?
  {
    if Section(s, headers, terminators).Some? {
      assert PatternAt(s, headers, FindCI(s, headers, 0).value.0).Some?;
    }
  }

  /** A reply in which neither `ERRORS:` nor `TYPE:` occurs, in any case,
      has no error section and so no errors. */
  lemma NoErrorsSectionNoErrors(text: string, filename: string)
    requires text != ""
    requires forall p :: 0 <= p <= |Trim(text)| ==>
      !OccursCIAt(Trim(text), "ERRORS:", p) && !OccursCIAt(Trim(text), "TYPE:", p)
    ensures StaticAnalysis(Generated(Some(text)), filename).errors == []
  {
    var t := Trim(text);
    forall p | 0 <= p <= |t|
      ensures PatternAt(t, ErrorHeaders, p).None?
    {
      assert !OccursCIAt(t, ErrorHeaders[0], p) && !OccursCIAt(t, ErrorHeaders[1], p);
    }
    SectionPresent(t, ErrorHeaders, ErrorTerminators);
  }

  /** A reply in which no `SUGGESTIONS:` occurs, in any case, has no
      suggestions. */
  lemma NoSuggestionsSectionNoSuggestions(text: string, filename: string)
    requires text != ""
    requires forall p :: 0 <= p <= |Trim(text)| ==> !OccursCIAt(Trim(text), "SUGGESTIONS:", p)
    ensures StaticAnalysis(Generated(Some(text)), filename).suggestions == []
  {
    var t := Trim(text);
    forall p | 0 <= p <= |t|
      ensures PatternAt(t, SuggestionHeaders, p).None?
    {
      assert !OccursCIAt(t, SuggestionHeaders[0], p);
    }
    SectionPresent(t, SuggestionHeaders, SuggestionTerminators);
  }

  /** Whatever the text before it, an `end` in any case after an `ERRORS:`
      header in any case bounds the section: the section is a prefix of that
      text. */
  lemma SectionBeforeEnd(s: string, pre: string)
    requires 7 + |pre| + 3 <= |s|
    requires OccursCIAt(s, "ERRORS:", 0) && s[7..7 + |pre|] == pre && OccursCIAt(s, "END", 7 + |pre|)
    ensures Section(s, ErrorHeaders, ErrorTerminators).Some?
    ensures var x := Section(s, ErrorHeaders, ErrorTerminators).value; |x| <= |pre| && x == pre[..|x|]
  {
    var q := 7 + |pre|;
    assert FindCI(s, ErrorHeaders, 0) == Some((0, 0)) by {
      assert OccursCIAt(s, ErrorHeaders[0], 0);
    }
    assert PatternAt(s, ErrorTerminators, q).Some? by {
      assert OccursCIAt(s, ErrorTerminators[2], q);
    }
    var r := FindCI(s, ErrorTerminators, 7);
    assert r.Some? && r.value.0 <= q;
    assert s[7..r.value.0] == pre[..r.value.0 - 7];
  }

  /** No error-section terminator starts at a character other than `s`, `m`
      or `e`. */
  lemma NoErrorTerminatorAt(s: string, p: nat)
    requires p < |s| && !StartsTerminator(s[p])
    ensures PatternAt(s, ErrorTerminators, p).None?
  {
    forall k | 0 <= k < |ErrorTerminators|
      ensures OccursCIAt(s, ErrorTerminators[k], p) ==> Lower(s[p]) == Lower(ErrorTerminators[k][0])
    {
      if OccursCIAt(s, ErrorTerminators[k], p) {
        assert s[p..p + |ErrorTerminators[k]|][0] == s[p];
      }
    }
  }

  /** A letter that lower-cases to a letter is not white space. */
  lemma LetterNotSpace(c: char, d: char)
    requires Lower(c) == d && 'a' <= d <= 'z'
    ensures !IsSpace(c)
  {
  }

  /** So a finding whose message contains `end` is lost, and so is every
      finding after it, whatever follows and whatever the letter case of the
      header and of the `end`. */
  lemma EndInMessageDropsFindings(header: string, pre: string, e: string, post: string, filename: string)
    requires EqualCI(header, "ERRORS:") && EqualCI(e, "END")
    requires '[' !in pre
    ensures ParseText(header + pre + e + post, filename).errors == []
  {
    var s := header + pre + e + post;
    var q := 7 + |pre|;
    assert s[..7] == header && s[7..q] == pre && s[q..q + 3] == e;
    LetterNotSpace(s[0], 'e');
    assert SkipSpaces(s, 0) == 0;
    var j := SkipSpacesBack(s, 0, |s|);
    LetterNotSpace(s[q + 2], 'd');
    assert q + 3 <= j;
    var t := s[..j];
    assert Trim(s) == t;
    assert t[7..q] == s[7..q];
    assert OccursCIAt(t, "ERRORS:", 0) by {
      assert t[0..7] == s[..7];
    }
    assert OccursCIAt(t, "END", q) by {
      assert t[q..q + 3] == s[q..q + 3];
    }
    SectionBeforeEnd(t, pre);
    var x := Section(t, ErrorHeaders, ErrorTerminators).value;
    if x != "" {
      SubstringKeepsOut(pre, 0, |x|, '[');
      var a := SkipSpaces(x, 0);
      SubstringKeepsOut(x, a, SkipSpacesBack(x, a, |x|), '[');
      SplitKeepsOut(Trim(x), '\n', '[');
      BracketFreeLinesNoErrors(Split(Trim(x), '\n'), filename);
    }
  }

  /* ---------------------------------------------------------------------- */
  /* Whole replies                                                          */
  /* ---------------------------------------------------------------------- */

  /** A reply that is only white space is not "no analysis": it passes the
      emptiness test, trims to nothing, and gives an empty result with zero
      metrics. */
  lemma WhitespaceReplyIsEmptyResult(text: string, filename: string)
    requires text != [] && AllSpace(text)
    ensures StaticAnalysis(Generated(Some(text)), filename) == AnalysisResult([], [], Some(ZeroMetrics), None, None)
  {
    TrimAllSpace(text);
    assert Section([], ErrorHeaders, ErrorTerminators).None?;
    assert Section([], SuggestionHeaders, SuggestionTerminators).None?;
    assert Section([], MetricsHeaders, MetricsTerminators).None?;
  }

  /* ---------------------------------------------------------------------- */
  /* Metrics                                                                */
  /* ---------------------------------------------------------------------- */

  /** A metric key followed by a space and a run of digits at the start of
      the section is read as the value of those digits. */
  lemma MetricAtStart(key: string, d: string, post: string)
    requires key != [] && d != [] && AllDigits(d)
    requires post == [] || !IsDigit(post[0])
    ensures MetricValue(key + " " + d + post, key) == DigitsValue(d)
  {
    var s := key + " " + d + post;
    var k := |key|;
    assert s[..k] == key;
    assert s[0..0 + k] == key;
    assert OccursCIAt(s, key, 0);
    assert s[k] == ' ';
    assert s[k + 1] == d[0];
    assert SkipSpaces(s, k + 1) == k + 1;
    assert SkipSpaces(s, k) == k + 1;
    forall i | k + 1 <= i < k + 1 + |d|
      ensures IsDigit(s[i])
    {
      assert s[i] == d[i - k - 1];
    }
    assert SkipDigits(s, k + 1) == k + 1 + |d| by {
      SkipDigitsRun(s, k + 1, k + 1 + |d|);
    }
    assert s[k + 1..k + 1 + |d|] == d;
    assert MetricPosition(s, key, 0) == Some(0);
  }

  /** `SkipDigits` stops exactly at the end of a run of digits. */
  lemma {:induction false} SkipDigitsRun(s: string, i: nat, j: nat)
    requires i <= j <= |s|
    requires forall k :: i <= k < j ==> IsDigit(s[k])
    requires j == |s| || !IsDigit(s[j])
    ensures SkipDigits(s, i) == j
    decreases j - i
  {
    if i < j {
      SkipDigitsRun(s, i + 1, j);
    }
  }

  /** A key that occurs nowhere in the section reads as zero. */
  lemma MissingMetricIsZero(s: string, key: string)
    requires forall p :: 0 <= p <= |s| ==> !OccursCIAt(s, key, p)
    ensures MetricValue(s, key) == 0
  {
    var r := MetricPosition(s, key, 0);
    assert r.Some? ==> OccursCIAt(s, key, r.value);
  }

  /** A reply in which no `METRICS:` occurs, in any case, keeps the zero
      metrics the result starts with. */
  lemma NoMetricsSectionIsZero(text: string, filename: string)
    requires forall p :: 0 <= p <= |Trim(text)| ==> !OccursCIAt(Trim(text), "METRICS:", p)
    ensures StaticAnalysis(Generated(Some(text)), filename).metrics == Some(ZeroMetrics)
  {
    var t := Trim(text);
    assert FindCI(t, MetricsHeaders, 0).None?;
  }

  /** The parser copies whatever word is in the brackets: a severity other
      than `error`, `warning` or `info` yields an error the schema rejects. */
  lemma ParsedSeverityMayBeInvalid(t: string, m: string, w: string, d: string, filename: string)
    requires Renderable(t, m, w, d) && !ValidSeverity(LowerAscii(w))
    ensures var es := ParsedErrors(["- " + Render(t, m, w, d)], filename); |es| == 1 && !ValidError(es[0])
  {
    RenderedErrorLine(t, m, w, d, filename);
  }

  /** The advisory result conforms to the schema exactly when the call did
      not reject with a value lacking a message and every error carries one
      of the three severities: the file is always set, and the suggestion
      schema does not constrain the severity. */
  lemma StaticAnalysisValidity(reply: Reply, filename: string)
    ensures var r := StaticAnalysis(reply, filename);
      ValidResult(r) <==>
        && !(reply.ServiceFailed? && reply.message.None?)
        && forall i :: 0 <= i < |r.errors| ==> ValidSeverity(r.errors[i].severity.value)
  {
    var r := StaticAnalysis(reply, filename);
    FiledResultValidity(r, filename);
    if reply.ServiceFailed? && reply.message.None? {
      assert r.errors[0].message.None?;
    }
  }

  /** A call rejected with a value that has no `message` (one that is not an
      `Error`) gives an `analysis_error` without a message, which the error
      schema rejects. */
  lemma MessagelessFailureInvalid(filename: string)
    ensures var r := StaticAnalysis(ServiceFailed(None), filename);
      |r.errors| == 1 && r.errors[0].kind == "analysis_error" && r.errors[0].message.None?
      && !ValidError(r.errors[0]) && !ValidResult(r)
  {
  }

  /** For a result whose findings all carry the file and whose errors all
      carry a severity, conformance comes down to the severities. */
  lemma FiledResultValidity(r: AnalysisResult, filename: string)
    requires forall i :: 0 <= i < |r.errors| ==> r.errors[i].file == Some(filename) && r.errors[i].severity.Some?
    requires forall i :: 0 <= i < |r.suggestions| ==> r.suggestions[i].file == Some(filename)
    ensures ValidResult(r) <==> forall i :: 0 <= i < |r.errors| ==>
      r.errors[i].message.Some? && ValidSeverity(r.errors[i].severity.value)
  {
  }
}
