/**
  The review engine: one comment per smell, written by the first engine that
  answers — OpenRouter, then Ollama, then the rule-based templates — with the
  comment's severity normalised to `info`, `warning` or `critical`.

  The engines are parameters: `openrouter` and `ollama` are `None` when switched
  off, and a switched-on engine answers `None` when its request fails. What the
  engines say is not modelled, only which one is asked and what shape its answer
  has: OpenRouter answers with three fields, Ollama with four (the fourth is its
  own severity).
 */
module Review {
  import opened Wrappers
  import opened Smells
  import opened Text

  /** `ReviewComment`. */
  datatype ReviewComment = ReviewComment(file: string, line: int, severity: string,
                                         title: string, explanation: string, suggestion: string)

  /** A three-field answer: title, explanation, suggestion. */
  datatype Triple = Triple(title: string, explanation: string, suggestion: string)

  /** A four-field answer: the three fields and the engine's own severity. */
  datatype Quad = Quad(title: string, explanation: string, suggestion: string, severity: string)

  /** The answer of whichever AI engine answered first. */
  datatype Answer = FromOpenRouter(t: Triple) | FromOllama(q: Quad)

  // ---------------------------------------------------------------------------
  // Severity
  // ---------------------------------------------------------------------------

  /** The three levels a review comment can have. */
  predicate IsLevel(s: string) {
    s == "info" || s == "warning" || s == "critical"
  }

  /** The fallback mapping from the analyzer's severities, with `warning` for
      anything else. */
  function LevelOf(given: string): (r: string)
    ensures IsLevel(r)
  {
    if given == "low" then "info"
    else if given == "medium" then "warning"
    else if given == "high" || given == "critical" then "critical"
    else "warning"
  }

  /** `_normalize_severity`: the AI's severity, lower-cased and stripped, when it
      is already a level; otherwise the analyzer's severity mapped to a level. */
  function NormalizeSeverity(ai: string, given: string): (r: string)
    ensures IsLevel(r)
    ensures IsLevel(Strip(Lower(ai))) ==> r == Strip(Lower(ai))
    ensures !IsLevel(Strip(Lower(ai))) ==>
              && (Lower(given) == "low" ==> r == "info")
              && (Lower(given) == "medium" ==> r == "warning")
              && (Lower(given) == "high" || Lower(given) == "critical" ==> r == "critical")
              && (Lower(given) !in {"low", "medium", "high", "critical"} ==> r == "warning")
  {
    var a := Strip(Lower(ai));
    if IsLevel(a) then a else LevelOf(Lower(given))
  }

  /** A level is already normalised: normalising it again keeps it. */
  lemma NormalizeIdempotent(ai: string, given: string, other: string)
    ensures var r := NormalizeSeverity(ai, given);
            NormalizeSeverity(r, other) == r
  {
    LevelIsFixed(NormalizeSeverity(ai, given));
  }

  lemma LevelIsFixed(r: string)
    requires IsLevel(r)
    ensures Strip(Lower(r)) == r
  {
    LowerKeepsLowercase(r);
    StripKeepsTrimmed(r);
  }

  lemma LowerKeepsLowercase(s: string)
    requires forall i :: 0 <= i < |s| ==> !('A' <= s[i] <= 'Z')
    ensures Lower(s) == s
  {
  }

  lemma StripKeepsTrimmed(s: string)
    requires s != [] && !IsBlank(s[0]) && !IsBlank(s[|s| - 1])
    ensures Strip(s) == s
  {
  }

  /** Without an AI severity, each analyzer severity maps to its level. */
  lemma StaticSeverityLevels(sev: Severity)
    ensures NormalizeSeverity("", sev.Tag())
            == match sev
               case Low => "info"
               case Medium => "warning"
               case High => "critical"
               case Critical => "critical"
  {
    assert Strip(Lower("")) == "";
    var t := sev.Tag();
    assert Lower(t) == t;
  }

  // ---------------------------------------------------------------------------
  // The fallback chain
  // ---------------------------------------------------------------------------

  /** The AI answer for one smell: OpenRouter's if it is on and answers,
      otherwise Ollama's if it is on and answers. */
  function Consult(openrouter: Option<Smell -> Option<Triple>>, ollama: Option<Smell -> Option<Quad>>,
                   s: Smell): (r: Option<Answer>)
    ensures openrouter.Some? && openrouter.value(s).Some? ==> r == Some(FromOpenRouter(openrouter.value(s).value))
    ensures !(openrouter.Some? && openrouter.value(s).Some?) && ollama.Some? && ollama.value(s).Some?
            ==> r == Some(FromOllama(ollama.value(s).value))
    ensures r.None? <==> (openrouter.None? || openrouter.value(s).None?) && (ollama.None? || ollama.value(s).None?)
  {
    var first := if openrouter.Some? then openrouter.value(s) else None;
    if first.Some? then Some(FromOpenRouter(first.value))
    else
      var second := if ollama.Some? then ollama.value(s) else None;
      if second.Some? then Some(FromOllama(second.value)) else None
  }

  /** The comment for one smell, where a three-field answer counts as having no
      AI severity. */
  function CommentFor(openrouter: Option<Smell -> Option<Triple>>, ollama: Option<Smell -> Option<Quad>>,
                      rule: Smell -> Triple, s: Smell): (r: ReviewComment)
    ensures r.file == s.file && r.line == s.line && IsLevel(r.severity)
    ensures openrouter.Some? && openrouter.value(s).Some? ==>
              var t := openrouter.value(s).value;
              && r.title == t.title && r.explanation == t.explanation && r.suggestion == t.suggestion
              && r.severity == LevelOf(s.severity.Tag())
    ensures Consult(openrouter, ollama, s).None? ==>
              var t := rule(s);
              && r.title == t.title && r.explanation == t.explanation && r.suggestion == t.suggestion
              && r.severity == LevelOf(s.severity.Tag())
  {
    var given := s.severity.Tag();
    assert Strip(Lower("")) == "";
    assert Lower(given) == given;
    match Consult(openrouter, ollama, s)
    case None =>
      var t := rule(s);
      ReviewComment(s.file, s.line, NormalizeSeverity("", given), t.title, t.explanation, t.suggestion)
    case Some(FromOpenRouter(t)) =>
      ReviewComment(s.file, s.line, NormalizeSeverity("", given), t.title, t.explanation, t.suggestion)
    case Some(FromOllama(q)) =>
      ReviewComment(s.file, s.line, NormalizeSeverity(q.severity, given), q.title, q.explanation, q.suggestion)
  }

  /** `generate_review_comments`, accepting OpenRouter's three-field answers:
      one comment per smell, in order, at the smell's file and line, with its
      text from the first engine that answered. */
  function GenerateReviewComments(openrouter: Option<Smell -> Option<Triple>>, ollama: Option<Smell -> Option<Quad>>,
                                  rule: Smell -> Triple, smells: seq<Smell>): (r: seq<ReviewComment>)
    ensures |r| == |smells|
    ensures forall i :: 0 <= i < |smells| ==>
              && r[i].file == smells[i].file && r[i].line == smells[i].line && IsLevel(r[i].severity)
    ensures forall i :: 0 <= i < |smells| && openrouter.Some? && openrouter.value(smells[i]).Some? ==>
              var t := openrouter.value(smells[i]).value;
              && r[i].title == t.title && r[i].explanation == t.explanation && r[i].suggestion == t.suggestion
              && r[i].severity == LevelOf(smells[i].severity.Tag())
    ensures forall i :: 0 <= i < |smells| && Consult(openrouter, ollama, smells[i]).None? ==>
              var t := rule(smells[i]);
              && r[i].title == t.title && r[i].explanation == t.explanation && r[i].suggestion == t.suggestion
              && r[i].severity == LevelOf(smells[i].severity.Tag())
  {
    Map(s => CommentFor(openrouter, ollama, rule, s), smells)
  }

  /** `[f(x) for x in xs]`. */
  function Map<A, B>(f: A -> B, xs: seq<A>): (r: seq<B>)
    ensures |r| == |xs| && forall i :: 0 <= i < |xs| ==> r[i] == f(xs[i])
  {
    seq(|xs|, i requires 0 <= i < |xs| => f(xs[i]))
  }

  lemma MapCons<A, B>(f: A -> B, xs: seq<A>)
    requires xs != []
    ensures Map(f, xs) == [f(xs[0])] + Map(f, xs[1..])
  {
    var r := Map(f, xs);
    var rest := Map(f, xs[1..]);
    forall i | 0 < i < |xs|
      ensures r[i] == rest[i - 1]
    {
      assert xs[1..][i - 1] == xs[i];
    }
  }

  /** The comments of a non-empty list: the first smell's, then the rest's. */
  lemma GenerateCons(openrouter: Option<Smell -> Option<Triple>>, ollama: Option<Smell -> Option<Quad>>,
                     rule: Smell -> Triple, smells: seq<Smell>)
    requires smells != []
    ensures GenerateReviewComments(openrouter, ollama, rule, smells)
            == [CommentFor(openrouter, ollama, rule, smells[0])]
               + GenerateReviewComments(openrouter, ollama, rule, smells[1..])
  {
    MapCons(s => CommentFor(openrouter, ollama, rule, s), smells);
  }

  /** When OpenRouter gives no answer and Ollama does, the comment is Ollama's,
      with Ollama's severity if it is a level. */
  lemma OllamaAnswersSecond(openrouter: Option<Smell -> Option<Triple>>, ollama: Option<Smell -> Option<Quad>>,
                            rule: Smell -> Triple, smells: seq<Smell>, i: nat)
    requires i < |smells|
    requires openrouter.None? || openrouter.value(smells[i]).None?
    requires ollama.Some? && ollama.value(smells[i]).Some?
    ensures var c := GenerateReviewComments(openrouter, ollama, rule, smells)[i];
            var q := ollama.value(smells[i]).value;
            && c.title == q.title && c.explanation == q.explanation && c.suggestion == q.suggestion
            && c.severity == NormalizeSeverity(q.severity, smells[i].severity.Tag())
  {
    var s := smells[i];
    assert Consult(openrouter, ollama, s) == Some(FromOllama(ollama.value(s).value));
  }

  // ---------------------------------------------------------------------------
  // As written: every answer is unpacked into four fields
  // ---------------------------------------------------------------------------

  /** The unpacking of an AI answer into four fields: a three-field answer
      raises `ValueError`. */
  function Unpack4(a: Answer): Result<Quad, string> {
    match a
    case FromOllama(q) => Success(q)
    case FromOpenRouter(_) => Failure("not enough values to unpack (expected 4, got 3)")
  }

  /** One smell's comment as written: an OpenRouter answer fails to unpack. */
  function CommentAsWritten(openrouter: Option<Smell -> Option<Triple>>, ollama: Option<Smell -> Option<Quad>>,
                            rule: Smell -> Triple, s: Smell): (r: Result<ReviewComment, string>)
    ensures r.Success? ==> r.value.file == s.file && r.value.line == s.line
    ensures r.Failure? <==> openrouter.Some? && openrouter.value(s).Some?
  {
    var given := s.severity.Tag();
    match Consult(openrouter, ollama, s)
    case None =>
      var t := rule(s);
      Success(ReviewComment(s.file, s.line, NormalizeSeverity("", given), t.title, t.explanation, t.suggestion))
    case Some(a) =>
      match Unpack4(a)
      case Failure(e) => Failure(e)
      case Success(q) =>
        Success(ReviewComment(s.file, s.line, NormalizeSeverity(q.severity, given), q.title, q.explanation, q.suggestion))
  }

  /** `generate_review_comments` as written: the first smell OpenRouter answers
      for ends the whole call with the unpacking error. */
  function GenerateAsWritten(openrouter: Option<Smell -> Option<Triple>>, ollama: Option<Smell -> Option<Quad>>,
                             rule: Smell -> Triple, smells: seq<Smell>): (r: Result<seq<ReviewComment>, string>)
    ensures r.Success? ==> |r.value| == |smells|
    ensures r.Success? ==> forall i :: 0 <= i < |smells| ==>
              r.value[i].file == smells[i].file && r.value[i].line == smells[i].line
  {
    if smells == [] then Success([])
    else
      var head := CommentAsWritten(openrouter, ollama, rule, smells[0]);
      if head.Failure? then Failure(head.error)
      else
        match GenerateAsWritten(openrouter, ollama, rule, smells[1..])
        case Failure(e) => Failure(e)
        case Success(rest) =>
          var r := [head.value] + rest;
          assert forall i :: 1 <= i < |smells| ==> r[i] == rest[i - 1] && smells[i] == smells[1..][i - 1];
          Success(r)
  }

  /** As written, any answer from OpenRouter makes the whole review fail. */
  lemma {:induction false} OpenRouterAnswerFails(openrouter: Option<Smell -> Option<Triple>>,
                                                 ollama: Option<Smell -> Option<Quad>>,
                                                 rule: Smell -> Triple, smells: seq<Smell>, i: nat)
    requires i < |smells|
    requires openrouter.Some? && openrouter.value(smells[i]).Some?
    ensures GenerateAsWritten(openrouter, ollama, rule, smells).Failure?
  {
    if i == 0 {
      assert Consult(openrouter, ollama, smells[0]) == Some(FromOpenRouter(openrouter.value(smells[0]).value));
    } else {
      OpenRouterAnswerFails(openrouter, ollama, rule, smells[1..], i - 1);
      FailureSpreads(openrouter, ollama, rule, smells);
    }
  }

  /** As written, a failure on the later smells fails the whole call. */
  lemma FailureSpreads(openrouter: Option<Smell -> Option<Triple>>, ollama: Option<Smell -> Option<Quad>>,
                       rule: Smell -> Triple, smells: seq<Smell>)
    requires smells != [] && GenerateAsWritten(openrouter, ollama, rule, smells[1..]).Failure?
    ensures GenerateAsWritten(openrouter, ollama, rule, smells).Failure?
  {
  }

  /** As written and corrected agree whenever OpenRouter never answers. */
  lemma {:induction false} AsWrittenAgreesWithoutOpenRouter(openrouter: Option<Smell -> Option<Triple>>,
                                                            ollama: Option<Smell -> Option<Quad>>,
                                                            rule: Smell -> Triple, smells: seq<Smell>)
    requires forall i :: 0 <= i < |smells| ==> openrouter.None? || openrouter.value(smells[i]).None?
    ensures GenerateAsWritten(openrouter, ollama, rule, smells)
            == Success(GenerateReviewComments(openrouter, ollama, rule, smells))
  {
    if smells != [] {
      var tail := smells[1..];
      assert forall i :: 0 <= i < |tail| ==> tail[i] == smells[i + 1];
      HeadAgreesWithoutOpenRouter(openrouter, ollama, rule, smells[0]);
      AsWrittenAgreesWithoutOpenRouter(openrouter, ollama, rule, tail);
      AsWrittenCons(openrouter, ollama, rule, smells);
      GenerateCons(openrouter, ollama, rule, smells);
    }
  }

  lemma AsWrittenCons(openrouter: Option<Smell -> Option<Triple>>, ollama: Option<Smell -> Option<Quad>>,
                      rule: Smell -> Triple, smells: seq<Smell>)
    requires smells != []
    requires CommentAsWritten(openrouter, ollama, rule, smells[0]).Success?
    requires GenerateAsWritten(openrouter, ollama, rule, smells[1..]).Success?
    ensures GenerateAsWritten(openrouter, ollama, rule, smells)
            == Success([CommentAsWritten(openrouter, ollama, rule, smells[0]).value]
                       + GenerateAsWritten(openrouter, ollama, rule, smells[1..]).value)
  {
  }

  lemma HeadAgreesWithoutOpenRouter(openrouter: Option<Smell -> Option<Triple>>, ollama: Option<Smell -> Option<Quad>>,
                                    rule: Smell -> Triple, s: Smell)
    requires openrouter.None? || openrouter.value(s).None?
    ensures CommentAsWritten(openrouter, ollama, rule, s) == Success(CommentFor(openrouter, ollama, rule, s))
  {
  }
}
