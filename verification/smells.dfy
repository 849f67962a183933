/** The analyzer's output records: severities, smell kinds and `CodeSmell`. */
module Smells {

  /** Ordered severity classes, lowest first. */
  datatype Severity = Low | Medium | High | Critical {

    /** Penalty weight of one smell in the quality score. */
    function Weight(): nat {
      match this
      case Low => 1
      case Medium => 2
      case High => 3
      case Critical => 5
    }

    /** Position in the order Low < Medium < High < Critical. */
    function Rank(): nat {
      match this
      case Low => 0
      case Medium => 1
      case High => 2
      case Critical => 3
    }

    /** The lower-case string the source stores in `CodeSmell.severity`. */
    function Tag(): string {
      match this
      case Low => "low"
      case Medium => "medium"
      case High => "high"
      case Critical => "critical"
    }
  }

  datatype SmellKind =
    | LongMethod
    | GodClass
    | DeepNesting
    | LongParameterList
    | MissingTypeHints
    | UnusedImports
    | ManyLocalVariables
    | FeatureEnvy
    | ExceptionSwallowing
    | UnreachableCode
  {
    /** The string the source stores in `CodeSmell.type`. */
    function Tag(): string {
      match this
      case LongMethod => "long_method"
      case GodClass => "god_class"
      case DeepNesting => "deep_nesting"
      case LongParameterList => "long_parameter_list"
      case MissingTypeHints => "missing_type_hints"
      case UnusedImports => "unused_imports"
      case ManyLocalVariables => "many_local_variables"
      case FeatureEnvy => "feature_envy"
      case ExceptionSwallowing => "exception_swallowing"
      case UnreachableCode => "unreachable_code"
    }
  }

  /** The facts each description string reports; the English wording around
      them is not modelled. */
  datatype Detail =
    | MethodLines(lines: int)
    | ClassSize(lines: int, methods: int)
    | NestingDepth(depth: int)
    | ParamCount(count: int)
    | NoHints
    | UnusedNames(names: seq<string>)
    | LocalCount(count: int)
    | EnviedBase(base: string)
    | Swallowed
    | AfterTerminator

  /** `CodeSmell`: one finding, never changed after it is created. */
  datatype Smell = Smell(kind: SmellKind, file: string, nodeName: string, line: int,
                         severity: Severity, detail: Detail)

  /** Sum of the severity weights of `smells` (`smell_penalty` in the source). */
  function Penalty(smells: seq<Smell>): nat {
    if smells == [] then 0 else smells[0].severity.Weight() + Penalty(smells[1..])
  }

  /** Number of smells of the given severity. */
  function CountSeverity(smells: seq<Smell>, sev: Severity): nat {
    if smells == [] then 0
    else (if smells[0].severity == sev then 1 else 0) + CountSeverity(smells[1..], sev)
  }

  lemma {:induction false} PenaltyAppend(a: seq<Smell>, b: seq<Smell>)
    ensures Penalty(a + b) == Penalty(a) + Penalty(b)
  {
    if a == [] {
      assert a + b == b;
    } else {
      assert (a + b)[1..] == a[1..] + b;
      PenaltyAppend(a[1..], b);
    }
  }

  lemma {:induction false} CountSeverityAppend(a: seq<Smell>, b: seq<Smell>, sev: Severity)
    ensures CountSeverity(a + b, sev) == CountSeverity(a, sev) + CountSeverity(b, sev)
  {
    if a == [] {
      assert a + b == b;
    } else {
      assert (a + b)[1..] == a[1..] + b;
      CountSeverityAppend(a[1..], b, sev);
    }
  }

  /** Every smell costs between 1 and 5 penalty points. */
  lemma {:induction false} PenaltyBounds(smells: seq<Smell>)
    ensures |smells| <= Penalty(smells) <= 5 * |smells|
  {
    if smells != [] {
      PenaltyBounds(smells[1..]);
    }
  }

  /** The four per-severity counts partition the smell list. */
  lemma {:induction false} SeverityCountsPartition(smells: seq<Smell>)
    ensures CountSeverity(smells, Low) + CountSeverity(smells, Medium)
            + CountSeverity(smells, High) + CountSeverity(smells, Critical) == |smells|
  {
    if smells != [] {
      SeverityCountsPartition(smells[1..]);
    }
  }

  /** The penalty is the weighted sum of the per-severity counts. */
  lemma {:induction false} PenaltyByCounts(smells: seq<Smell>)
    ensures Penalty(smells) == CountSeverity(smells, Low) + 2 * CountSeverity(smells, Medium)
                               + 3 * CountSeverity(smells, High) + 5 * CountSeverity(smells, Critical)
  {
    if smells != [] {
      PenaltyByCounts(smells[1..]);
    }
  }
}
