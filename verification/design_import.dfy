/**
  Importing a design file: parsing and validating its text, applying a
  validated export to a configuration, and turning validation errors into
  display lines. `JSON.parse` is not modelled: its result is the `Parsed` input.
 */
module DesignImport {
  import opened Wrappers
  import opened Text
  import opened Json
  import opened Schema
  import opened Validator
  import opened Transformer

  /** What `JSON.parse` gives for the file text: a value, or the message of the exception it throws. */
  datatype Parsed = Parsed(value: Value) | Unparseable(message: string)

  const InvalidJsonPrefix := "Invalid JSON: "

  /** The single `root` error an exception during parsing or validation turns into. */
  function ExceptionResult(message: string): (r: ValidationResult)
    ensures WellFormedResult(r) && IsRootFailure(r)
  {
    Failure([ValidationError("root", InvalidJsonPrefix + message, Undefined)])
  }

  /** A failure with exactly one error, at `root`, whose message starts with `Invalid JSON: `. */
  predicate IsRootFailure(r: ValidationResult) {
    && !r.success && r.errors.Some? && |r.errors.value| == 1
    && r.errors.value[0].field == "root" && StartsWith(r.errors.value[0].message, InvalidJsonPrefix)
  }

  /** `parseDesignImport`: validation of the parsed value; any exception becomes one `root` error. */
  function ParseDesignImport(input: Parsed): (r: ValidationResult)
    ensures WellFormedResult(r)
    ensures input.Unparseable? ==> IsRootFailure(r)
    ensures input.Parsed? && ValidateDesignImport(input.value).Thrown? ==> IsRootFailure(r)
    ensures input.Parsed? && ValidateDesignImport(input.value).Returned? ==> r == ValidateDesignImport(input.value).value
  {
    match input
    case Unparseable(m) => ExceptionResult(m)
    case Parsed(v) =>
      match ValidateDesignImport(v)
      case Thrown(m) => ExceptionResult(m)
      case Returned(result) => result
  }

  /** A file is accepted exactly when it parses to a document the validator accepts. */
  lemma ParseAccepts(input: Parsed)
    ensures ParseDesignImport(input).success <==> input.Parsed? && DocumentAccepted(input.value)
  {
    if input.Parsed? {
      AcceptedIffSuccess(input.value);
    }
  }

  /** The options `applyImport` uses when the caller passes none: every group. */
  const AllOptions := ImportOptions(true, true, true, true, true)

  /** `applyImport`: `mergePartialExport` with the caller's options. */
  function ApplyImport(current: Value, importData: DesignExportFormat, options: ImportOptions): (r: Fields)
    requires !current.Str? && !current.Arr?
    ensures var incoming := ExportToConfig(importData.design).fields;
      forall k :: Overwritten(options, k) ==> k in r && k in incoming && r[k] == incoming[k]
    ensures forall k :: !Overwritten(options, k) ==> (k in r <==> k in Spread(current)) && (k in r ==> r[k] == Spread(current)[k])
  {
    var r := MergePartialExport(current, importData.design, options);
    var incoming := ExportToConfig(importData.design).fields;
    forall k | Overwritten(options, k) ensures k in r && k in incoming && r[k] == incoming[k] {
      MergeOverwrites(current, importData.design, options, k);
    }
    forall k | !Overwritten(options, k) ensures (k in r <==> k in Spread(current)) && (k in r ==> r[k] == Spread(current)[k]) {
      MergeKeeps(current, importData.design, options, k);
    }
    r
  }

  /** With every group enabled, exactly the keys `exportToConfig` produces are overwritten. */
  lemma {:induction false} AllOptionsOverwrite(k: string)
    ensures Overwritten(AllOptions, k) <==> k in LayoutKeys || k in NestedKeys
  {
    assert NestedKeys == GroupKeyList(ColorsGroup) + GroupKeyList(TypographyGroup) + GroupKeyList(ComponentsGroup) + GroupKeyList(AnimationsGroup);
    if k in LayoutKeys {
      assert LayoutGroup in AllGroups;
    } else if k in GroupKeyList(ColorsGroup) {
      assert ColorsGroup in AllGroups;
    } else if k in GroupKeyList(TypographyGroup) {
      assert TypographyGroup in AllGroups;
    } else if k in GroupKeyList(ComponentsGroup) {
      assert ComponentsGroup in AllGroups;
    } else if k in GroupKeyList(AnimationsGroup) {
      assert AnimationsGroup in AllGroups;
    } else {
      forall g | g in AllGroups ensures k !in GroupKeyList(g) {
      }
    }
  }

  /** With the default options, the import is the current configuration updated with the whole converted design. */
  lemma ApplyAllOptions(current: Value, importData: DesignExportFormat)
    requires !current.Str? && !current.Arr?
    ensures ApplyImport(current, importData, AllOptions) == Spread(current) + ExportToConfig(importData.design).fields
  {
    var r := ApplyImport(current, importData, AllOptions);
    var incoming := ExportToConfig(importData.design).fields;
    forall k ensures (k in r <==> k in Spread(current) + incoming) && (k in r ==> r[k] == (Spread(current) + incoming)[k]) {
      AllOptionsOverwrite(k);
    }
  }

  // ---------------------------------------------------------------------
  // error display

  const CurrentValueOpen := " (current value: "

  /** One display line: the message, with the offending value's text appended when the error has
      one; the template literal throws when that value is unprintable. */
  function FormatError(e: ValidationError): (r: Outcome<string>)
    ensures r.Thrown? <==> !e.value.Undefined? && Unprintable(e.value)
    ensures r == Returned(e.message) <==> e.value.Undefined?
    ensures r.Returned? ==> StartsWith(r.value, e.message)
    ensures r.Returned? && !e.value.Undefined? ==>
      ToString(e.value).Returned? && EndsWith(r.value, ToString(e.value).value + ")")
  {
    if e.value.Undefined? then Returned(e.message)
    else
      ToStringThrowsIff(e.value);
      match ToString(e.value)
      case Thrown(m) => Thrown(m)
      case Returned(text) =>
        var tail := text + ")";
        var line := e.message + CurrentValueOpen + tail;
        assert line[..|e.message|] == e.message;
        assert line[|line| - |tail|..] == tail;
        Returned(line)
  }

  /** `formatValidationErrors`: one line per error, in order; `map` stops at the first error whose line throws. */
  function FormatValidationErrors(errors: seq<ValidationError>): (r: Outcome<seq<string>>)
    ensures r.Thrown? <==> exists i :: 0 <= i < |errors| && FormatError(errors[i]).Thrown?
    ensures r.Returned? ==> |r.value| == |errors| && forall i :: 0 <= i < |errors| ==> FormatError(errors[i]) == Returned(r.value[i])
  {
    MapOutcomeSpec(FormatError, errors);
    MapOutcome(FormatError, errors)
  }

  /** Formatting a concatenation of error lists formats each list in turn, and throws when either part does. */
  lemma FormatAppend(a: seq<ValidationError>, b: seq<ValidationError>)
    ensures FormatValidationErrors(a + b).Returned? <==> FormatValidationErrors(a).Returned? && FormatValidationErrors(b).Returned?
    ensures FormatValidationErrors(a + b).Returned? ==>
      FormatValidationErrors(a + b).value == FormatValidationErrors(a).value + FormatValidationErrors(b).value
  {
    MapOutcomeAppend(FormatError, a, b);
  }
}
