/**
 * `generate_slides_with_validation`
 * (template2slide/scripts/generate_with_validation.py): generate the slides,
 * validate them, and retry until they pass or the iteration budget is spent.
 *
 * Generation and validation touch the file system and run the whole
 * pipeline, so the model takes their outcomes as given: `attempts(k)` is
 * what the k-th iteration's generation and validation produced.
 */
module ValidationLoop {
  import opened Wrappers
  import opened SlideValidation
  import ModuleExtraction

  /** What `validate_slides` did: returned a result, or raised with a message. */
  datatype Validation = Completed(result: ValidationResult) | Raised(message: string)

  /** One iteration's generation: it failed with a message, or it wrote a
      structure file that was then validated. */
  datatype Attempt =
    | GenerationFailed(message: string)
    | Generated(structureFile: string, validation: Validation)

  /** An entry of `all_results`. */
  datatype Record =
    | GenerationFailedRecord(iteration: nat, error: string)
    | ValidatedRecord(iteration: nat, passed: bool, errorCount: nat, warningCount: nat)

  /** `final_validation`; `errorList` is present only after a failed last iteration. */
  datatype FinalValidation = FinalValidation(passed: bool, errorCount: nat, warningCount: nat, errorList: Option<seq<Issue>>)

  /** The dictionary the loop returns. */
  datatype Outcome = Outcome(
    success: bool,
    iterations: nat,
    structureFile: Option<string>,
    records: seq<Record>,
    final: Option<FinalValidation>,
    error: Option<string>)

  const UnexpectedTermination := "Unexpected loop termination"

  /**
   * `subagent2_validate`: a result passes through unchanged; an exception
   * becomes a failed result holding exactly one critical error of the
   * validation category.
   */
  function Subagent2Validate(v: Validation): (r: ValidationResult)
    ensures v.Completed? ==> r == v.result
    ensures v.Raised? ==> !r.passed && HasCriticalErrors(r) && r.warnings == []
    ensures v.Raised? ==> |r.errors| == 1 && CategoryOf(r.errors[0].kind) == ValidationIssue
  {
    match v
    case Completed(result) => result
    case Raised(message) =>
      var r := ValidationResult(false, [Issue(Critical, ValidationFailed(message))], []);
      assert r.errors[0].severity == Critical;
      r
  }

  /** The text of the error `_extract_modules` raises when no `### Module` header bound `match`. */
  const UnboundMatchMessage := "cannot access local variable 'match' where it is not associated with a value"

  /** `validate_slides` on a template read as `ValidateSection` reads it. */
  function ValidationOf(r: Result<ValidationResult, ModuleExtraction.ExtractionError>): (v: Validation)
    ensures r.Ok? <==> v.Completed?
    ensures r.Ok? ==> v.result == r.value
  {
    if r.Ok? then Completed(r.value) else Raised(UnboundMatchMessage)
  }

  /**
   * A template whose module section has only bold module headers makes
   * `validate` raise, whatever the slides, and the loop records exactly one
   * critical validation error for it.
   */
  lemma BoldOnlyTemplateFails(sections: set<string>, c: ModuleExtraction.Header, plain: seq<string>,
                              requirement: string, slides: seq<JsonSlide>)
    ensures var modules := Some(ModuleExtraction.ModuleSection([], [], [c], plain));
      var r := Subagent2Validate(ValidationOf(ValidateSection(sections, modules, requirement, slides)));
      !r.passed && r.errors == [Issue(Critical, ValidationFailed(UnboundMatchMessage))] && r.warnings == []
  {
  }

  /** The validation result of a generated attempt. */
  function ResultOf(a: Attempt): ValidationResult
    requires a.Generated?
  {
    Subagent2Validate(a.validation)
  }

  /** The iteration passed validation. */
  predicate Passes(a: Attempt) {
    a.Generated? && ResultOf(a).passed
  }

  /** The iteration generated slides that failed validation, so the loop goes on
      when budget remains. */
  predicate Retries(a: Attempt) {
    a.Generated? && !ResultOf(a).passed
  }

  /** The `all_results` entry iteration `k` appends. */
  function RecordOf(k: nat, a: Attempt): Record {
    match a
    case GenerationFailed(message) => GenerationFailedRecord(k, message)
    case Generated(_, _) =>
      var res := ResultOf(a);
      ValidatedRecord(k, res.passed, |res.errors|, |res.warnings|)
  }

  /** The number of iterations the `while` condition allows. */
  function Budget(maxIterations: int): nat {
    if maxIterations <= 0 then 0 else maxIterations
  }

  /** The return after the loop: reached on a generation failure or when the
      loop never ran. */
  function Unexpected(iterations: nat, records: seq<Record>): Outcome {
    Outcome(false, iterations, None, records, None, Some(UnexpectedTermination))
  }

  /**
   * The loop from the point where `done` iterations have run and produced
   * `records`: the reference definition, one iteration per call.
   */
  function Loop(attempts: nat -> Attempt, maxIterations: int, done: nat, records: seq<Record>): Outcome
    decreases maxIterations - done
  {
    if done >= maxIterations then Unexpected(done, records)
    else
      var k := done + 1;
      var a := attempts(k);
      var recs := records + [RecordOf(k, a)];
      match a
      case GenerationFailed(_) => Unexpected(k, recs)
      case Generated(file, _) =>
        var res := ResultOf(a);
        if res.passed then
          Outcome(true, k, Some(file), recs, Some(FinalValidation(true, |res.errors|, |res.warnings|, None)), None)
        else if k >= maxIterations then
          Outcome(false, k, Some(file), recs, Some(FinalValidation(false, |res.errors|, |res.warnings|, Some(res.errors))), None)
        else Loop(attempts, maxIterations, k, recs)
  }

  /** The records of the first `n` iterations, one per iteration, in order. */
  predicate RecordsOf(attempts: nat -> Attempt, n: nat, records: seq<Record>) {
    |records| == n && forall j :: 0 <= j < n ==> records[j] == RecordOf(j + 1, attempts(j + 1))
  }

  /** What the loop promises about its result. */
  predicate Characterised(attempts: nat -> Attempt, maxIterations: int, r: Outcome) {
    && r.iterations <= Budget(maxIterations)
    && RecordsOf(attempts, r.iterations, r.records)
    // every iteration before the last generated slides that failed validation
    && (forall j :: 1 <= j < r.iterations ==> Retries(attempts(j)))
    // it stopped early only because generation failed or validation passed
    && (r.iterations < Budget(maxIterations) ==> r.iterations >= 1 && !Retries(attempts(r.iterations)))
    && (r.success <==> r.iterations >= 1 && Passes(attempts(r.iterations)))
    && (r.error == Some(UnexpectedTermination) <==> r.iterations == 0 || attempts(r.iterations).GenerationFailed?)
    && (r.error.None? <==> r.final.Some?)
    && (r.iterations >= 1 && Retries(attempts(r.iterations)) ==>
          !r.success && r.iterations == Budget(maxIterations)
          && r.final == Some(FinalValidation(false, |ResultOf(attempts(r.iterations)).errors|,
                                              |ResultOf(attempts(r.iterations)).warnings|,
                                              Some(ResultOf(attempts(r.iterations)).errors))))
  }

  /** The step case: one more iteration of the loop keeps the promises. */
  lemma {:induction false} LoopCharacterised(attempts: nat -> Attempt, maxIterations: int, done: nat, records: seq<Record>)
    requires done <= Budget(maxIterations)
    requires RecordsOf(attempts, done, records)
    requires forall j :: 1 <= j <= done ==> Retries(attempts(j))
    requires done == 0 || done < maxIterations
    ensures Characterised(attempts, maxIterations, Loop(attempts, maxIterations, done, records))
    decreases maxIterations - done
  {
    var r := Loop(attempts, maxIterations, done, records);
    if done >= maxIterations {
      assert done == 0;
    } else {
      var k := done + 1;
      var a := attempts(k);
      var recs := records + [RecordOf(k, a)];
      assert RecordsOf(attempts, k, recs) by {
        forall j | 0 <= j < k ensures recs[j] == RecordOf(j + 1, attempts(j + 1)) {
          if j < done {
            assert recs[j] == records[j];
          }
        }
      }
      if Retries(a) && k < maxIterations {
        assert r == Loop(attempts, maxIterations, k, recs);
        LoopCharacterised(attempts, maxIterations, k, recs);
      }
    }
  }

  /** `generate_slides_with_validation` over the given iteration outcomes. */
  function Generate(attempts: nat -> Attempt, maxIterations: int): Outcome {
    Loop(attempts, maxIterations, 0, [])
  }

  /** The loop's promises hold for every run. */
  lemma GenerateCharacterised(attempts: nat -> Attempt, maxIterations: int)
    ensures Characterised(attempts, maxIterations, Generate(attempts, maxIterations))
  {
    LoopCharacterised(attempts, maxIterations, 0, []);
  }

  /** The run succeeds exactly when some iteration within budget passes and
      every iteration before it generated slides that failed validation. */
  lemma SuccessAtFirstPass(attempts: nat -> Attempt, maxIterations: int, k: nat)
    requires 1 <= k <= Budget(maxIterations)
    requires forall j :: 1 <= j < k ==> Retries(attempts(j))
    ensures Passes(attempts(k)) <==> Generate(attempts, maxIterations).success && Generate(attempts, maxIterations).iterations == k
  {
    var r := Generate(attempts, maxIterations);
    GenerateCharacterised(attempts, maxIterations);
    if r.iterations > k {
      assert Retries(attempts(k));
    }
  }

  /**
   * The loop as the source writes it: a `while` over the iteration counter.
   * `autoFix` is accepted and has no effect on the result.
   */
  method GenerateSlidesWithValidation(attempts: nat -> Attempt, maxIterations: int, autoFix: bool) returns (r: Outcome)
    ensures r == Generate(attempts, maxIterations)
    ensures Characterised(attempts, maxIterations, r)
    ensures maxIterations <= 0 ==> r == Outcome(false, 0, None, [], None, Some(UnexpectedTermination))
  {
    var iteration: nat := 0;
    var allResults: seq<Record> := [];
    while iteration < maxIterations
      invariant iteration <= Budget(maxIterations)
      invariant iteration == 0 || iteration < maxIterations
      invariant RecordsOf(attempts, iteration, allResults)
      invariant forall j :: 1 <= j <= iteration ==> Retries(attempts(j))
      invariant Loop(attempts, maxIterations, iteration, allResults) == Generate(attempts, maxIterations)
      decreases maxIterations - iteration
    {
      var before := allResults;
      iteration := iteration + 1;
      var a := attempts(iteration);
      if a.GenerationFailed? {
        allResults := allResults + [GenerationFailedRecord(iteration, a.message)];
        break;
      }
      var res := Subagent2Validate(a.validation);
      allResults := allResults + [ValidatedRecord(iteration, res.passed, |res.errors|, |res.warnings|)];
      if res.passed {
        r := Outcome(true, iteration, Some(a.structureFile), allResults,
                     Some(FinalValidation(true, |res.errors|, |res.warnings|, None)), None);
        GenerateCharacterised(attempts, maxIterations);
        return;
      }
      if iteration >= maxIterations {
        r := Outcome(false, iteration, Some(a.structureFile), allResults,
                     Some(FinalValidation(false, |res.errors|, |res.warnings|, Some(res.errors))), None);
        GenerateCharacterised(attempts, maxIterations);
        return;
      }
      assert RecordsOf(attempts, iteration, allResults) by {
        forall j | 0 <= j < iteration ensures allResults[j] == RecordOf(j + 1, attempts(j + 1)) {
          if j < iteration - 1 {
            assert allResults[j] == before[j];
          }
        }
      }
    }
    r := Outcome(false, iteration, None, allResults, None, Some(UnexpectedTermination));
    GenerateCharacterised(attempts, maxIterations);
  }
}
