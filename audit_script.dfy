/** The stand-alone generator with audit: the same rules, sampling and layouts as the
    generator service, but for fixed settings, with a validator that raises, and an audit
    that counts the checks that pass. */
module AuditScript {
  import opened Support
  import opened Combinatorics
  import opened GeneratorService

  const Sheets := 1200
  const NumbersPerCard := 10
  const MaxNumber := 60
  const CardsPerSheet := 3
  const SheetsPerRow := 2

  /** The script's settings as a configuration of the generator. */
  const Settings: Config := Config(Sheets, NumbersPerCard, MaxNumber, CardsPerSheet, SheetsPerRow)

  /** The derived values, computed the way the script computes them. */
  const CombinationsNeeded := Sheets * CardsPerSheet
  const PairedRows := FloorDiv(Sheets, SheetsPerRow)
  const SecondSheetStart := FloorDiv(Sheets, 2) + 1

  /** The derived values are the generator's own quantities for these settings. */
  lemma DerivedConstants()
    ensures CombinationsNeeded == Needed(Settings) == 3600
    ensures PairedRows == CorelRows(Settings) == 600
    ensures SecondSheetStart == RightStart(Settings) == 601
  {
  }

  /** validar_configuracion of the script: the generator's rules, with a non-empty list of
      violations turned into a ValueError, and the exceptions the rules themselves raise. */
  function ValidateOrRaise(c: Config): Option<PyException>
  {
    match ValidationOf(c)
    case Raised(e) => Some(e)
    case Checked(ok, _) => if ok then None else Some(ValueError)
  }

  /** The script goes on exactly when every rule holds; when it stops on a broken rule the
      validator has at least one violation to report. */
  lemma ValidateOrRaiseIffInvalid(c: Config)
    ensures ValidateOrRaise(c).None? <==> ValidConfig(c)
    ensures ValidationOf(c).Checked? && ValidateOrRaise(c).Some? ==>
      ValidateOrRaise(c) == Some(ValueError) && ValidationOf(c).errors != []
  {
    if ValidationOf(c).Checked? {
      ValidationOkIffNoErrors(c);
    }
  }

  /** The fixed settings pass validation. */
  lemma SettingsAreValid()
    ensures ValidConfig(Settings)
    ensures ValidateOrRaise(Settings).None?
  {
    CapacityBound();
    ValidateOrRaiseIffInvalid(Settings);
  }

  /** The capacity rule for the script's settings: C(60, 10) distinct cards of ten numbers
      from 1..60 exist (NUMERO_MAXIMO, NUMEROS_POR_CARTON), at least the 3600 needed
      (COMBINACIONES_NECESARIAS), since C(60, 10) is at least C(53, 3) = 23426. */
  lemma CapacityBound()
    ensures Binomial(60, 10) >= 3600
  {
    var n: nat :| n == 53;
    BinomialTenFromThree(n);
    assert Binomial(n + 7, 10) >= 3600;
  }

  /** How many of the checks passed (counted from the front). */
  function CountPassed(checks: seq<Check>): (n: nat)
    ensures n <= |checks|
  {
    if checks == [] then 0
    else CountPassed(checks[..|checks| - 1]) + (if checks[|checks| - 1].ok then 1 else 0)
  }

  /** All checks passed exactly when the count reaches the number of checks. */
  lemma {:induction false} CountPassedAll(checks: seq<Check>)
    ensures CountPassed(checks) == |checks| <==> forall i :: 0 <= i < |checks| ==> checks[i].ok
  {
    if checks != [] {
      var init := checks[..|checks| - 1];
      CountPassedAll(init);
      assert forall i :: 0 <= i < |init| ==> init[i] == checks[i];
    }
  }

  /** ejecutar_auditoria of the script: the six checks in order, each passing one adding
      exactly one to the count; the result is (passed, 6). */
  method CountAudit(t: SimpleTable, corel: seq<CorelRow>) returns (passed: nat, total: nat)
    ensures total == 6 && passed <= total
    ensures passed == CountPassed(AuditChecks(t, |corel|, Settings))
  {
    var checks := AuditChecks(t, |corel|, Settings);
    passed := 0;
    total := 6;
    var i := 0;
    while i < |AuditOrder|
      invariant 0 <= i <= |AuditOrder|
      invariant passed == CountPassed(checks[..i])
    {
      assert checks[..i + 1][..i] == checks[..i];
      if CheckPasses(AuditOrder[i], t, |corel|, Settings) {
        passed := passed + 1;
      }
      i := i + 1;
    }
    assert checks[..i] == checks;
  }

  datatype Status = Passed | Failed

  /** The rule of imprimir_resumen: PASADA exactly when every check passed. */
  function Verdict(passed: int, total: int): (s: Status)
    ensures s == Passed <==> passed == total
  {
    if passed == total then Passed else Failed
  }

  /** The script's verdict on a count from CountAudit agrees with the generator service's
      overall flag: both say that all six checks pass. */
  lemma VerdictIffAllChecksPass(t: SimpleTable, corelRows: int)
    ensures Verdict(CountPassed(AuditChecks(t, corelRows, Settings)), 6) == Passed <==>
      forall i :: 0 <= i < |AuditOrder| ==> CheckPasses(AuditOrder[i], t, corelRows, Settings)
  {
    var checks := AuditChecks(t, corelRows, Settings);
    CountPassedAll(checks);
    assert forall i :: 0 <= i < |checks| ==> checks[i].ok == CheckPasses(AuditOrder[i], t, corelRows, Settings);
  }

  datatype ScriptRun =
    | OutOfSamples
    | Finished(pool: seq<seq<int>>, simple: SimpleTable, corel: seq<CorelRow>, passed: nat, total: nat)

  /** The script's main steps without the files: validate, sample, lay out both ways, audit
      and count. */
  method RunAuditScript(draws: seq<seq<int>>) returns (r: ScriptRun)
    requires forall i :: 0 <= i < |draws| ==> IsSample(draws[i], NumbersPerCard, MaxNumber)
    ensures r.Finished? ==> (|r.pool| == CombinationsNeeded && NoDuplicates(r.pool)
      && AllCombinations(r.pool, NumbersPerCard, MaxNumber))
    ensures r.Finished? ==> (CreateSimple(r.pool, NumbersPerCard) == Success(r.simple)
      && CorelLayout(r.pool, Settings) == Success(r.corel))
    ensures r.Finished? ==> Verdict(r.passed, r.total) == Passed
    ensures r.OutOfSamples? ==> |Accepted(draws, |draws|)| < CombinationsNeeded
  {
    SettingsAreValid();
    var g := GenerateCombinations(draws, CombinationsNeeded, NumbersPerCard, MaxNumber);
    if g.SamplesExhausted? {
      return OutOfSamples;
    }
    var pool := g.pool;
    GeneratedOutputPassesAudit(pool, Settings);
    var simple := CreateSimple(pool, NumbersPerCard);
    var corel := CreateCorel(pool, Settings);
    var passed, total := CountAudit(simple.value, corel.value);
    VerdictIffAllChecksPass(simple.value, |corel.value|);
    return Finished(pool, simple.value, corel.value, passed, total);
  }
}
