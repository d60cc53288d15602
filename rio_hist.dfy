/** The `--match-proportion` option check of the `rio hist` command. */
module RioHist {
  import opened Wrappers

  /** `validate_proportion`: a value outside [0, 1] is a bad parameter;
      any other comes back, as a float, unchanged. */
  function ValidateProportion(value: real): (r: Result<real>)
    ensures r.Err? <==> value < 0.0 || value > 1.0
    ensures r.Err? ==> r.error == BadParameter
    ensures r.Ok? ==> r.value == value && 0.0 <= r.value <= 1.0
  {
    if value < 0.0 || value > 1.0 then Err(BadParameter) else Ok(value)
  }

  /** The cases the command's own tests pin down: 0, 0.5 and 1 pass, 9000 fails. */
  lemma ValidateProportionExamples()
    ensures ValidateProportion(0.0) == Ok(0.0)
    ensures ValidateProportion(0.5) == Ok(0.5)
    ensures ValidateProportion(1.0) == Ok(1.0)
    ensures ValidateProportion(9000.0) == Err(BadParameter)
  {
  }

  /** Validation is idempotent: an accepted value is accepted again as itself. */
  lemma ValidateProportionIdempotent(value: real)
    requires ValidateProportion(value).Ok?
    ensures ValidateProportion(ValidateProportion(value).value) == ValidateProportion(value)
  {
  }
}
