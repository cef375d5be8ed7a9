/** The result constructors every validator uses. */
module BaseValidator {
  import opened Domain

  const DefaultPassMessage := "Validation passed"

  /** `pass($message, $details)`: a passing result echoing its arguments. */
  function Pass(message: string, details: Details): (r: CheckResult)
    ensures r.passed
    ensures r.message == message && r.details == details
  {
    CheckResult(true, message, details)
  }

  /** `fail($message, $details)`: a failing result echoing its arguments. */
  function Fail(message: string, details: Details): (r: CheckResult)
    ensures !r.passed
    ensures r.message == message && r.details == details
  {
    CheckResult(false, message, details)
  }

  /** `pass()` with both arguments defaulted. */
  function PassWithDefaults(): (r: CheckResult)
    ensures r.passed && r.message == DefaultPassMessage && r.details == NoDetails
  {
    Pass(DefaultPassMessage, NoDetails)
  }

  /** `fail($message)` with the details defaulted to `[]`. */
  function FailWithoutDetails(message: string): (r: CheckResult)
    ensures !r.passed && r.message == message && r.details == NoDetails
  {
    Fail(message, NoDetails)
  }
}
