/** Outcomes of the tracker's operations.

    The Python code signals every rejected payload or store operation by raising
    `ValidationError` with a message; a few malformed payloads instead make the
    interpreter raise a `TypeError` before any check fires.  Both become a
    `Failure` value here, with the message replaced by the reason it names.
 */
module Results {

  datatype Option<+T> = None | Some(value: T)

  /** Why an operation was refused.  Every constructor except `TypeFault`
      stands for a `ValidationError`. */
  datatype Failure =
    | PasswordField                 // a payload key contains "password"
    | MissingField(field: string)   // a required key is absent
    | BadCategory                   // service category outside the allowed set
    | BadUrl(field: string)         // a url field is neither a string nor null
    | BadEmail                      // email has no "@"
    | BadStatus                     // account status outside the allowed set
    | UnknownService                // a service_id that names no service
    | UnknownAccount                // an account_id that names no account
    | BadNumber(field: string)      // not a non-negative number
    | BadRenewalDay                 // renewal_day not an integer in 1..31
    | BadTags                       // tags not a list of strings
    | ThresholdAbove100             // alert_threshold_percent > 100
    | NoTarget                      // recommendation names neither account nor service
    | BadPriority                   // priority not an integer in 1..5
    | AlreadyExists                 // create on an id already present
    | IdMismatch                    // update whose payload id differs from the path id
    | NotFound                      // update or delete of an absent id
    | ServiceInUse                  // delete of a service some account uses
    | AccountHasBudget              // a second budget for one account
    | NotAnInteger                  // form text that is not an integer
    | InvalidFormat                 // stored document lacks services or accounts
    | TypeFault                     // Python raises TypeError, not ValidationError
  {
    predicate IsValidationError() { !TypeFault? }
  }

  datatype Result<+T> = Ok(value: T) | Err(failure: Failure)

  /** A check that passes or names the first reason it failed. */
  datatype Check = Pass | Fail(failure: Failure)
}
