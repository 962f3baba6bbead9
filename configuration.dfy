/**
 * The configuration the reminder reads (already parsed and typed), and the
 * errors the billing calculation can raise.
 */
module Configuration {
  import opened Wrappers
  import opened Calendar

  /** Person name to rent owed. */
  type Splits = map<string, real>

  /** Utility category name to the month's amount. */
  type Amounts = map<string, real>

  /** One entry of `people`; `cc` is the YAML value of the `cc` key. */
  datatype Person = Person(email: string, cc: Option<string>)

  /** One entry of the `rent` schedule: the splits in force from `since` on. */
  datatype RentEntry = RentEntry(since: Date, splits: Splits)

  datatype Config = Config(
    people: map<string, Person>,
    rent: seq<RentEntry>,
    utilities: map<int, map<int, Amounts>>,  // year -> month -> amounts
    fromAddress: string,                     // email.from
    bcc: string                              // email.bcc
  )

  datatype Error =
    | RentNotFound(date: Date)            // no schedule entry applies (KeyError)
    | NoRentFor(name: string)             // the applicable splits lack the person (KeyError)
    | NoUtilityInfo(year: int, month: int)  // no utilities for that year-month
    | UnknownPerson(name: string)         // `people` lacks the person (KeyError)
    | BadDivisor(dividedAmong: int)       // a component divided among fewer than one (ValueError)
    | DateOutOfRange(year: int)           // the due date's year is beyond MaxYear (ValueError)
    | YearBefore1900(year: int)           // `strftime` on a date before StrftimeMinYear (ValueError)

  /** Python's `if person_config['cc']`: a missing (null) or empty cc is false. */
  predicate HasCc(p: Person) {
    p.cc.Some? && p.cc.value != ""
  }
}
