/**
 * The upload ledger's data unit. A record is the dict built at upload time
 * (yafu.py:202-212); its values are the few Python types that occur there.
 */
module Records {
  import opened Common

  /** A value stored in a record or produced by the field resolver. */
  datatype Value = Str(s: string) | Int(i: int) | Bool(b: bool) | NoneValue

  /** Python's str() of a value, as safe_substitute and '%s' apply it. */
  function Show(v: Value): string
  {
    match v
    case Str(s) => s
    case Int(i) => if i < 0 then "-" + NatToDecimal(-i) else NatToDecimal(i)
    case Bool(b) => if b then "True" else "False"
    case NoneValue => "None"
  }

  /** Python's truth value of a value (`if v:`). */
  predicate Truthy(v: Value)
  {
    match v
    case Str(s) => s != ""
    case Int(i) => i != 0
    case Bool(b) => b
    case NoneValue => false
  }

  /** str() of an int reads back as that int: a leading '-' exactly for negatives, then its decimal digits. */
  lemma ShowIntReadsBack(i: int)
    ensures i >= 0 ==> ParseNat(Show(Int(i))) == Some(i)
    ensures i < 0 ==> Show(Int(i))[0] == '-' && ParseNat(Show(Int(i))[1..]) == Some(-i)
  {
    if i >= 0 {
      DecimalRoundTrip(i);
    } else {
      assert Show(Int(i))[1..] == NatToDecimal(-i);
      DecimalRoundTrip(-i);
    }
  }

  /** One upload record. `email` is None when no email was given; `expireTs` 0 means never. */
  datatype Record = Record(
    file: string,
    baseUrl: string,
    id: string,
    deleteId: string,
    expires: string,
    email: Option<string>,
    dateTs: int,
    hide: bool,
    expireTs: int)

  /** The expiry code that never expires. */
  const NeverExpires := "max"

  /** The id stored when it cannot be extracted from the service's reply. */
  const NotAvailable := "NOT_AVAILABLE"

  /** The record invariant: a record never expires exactly when its expiry code is "max". */
  predicate WellFormed(r: Record)
  {
    (r.expireTs == 0) <==> (r.expires == NeverExpires)
  }

  /** The parsed command line, as far as the core reads it. */
  datatype Options = Options(
    baseUrl: string,
    email: Option<string>,
    expires: string,
    hide: bool,
    showExpired: bool,
    number: Option<int>,
    dateFormat: string,
    format: string)
}
