/** The few request-schema combinators the controllers use: a string with a
    minimum length, an optional string, an optional boolean and a string that
    must parse as a date. `Date.parse` is a parameter: it gives `None` where
    JavaScript gives `NaN`. */
module Schema {
  import opened Http

  /** `z.string().min(n)`: a present string of at least `n` characters. */
  function RequiredString(f: Option<Value>, minLen: nat): (r: Option<string>)
    ensures r.Some? <==> f.Some? && f.value.Str? && |f.value.s| >= minLen
    ensures r.Some? ==> f == Some(Str(r.value))
  {
    match f
    case Some(Str(s)) => if |s| >= minLen then Some(s) else None
    case _ => None
  }

  /** `z.string().optional()`: accepts an absent field or a string; the outer
      `None` is a validation failure. */
  function OptionalString(f: Option<Value>): (r: Option<Option<string>>)
    ensures r.Some? <==> f.None? || f.value.Str?
    ensures r == Some(None) <==> f.None?
    ensures forall s :: r == Some(Some(s)) <==> f == Some(Str(s))
  {
    match f
    case None => Some(None)
    case Some(Str(s)) => Some(Some(s))
    case _ => None
  }

  /** `z.boolean().optional()`. */
  function OptionalBool(f: Option<Value>): (r: Option<Option<bool>>)
    ensures r.Some? <==> f.None? || f.value.Bool?
    ensures r == Some(None) <==> f.None?
    ensures forall b :: r == Some(Some(b)) <==> f == Some(Bool(b))
  {
    match f
    case None => Some(None)
    case Some(Bool(b)) => Some(Some(b))
    case _ => None
  }

  /** A date string together with the instant (milliseconds since the epoch)
      that `Date.parse` and `new Date` give for it. */
  datatype DateField = DateField(text: string, instant: int)

  /** `z.string().refine(val => !isNaN(Date.parse(val)))`. */
  function DateString(f: Option<Value>, parseDate: string -> Option<int>): (r: Option<DateField>)
    ensures r.Some? <==> f.Some? && f.value.Str? && parseDate(f.value.s).Some?
    ensures r.Some? ==> f == Some(Str(r.value.text)) && parseDate(r.value.text) == Some(r.value.instant)
  {
    match f
    case Some(Str(s)) =>
      (match parseDate(s)
       case Some(ms) => Some(DateField(s, ms))
       case None => None)
    case _ => None
  }

  /** `z.string().refine(...).optional()` for a date. */
  function OptionalDateString(f: Option<Value>, parseDate: string -> Option<int>): (r: Option<Option<DateField>>)
    ensures r == Some(None) <==> f.None?
    ensures r.Some? <==> f.None? || DateString(f, parseDate).Some?
    ensures forall d :: r == Some(Some(d)) <==> DateString(f, parseDate) == Some(d)
  {
    if f.None? then Some(None)
    else match DateString(f, parseDate)
      case Some(d) => Some(Some(d))
      case None => None
  }
}
