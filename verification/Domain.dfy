/** Values shared by every component: instants, identifiers, measurement quality and
    canonical scalar values. */
module Domain {

  /** An instant, in nanoseconds since Go's zero time (1 January of year 1, 00:00 UTC).
      The value 0 is exactly the instant for which `IsZero` holds. Durations are
      nanoseconds as well. */
  type Time = int
  type Duration = int

  const SECOND: Duration := 1_000_000_000
  const DAY: Duration := 86_400 * SECOND

  /** The UTC calendar date of an instant, as a day number. Dafny's `/` floors for a
      positive divisor, so instants before year 1 are dated correctly as well. */
  function UtcDay(t: Time): int {
    t / DAY
  }

  datatype Option<+T> = None | Some(value: T)

  type Id = string

  predicate IsHexDigit(c: char) {
    '0' <= c <= '9' || 'a' <= c <= 'f' || 'A' <= c <= 'F'
  }

  function WithoutDashes(s: string): string {
    if s == [] then [] else (if s[0] == '-' then [] else [s[0]]) + WithoutDashes(s[1..])
  }

  /** The source's UUID check: dashes at the four canonical places, and what is left once
      every dash is removed decodes as hexadecimal. */
  predicate ValidUuid(s: string) {
    && |s| == 36
    && s[8] == '-' && s[13] == '-' && s[18] == '-' && s[23] == '-'
    && var digits := WithoutDashes(s);
       |digits| % 2 == 0 && forall i :: 0 <= i < |digits| ==> IsHexDigit(digits[i])
  }

  datatype Quality = Good | Suspect | Stale | Invalid | Unavailable | UnknownQuality

  /** A `float64`, with the rounding of finite values left out. */
  datatype Float = Finite(value: real) | NotFinite

  datatype QuantityKind =
    | Temperature | Ph | Salinity | Flow | Level | Power | Voltage | Current | UnknownQuantity
  datatype Unit =
    | Celsius | PhUnits | Ppt | LitersPerHour | Percent | Watts | Volts | Amperes | UnknownUnit

  datatype Quantity = Quantity(kind: QuantityKind, value: Float, unit: Unit) {
    predicate Valid() {
      && value.Finite?
      && (match kind
          case Temperature => unit == Celsius
          case Ph => unit == PhUnits && 0.0 <= value.value <= 14.0
          case Salinity => unit == Ppt
          case Flow => unit == LitersPerHour
          case Level => unit == Percent && 0.0 <= value.value <= 100.0
          case Power => unit == Watts
          case Voltage => unit == Volts
          case Current => unit == Amperes
          case UnknownQuantity => false)
    }
  }

  datatype ValueKind = QuantityValue | BooleanValue | TextValue | UnknownValue

  /** A canonical scalar: a discriminator and three optional members. */
  datatype Value = Value(kind: ValueKind, quantity: Option<Quantity>, boolean: Option<bool>, text: Option<string>) {
    predicate Valid() {
      match kind
      case QuantityValue => quantity.Some? && boolean.None? && text.None? && quantity.value.Valid()
      case BooleanValue => quantity.None? && boolean.Some? && text.None?
      case TextValue => quantity.None? && boolean.None? && text.Some?
      case UnknownValue => false
    }
  }

  function NewQuantityValue(q: Quantity): Value {
    Value(QuantityValue, Some(q), None, None)
  }
}
