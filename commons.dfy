/**
 * Shared vocabulary of the duration parser: the eight duration fields, their
 * fixed millisecond magnitudes (BASE_VALUES), the shape of a unit-synonym
 * table (TimeStrings), the error kinds the library raises, and the way a
 * JavaScript call completes (a value, or a thrown error).
 */
module Commons {

  datatype Option<+T> = None | Some(value: T)

  /** The fields of a TimeStrings table, in their declared order. */
  datatype Field = Milliseconds | Seconds | Minutes | Hours | Days | Weeks | Months | Years

  const FIELDS: seq<Field> := [Milliseconds, Seconds, Minutes, Hours, Days, Weeks, Months, Years]

  /** Position of a field in the declared order. */
  function Rank(f: Field): (k: nat)
    ensures k < |FIELDS| && FIELDS[k] == f
  {
    match f
    case Milliseconds => 0
    case Seconds => 1
    case Minutes => 2
    case Hours => 3
    case Days => 4
    case Weeks => 5
    case Months => 6
    case Years => 7
  }

  /** BASE_VALUES: how many milliseconds one unit of a field stands for. */
  function BaseValue(f: Field): nat
  {
    match f
    case Milliseconds => 1
    case Seconds => 1_000
    case Minutes => 60_000
    case Hours => 3_600_000
    case Days => 86_400_000
    case Weeks => 604_800_000
    case Months => 2_592_000_000
    case Years => 31_536_000_000
  }

  /**
   * `quantity * BASE_VALUES[f]`, written with one constant factor per field
   * so that it stays linear in `quantity`.
   */
  function Scaled(quantity: real, f: Field): real
  {
    match f
    case Milliseconds => quantity
    case Seconds => 1_000.0 * quantity
    case Minutes => 60_000.0 * quantity
    case Hours => 3_600_000.0 * quantity
    case Days => 86_400_000.0 * quantity
    case Weeks => 604_800_000.0 * quantity
    case Months => 2_592_000_000.0 * quantity
    case Years => 31_536_000_000.0 * quantity
  }

  lemma ScaledIsProduct(quantity: real, f: Field)
    ensures Scaled(quantity, f) == quantity * BaseValue(f) as real
  {
  }

  /** The magnitudes are built from one another: months are 30 days, years 365 days. */
  lemma BaseValueRatios()
    ensures BaseValue(Milliseconds) == 1
    ensures BaseValue(Seconds) == 1000 * BaseValue(Milliseconds)
    ensures BaseValue(Minutes) == 60 * BaseValue(Seconds)
    ensures BaseValue(Hours) == 60 * BaseValue(Minutes)
    ensures BaseValue(Days) == 24 * BaseValue(Hours)
    ensures BaseValue(Weeks) == 7 * BaseValue(Days)
    ensures BaseValue(Months) == 30 * BaseValue(Days)
    ensures BaseValue(Years) == 365 * BaseValue(Days)
  {
  }

  /** The magnitudes strictly increase along the declared field order, and only along it. */
  lemma BaseValueMonotonic(f: Field, g: Field)
    ensures Rank(f) < Rank(g) <==> BaseValue(f) < BaseValue(g)
    ensures BaseValue(f) == BaseValue(g) <==> f == g
  {
  }

  /** One key of a TimeStrings object: a field and its accepted spellings. */
  datatype Entry = Entry(field: Field, synonyms: seq<string>)

  /**
   * A TimeStrings object as a list of its keys in property order
   * (Object.keys order decides which field a shared spelling resolves to).
   */
  type TimeStrings = seq<Entry>

  function FieldsOf(t: TimeStrings): (fs: seq<Field>)
    ensures |fs| == |t|
    ensures forall k :: 0 <= k < |t| ==> fs[k] == t[k].field
  {
    if t == [] then [] else [t[0].field] + FieldsOf(t[1..])
  }

  /** `t[f]` on the object: the spellings stored under the first key equal to `f`. */
  function Lookup(t: TimeStrings, f: Field): (r: Option<seq<string>>)
    ensures r.None? <==> f !in FieldsOf(t)
    ensures r.Some? ==> exists k :: 0 <= k < |t| && t[k] == Entry(f, r.value)
  {
    if t == [] then None
    else if t[0].field == f then Some(t[0].synonyms)
    else Lookup(t[1..], f)
  }

  /** The errors the library throws, by kind (message texts are not modelled). */
  datatype Error =
    | MissingKeys(keys: seq<Field>)        // Error: required keys absent or falsy
    | NotAnArray(key: Field)               // TypeError: a key holds a non-array
    | EmptyArray(key: Field)               // Error: a key holds an empty array
    | AlreadyRegistered(locale: string)    // Error: registration without overwrite
    | UnknownLocale(locale: string)        // Error: parse against an unregistered locale
    | InvalidNumber                        // TypeError: NaN input
    | NonFiniteNumber                      // RangeError: infinite input
    | UnknownUnit(unit: string, locale: string) // Error: unit in no field of the table

  /** How a JavaScript call ends: it returns a value or throws an error. */
  datatype Completion<+T> = Normal(value: T) | Throw(error: Error)
}
