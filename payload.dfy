/**
 * The card records of an exported collection file, as the importer and the
 * admin import read them with `dict.get`. A key that is absent and a key that
 * holds JSON `null` read the same through `get`, so most fields are an
 * `Option`; the one place where the code tells them apart (the admin's
 * `c.get('edition', 'Unlimited')`) uses `Entry`.
 */
module Payload {
  import opened Common

  /**
   * A value the source accepts as text, as a JSON integer or as a JSON
   * object (the `misprint` and `psa` keys).
   */
  datatype Loose = Text(text: string) | Number(value: int) | Object(entries: map<string, string>)

  /** A key read with `d.get(k, default)`: missing, explicit null, or given. */
  datatype Entry<T> = Missing | Null | Given(value: T)

  /** The nested `set` object; present only when it is a non-empty object. */
  datatype SetPayload = SetPayload(code: Option<string>, name: Option<string>, releaseDate: Option<string>)

  /** The nested `pricing` object; a missing or empty one reads as all-None. */
  datatype Pricing = Pricing(low: Option<real>, mid: Option<real>, high: Option<real>,
                             effectiveMid: Option<real>, source: Option<string>)

  /** One element of the file's `cards` list: `id` is the exported id, `cardSet` the `set` key. */
  datatype CardPayload = CardPayload(
    id: Option<int>,
    konamiId: Option<int>,
    name: Option<string>,
    cardSet: Option<SetPayload>,
    edition: Entry<string>,
    condition: Option<string>,
    quantity: Option<int>,
    misprint: Option<Loose>,
    misprints: Option<Loose>,
    psa: Option<Loose>,
    notes: Option<string>,
    pricing: Option<Pricing>)

  /** `d.get(k)`: a missing key and an explicit null both read as None. */
  function Get<T>(e: Entry<T>): Option<T> {
    match e
    case Given(v) => Some(v)
    case _ => None
  }

  // Python truthiness of the values above.

  predicate TruthyInt(v: Option<int>) { v.Some? && v.value != 0 }

  predicate TruthyText(v: Option<string>) { v.Some? && v.value != "" }

  predicate TruthyReal(v: Option<real>) { v.Some? && v.value != 0.0 }

  predicate TruthyLoose(v: Option<Loose>) {
    match v
    case None => false
    case Some(Text(s)) => s != ""
    case Some(Number(n)) => n != 0
    case Some(Object(m)) => |m| > 0
  }

  /** `v or ''` for a text value. */
  function TextOr(v: Option<string>, default: string): (r: string)
    ensures TruthyText(v) ==> r == v.value
    ensures !TruthyText(v) ==> r == default
  {
    if TruthyText(v) then v.value else default
  }

  /** The pricing object, with `or {}` applied. */
  function PricingOf(p: CardPayload): Pricing {
    p.pricing.GetOr(Pricing(None, None, None, None, None))
  }

  /** The set object, with `or {}` applied. */
  function SetOf(p: CardPayload): SetPayload {
    p.cardSet.GetOr(SetPayload(None, None, None))
  }

  /** The decimal digits of `n`, most significant first. */
  function Digits(n: nat): (r: string)
    ensures |r| > 0 && forall i :: 0 <= i < |r| ==> '0' <= r[i] <= '9'
    decreases n
  {
    if n < 10 then [('0' as int + n) as char] else Digits(n / 10) + [('0' as int + n % 10) as char]
  }

  /** `str(n)` for an integer: its digits, after a '-' when negative. */
  function DecimalText(n: int): (r: string)
    ensures r != "" && (r[0] == '-' <==> n < 0)
  {
    if n < 0 then "-" + Digits(-n) else Digits(n)
  }
}
