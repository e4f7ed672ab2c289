/** Values shared by both site scrapers, the orchestrator and the database sink. */
module Records {

  datatype Option<+T> = None | Some(value: T)

  /** Outcome of an awaited call into a collaborator the model does not see:
      the promise resolves (Ok) or rejects (Fails). */
  datatype Step = Ok | Fails

  /** A JavaScript number as produced by `parseFloat` on cleaned price text:
      NaN, or the exact decimal `mantissa / 10^scale`. IEEE-754 rounding is not modelled. */
  datatype Num = NaN | Dec(mantissa: nat, scale: nat)

  function Pow10(n: nat): (r: nat)
    ensures r >= 1
  {
    if n == 0 then 1 else 10 * Pow10(n - 1)
  }

  /** `isNaN(x)` */
  predicate IsNaN(x: Num) { x.NaN? }

  /** `x > 0`; every comparison with NaN is false. */
  predicate IsPositive(x: Num) { x.Dec? && x.mantissa > 0 }

  /** The real number a non-NaN value stands for. */
  function Value(x: Num): real
    requires x.Dec?
  {
    x.mantissa as real / Pow10(x.scale) as real
  }

  /** A number is above zero exactly when its mantissa is. */
  lemma PositiveValue(x: Num)
    requires x.Dec?
    ensures Value(x) > 0.0 <==> x.mantissa > 0
  {
    var d := Pow10(x.scale) as real;
    assert d >= 1.0;
    assert Value(x) * d == x.mantissa as real;
  }

  /** The literal `0` a price starts from when its element is absent. */
  const Zero: Num := Dec(0, 0)

  /** Capture time, abstracted to milliseconds since the epoch. */
  type Instant = int

  /** `lastUpdated`: a `Date` object, or the string `toISOString()` gives for that instant. */
  datatype Stamp = DateStamp(at: Instant) | IsoStamp(at: Instant)

  /** The canonical output record (`ScrapedProduct` in config.ts). */
  datatype ScrapedProduct = ScrapedProduct(
    name: string,
    price: Num,
    oldPrice: Option<Num>,
    imageUrl: Option<string>,
    store: string,
    category: string,
    lastUpdated: Stamp,
    productUrl: string,
    categoryUrl: Option<string>)

  /** What the in-page code reads from one product card element. `None` means the
      sub-element is absent; `throws` means reading this card raises an error. */
  datatype Card = Card(
    nameText: Option<string>,
    priceText: Option<string>,
    oldPriceText: Option<string>,
    imageSrc: Option<string>,
    linkHref: Option<string>,
    throws: bool)

  /** Result of the per-card `try` block: a record pushed, a card that fails the
      validation gate, or a card whose processing threw and was caught. */
  datatype CardOutcome = Emit(product: ScrapedProduct) | Drop | Threw
}
