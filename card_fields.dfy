/** The field rules both scrapers apply to one product card inside the page. */
module CardFields {
  import opened Records
  import opened JsText
  import opened PriceText

  const UnknownName: string := "Unknown Product"
  const Placeholder: string := "N/A"

  /** `nameElement?.textContent?.trim() || 'Unknown Product'`: the trimmed text, or the
      default when the element is absent or its trimmed text is empty. Never empty. */
  function NameOf(nameText: Option<string>): (r: string)
    ensures r != []
    ensures nameText.Some? && Trim(nameText.value) != [] ==> r == Trim(nameText.value)
    ensures nameText.None? || Trim(nameText.value) == [] ==> r == UnknownName
  {
    match nameText
    case None => UnknownName
    case Some(t) => if Trim(t) == [] then UnknownName else Trim(t)
  }

  /** `let price = 0; if (priceElement) price = parseFloat(clean(text.trim()))`. */
  function PriceOf(priceText: Option<string>): (r: Num)
    ensures priceText.None? ==> r == Zero && !IsPositive(r)
    ensures priceText.Some? ==> r == ParsePrice(priceText.value)
  {
    match priceText
    case None => Zero
    case Some(t) => ParsePriceIgnoresTrim(t); ParsePrice(Trim(t))
  }

  /** Silpo's `oldPrice`: undefined without an element, otherwise the same parse as the
      price, and never validated. */
  function OldPriceOf(oldPriceText: Option<string>): (r: Option<Num>)
    ensures r.Some? <==> oldPriceText.Some?
    ensures r.Some? ==> r.value == ParsePrice(oldPriceText.value)
  {
    match oldPriceText
    case None => None
    case Some(t) => ParsePriceIgnoresTrim(t); Some(ParsePrice(Trim(t)))
  }

  /** `name !== 'N/A' && !isNaN(price) && price > 0` */
  predicate PassesGate(name: string, price: Num)
  {
    name != Placeholder && !IsNaN(price) && IsPositive(price)
  }

  /** A record passes the gate exactly when its name is not the placeholder and its price
      is a number whose value is above zero. */
  lemma GateMeansPositiveValue(name: string, price: Num)
    ensures PassesGate(name, price) <==> name != Placeholder && price.Dec? && Value(price) > 0.0
  {
    if price.Dec? {
      PositiveValue(price);
    }
  }

  /** A card without a price element never passes the gate. */
  lemma MissingPriceFails(name: string)
    ensures !PassesGate(name, PriceOf(None))
  {
  }

  /** A present price passes the gate exactly when the literal prefix of its cleaned
      text holds a non-zero digit (and the name is not the placeholder). */
  lemma GateOnPriceText(name: string, text: string)
    ensures PassesGate(name, PriceOf(Some(text))) <==>
              name != Placeholder &&
              var s := ReplaceFirstComma(StripNonPrice(text));
              exists i :: 0 <= i < |LiteralPrefix(s)| && IsDigit(LiteralPrefix(s)[i]) && LiteralPrefix(s)[i] != '0'
  {
    ParsePriceIgnoresTrim(text);
    var s := ReplaceFirstComma(StripNonPrice(text));
    ReplaceKeepsClean(StripNonPrice(text));
    ParseFloatPositive(s);
  }

  /** A sample price in the shop's format: a positive 199. */
  lemma SamplePrice()
    ensures PriceOf(Some(SamplePriceText)) == Dec(19900, 2)
    ensures PassesGate(UnknownName, PriceOf(Some(SamplePriceText)))
  {
    PriceExampleDecimalComma();
    ParsePriceIgnoresTrim(SamplePriceText);
  }

  const SamplePriceText: string := "199,00 \U{20B4}"

  /** A dash where an old price should be parses as NaN. */
  lemma DashOldPrice()
    ensures OldPriceOf(Some("-")) == Some(NaN)
  {
    assert forall i :: 0 <= i < |"-"| ==> !IsDigit("-"[i]);
    ParsePriceIgnoresTrim("-");
  }

  /** "199,00 ₴" (a hryvnia price with a decimal comma) parses as 199. */
  lemma PriceExampleDecimalComma()
    ensures ParsePrice("199,00 \U{20B4}") == Dec(19900, 2)
    ensures Value(Dec(19900, 2)) == 199.0
  {
    assert "199" + "," + "00" + " \U{20B4}" == "199,00 \U{20B4}";
    DecimalCommaPrice("199", "00", " \U{20B4}");
    Digits19900();
    assert Pow10(2) == 100;
  }

  lemma Digits19900()
    ensures DigitsValue("199" + "00") == 19900
  {
    assert "199" + "00" == "19900";
    assert "19900"[..4] == "1990";
    assert "1990"[..3] == "199";
    assert "199"[..2] == "19";
    assert "19"[..1] == "1";
    assert "1"[..0] == "";
  }

  /** Text without any digit gives NaN, so such a price fails the gate. */
  lemma PriceExampleNoDigits()
    ensures ParsePrice("") == NaN
    ensures ParsePrice("-") == NaN
    ensures ParsePrice("..") == NaN
  {
    assert forall i :: 0 <= i < |""| ==> !IsDigit(""[i]);
    assert forall i :: 0 <= i < |"-"| ==> !IsDigit("-"[i]);
    assert forall i :: 0 <= i < |".."| ==> !IsDigit(".."[i]);
  }

  /** A comma used as a thousands separator is read as the decimal point, and the
      real decimal point then ends the literal: "1,299.50" parses as 1.299. */
  lemma ThousandsCommaReadAsDecimal()
    ensures ParsePrice("1,299.50") == Dec(1299, 3)
  {
    assert "1" + "," + "299" + "." + "50" == "1,299.50";
    CommaThenPoint("1", "299", "50");
    Digits1299();
  }

  lemma Digits1299()
    ensures DigitsValue("1" + "299") == 1299
  {
    assert "1" + "299" == "1299";
    assert "1299"[..3] == "129";
    assert "129"[..2] == "12";
    assert "12"[..1] == "1";
    assert "1"[..0] == "";
  }
}
