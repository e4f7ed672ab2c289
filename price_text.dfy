/** Price text cleaning and parsing, the same in both scrapers:
    `parseFloat(text.replace(/[^\d.,]/g, '').replace(',', '.'))`.
    (`\d` without the `u` flag is exactly `[0-9]`, so the two regular expressions agree.) */
module PriceText {
  import opened Records
  import opened JsText

  predicate IsDigit(c: char) { '0' <= c <= '9' }

  /** The characters the cleaning regular expression keeps. */
  predicate IsPriceChar(c: char) { IsDigit(c) || c == '.' || c == ',' }

  predicate IsCleaned(s: string) { forall i :: 0 <= i < |s| ==> IsPriceChar(s[i]) }

  predicate AllDigits(s: string) { forall i :: 0 <= i < |s| ==> IsDigit(s[i]) }

  /** `text.replace(/[^\d.,]/g, '')`: keeps only digits, `.` and `,`. */
  function StripNonPrice(s: string): (r: string)
    ensures IsCleaned(r)
    ensures |r| <= |s|
  {
    if s == [] then [] else KeepPriceChar(s[0]) + StripNonPrice(s[1..])
  }

  function KeepPriceChar(c: char): (r: string)
    ensures r == [c] <==> IsPriceChar(c)
    ensures r == [] <==> !IsPriceChar(c)
  {
    if IsPriceChar(c) then [c] else []
  }

  /** Cleaning works character by character: it keeps the kept characters in their
      original order (together with the definition on one character, this determines it). */
  lemma {:induction false} StripAppend(a: string, b: string)
    ensures StripNonPrice(a + b) == StripNonPrice(a) + StripNonPrice(b)
  {
    if a == [] {
      assert a + b == b;
    } else {
      assert (a + b)[1..] == a[1..] + b;
      StripAppend(a[1..], b);
    }
  }

  /** Text that is already clean is left as it is. */
  lemma {:induction false} StripCleaned(s: string)
    requires IsCleaned(s)
    ensures StripNonPrice(s) == s
  {
    if s != [] {
      StripCleaned(s[1..]);
    }
  }

  /** Cleaning is idempotent. */
  lemma StripIdempotent(s: string)
    ensures StripNonPrice(StripNonPrice(s)) == StripNonPrice(s)
  {
    StripCleaned(StripNonPrice(s));
  }

  /** Text with no digit, `.` or `,` is dropped entirely. */
  lemma {:induction false} StripDropsAll(s: string)
    requires forall i :: 0 <= i < |s| ==> !IsPriceChar(s[i])
    ensures StripNonPrice(s) == []
  {
    if s != [] {
      StripDropsAll(s[1..]);
    }
  }

  /** Clean text followed by text without price characters cleans to the clean part. */
  lemma StripKeepsCleanPart(kept: string, dropped: string)
    requires IsCleaned(kept)
    requires forall i :: 0 <= i < |dropped| ==> !IsPriceChar(dropped[i])
    ensures StripNonPrice(kept + dropped) == kept
  {
    StripAppend(kept, dropped);
    StripCleaned(kept);
    StripDropsAll(dropped);
  }

  /** White space is never kept. */
  lemma StripWhiteSpace(s: string)
    requires forall i :: 0 <= i < |s| ==> IsJsWhiteSpace(s[i])
    ensures StripNonPrice(s) == []
  {
    StripDropsAll(s);
  }

  /** Cleaning ignores the white space `TrimStart` removes. */
  lemma StripTrimStart(s: string)
    ensures StripNonPrice(TrimStart(s)) == StripNonPrice(s)
  {
    var t := TrimStart(s);
    var a := |s| - |t|;
    assert s == s[..a] + t;
    StripAppend(s[..a], t);
    StripWhiteSpace(s[..a]);
  }

  /** Cleaning ignores the white space `TrimEnd` removes. */
  lemma StripTrimEnd(s: string)
    ensures StripNonPrice(TrimEnd(s)) == StripNonPrice(s)
  {
    var t := TrimEnd(s);
    assert s == t + s[|t|..];
    StripAppend(t, s[|t|..]);
    StripWhiteSpace(s[|t|..]);
  }

  /** Trimming before cleaning, as both scrapers do, makes no difference. */
  lemma StripIgnoresTrim(s: string)
    ensures StripNonPrice(Trim(s)) == StripNonPrice(s)
  {
    StripTrimStart(s);
    StripTrimEnd(TrimStart(s));
  }

  /** `k` is the position of the first comma in `s`. */
  predicate IsFirstComma(s: string, k: int)
  {
    0 <= k < |s| && s[k] == ',' && forall j :: 0 <= j < k ==> s[j] != ','
  }

  /** `s.replace(',', '.')` with a string pattern: only the first comma becomes a period;
      every other character, later commas included, stays where it was. */
  function ReplaceFirstComma(s: string): (r: string)
    ensures |r| == |s|
    ensures forall i :: 0 <= i < |s| ==> r[i] == if IsFirstComma(s, i) then '.' else s[i]
  {
    if s == [] then []
    else if s[0] == ',' then "." + s[1..]
    else
      var rest := ReplaceFirstComma(s[1..]);
      assert forall i :: 1 <= i < |s| ==> (IsFirstComma(s[1..], i - 1) <==> IsFirstComma(s, i));
      [s[0]] + rest
  }

  /** Text without a comma is left unchanged. */
  lemma NoCommaUnchanged(s: string)
    requires ',' !in s
    ensures ReplaceFirstComma(s) == s
  {
  }

  /** The comma after a comma-free part is the one replaced; what follows is untouched. */
  lemma {:induction false} ReplaceCommaAfter(a: string, b: string)
    requires ',' !in a
    ensures ReplaceFirstComma(a + "," + b) == a + "." + b
  {
    if a == [] {
      assert a + "," + b == [','] + b;
    } else {
      assert (a + "," + b)[1..] == a[1..] + "," + b;
      assert a == [a[0]] + a[1..];
      ReplaceCommaAfter(a[1..], b);
    }
  }

  /** Replacing the first comma keeps text clean. */
  lemma {:induction false} ReplaceKeepsClean(s: string)
    requires IsCleaned(s)
    ensures IsCleaned(ReplaceFirstComma(s))
  {
    if s != [] && s[0] != ',' {
      ReplaceKeepsClean(s[1..]);
    }
  }

  /** The number of decimal digits `s` starts with. */
  function LeadingDigitCount(s: string): (n: nat)
    ensures n <= |s|
    ensures forall i :: 0 <= i < n ==> IsDigit(s[i])
    ensures n < |s| ==> !IsDigit(s[n])
  {
    if s != [] && IsDigit(s[0]) then 1 + LeadingDigitCount(s[1..]) else 0
  }

  /** The longest prefix of `s` made of decimal digits. */
  function LeadingDigits(s: string): (r: string)
    ensures r <= s && AllDigits(r)
    ensures |r| < |s| ==> !IsDigit(s[|r|])
  {
    s[..LeadingDigitCount(s)]
  }

  /** Digits followed by a non-digit, or by nothing, are exactly the leading digits. */
  lemma {:induction false} LeadingDigitsOf(ds: string, rest: string)
    requires AllDigits(ds)
    requires rest == [] || !IsDigit(rest[0])
    ensures LeadingDigits(ds + rest) == ds
  {
    LeadingDigitCountOf(ds, rest);
    assert (ds + rest)[..|ds|] == ds;
  }

  lemma {:induction false} LeadingDigitCountOf(ds: string, rest: string)
    requires AllDigits(ds)
    requires rest == [] || !IsDigit(rest[0])
    ensures LeadingDigitCount(ds + rest) == |ds|
  {
    if ds != [] {
      assert (ds + rest)[1..] == ds[1..] + rest;
      LeadingDigitCountOf(ds[1..], rest);
    } else {
      assert ds + rest == rest;
    }
  }

  /** The integer part of the longest decimal-literal prefix. */
  function IntPart(s: string): string { LeadingDigits(s) }

  /** Whether a decimal point follows the integer part. */
  predicate HasPoint(s: string)
  {
    |IntPart(s)| < |s| && s[|IntPart(s)|] == '.'
  }

  /** The fraction digits after that point. */
  function FracPart(s: string): string
  {
    if HasPoint(s) then LeadingDigits(s[|IntPart(s)| + 1..]) else []
  }

  /** The longest prefix of `s` that is a StrUnsignedDecimalLiteral without exponent,
      or that literal's `DecimalDigits .` beginning (ECMA-262, section 19.2.4):
      the text `parseFloat` reads. */
  function LiteralPrefix(s: string): (r: string)
    ensures r <= s
  {
    var p := if HasPoint(s) then IntPart(s) + "." + FracPart(s) else IntPart(s);
    assert HasPoint(s) ==> s[..|p|] == p by {
      if HasPoint(s) {
        var n := |IntPart(s)|;
        assert s[..n] == IntPart(s);
        assert s[n + 1..][..|FracPart(s)|] == FracPart(s);
        assert s[..|p|] == s[..n] + [s[n]] + s[n + 1..][..|FracPart(s)|];
      }
    }
    p
  }

  /** The value of a string of decimal digits. */
  function DigitsValue(ds: string): nat
    requires AllDigits(ds)
  {
    if ds == [] then 0 else 10 * DigitsValue(ds[..|ds| - 1]) + (ds[|ds| - 1] as int - '0' as int)
  }

  /** `parseFloat` on cleaned text: NaN when the literal prefix holds no digit, otherwise
      the integer and fraction digits read as one mantissa with the fraction's length as scale. */
  function ParseFloat(s: string): (r: Num)
    requires IsCleaned(s)
    ensures r.Dec? ==> r.scale == |FracPart(s)|
  {
    var ip := IntPart(s);
    var fp := FracPart(s);
    if ip == [] && fp == [] then NaN else Dec(DigitsValue(ip + fp), |fp|)
  }

  /** The whole cleaning and parsing rule applied to a price text. */
  function ParsePrice(text: string): (r: Num)
    ensures (forall i :: 0 <= i < |text| ==> !IsDigit(text[i])) ==> r == NaN
  {
    var cleaned := StripNonPrice(text);
    ReplaceKeepsClean(cleaned);
    DigitlessCleaning(text);
    ParseFloat(ReplaceFirstComma(cleaned))
  }

  /** `parseFloat` reads `ip.fp` followed by anything but a digit as the decimal number
      with the digits of `ip` and `fp` and the scale `|fp|`. */
  lemma {:induction false} ParseFloatOf(ip: string, fp: string, rest: string)
    requires AllDigits(ip) && AllDigits(fp) && ip != []
    requires rest == [] || !IsDigit(rest[0])
    requires IsCleaned(ip + "." + fp + rest)
    ensures AllDigits(ip + fp)
    ensures ParseFloat(ip + "." + fp + rest) == Dec(DigitsValue(ip + fp), |fp|)
  {
    PointSplit(ip, fp, rest);
    DigitsConcat(ip, fp);
  }

  /** How `ip.fp` followed by a non-digit splits into integer part, point and fraction. */
  lemma {:induction false} PointSplit(ip: string, fp: string, rest: string)
    requires AllDigits(ip) && AllDigits(fp)
    requires rest == [] || !IsDigit(rest[0])
    ensures var s := ip + "." + fp + rest;
      IntPart(s) == ip && HasPoint(s) && FracPart(s) == fp
  {
    PointShape(ip, fp, rest);
    IntPartBeforePoint(ip, "." + fp + rest);
    LeadingDigitsOf(fp, rest);
  }

  /** Where the point and the fraction sit in `ip.fp` followed by the rest. */
  lemma PointShape(ip: string, fp: string, rest: string)
    ensures ip + "." + fp + rest == ip + ("." + fp + rest)
    ensures (ip + "." + fp + rest)[|ip| + 1..] == fp + rest
  {
  }

  /** Digits followed by a point: the digits are the integer part and a point follows. */
  lemma {:induction false} IntPartBeforePoint(ip: string, tail: string)
    requires AllDigits(ip) && tail != [] && tail[0] == '.'
    ensures IntPart(ip + tail) == ip && HasPoint(ip + tail)
  {
    LeadingDigitsOf(ip, tail);
    assert (ip + tail)[|ip|] == '.';
  }

  /** Digits joined to digits are digits. */
  lemma DigitsConcat(a: string, b: string)
    requires AllDigits(a) && AllDigits(b)
    ensures AllDigits(a + b)
  {
    forall i | 0 <= i < |a + b| ensures IsDigit((a + b)[i]) {
      if i < |a| { assert (a + b)[i] == a[i]; } else { assert (a + b)[i] == b[i - |a|]; }
    }
  }

  /** Digits followed by neither a digit nor a point: `parseFloat` reads an integer. */
  lemma {:induction false} ParseFloatInt(ip: string, rest: string)
    requires ip != [] && AllDigits(ip)
    requires rest == [] || (rest[0] != '.' && !IsDigit(rest[0]))
    requires IsCleaned(ip + rest)
    ensures ParseFloat(ip + rest) == Dec(DigitsValue(ip), 0)
  {
    LeadingDigitsOf(ip, rest);
    assert !HasPoint(ip + rest) by {
      if |ip| < |ip + rest| {
        assert (ip + rest)[|ip|] == rest[0];
      }
    }
    assert ip + [] == ip;
  }

  /** A point with no integer digits before it (`.5`): the fraction digits alone form the
      mantissa. */
  lemma {:induction false} ParseFloatLeadingPoint(fp: string, rest: string)
    requires fp != [] && AllDigits(fp)
    requires rest == [] || !IsDigit(rest[0])
    requires IsCleaned("." + fp + rest)
    ensures ParseFloat("." + fp + rest) == Dec(DigitsValue(fp), |fp|)
  {
    PointSplit([], fp, rest);
    assert [] + "." + fp + rest == "." + fp + rest;
    assert [] + fp == fp;
  }

  /** A price of whole units followed by text the cleaning drops (`199 грн`): its digits,
      with scale zero. */
  lemma {:induction false} IntegerPrice(ip: string, suffix: string)
    requires ip != [] && AllDigits(ip)
    requires forall i :: 0 <= i < |suffix| ==> !IsPriceChar(suffix[i])
    ensures ParsePrice(ip + suffix) == Dec(DigitsValue(ip), 0)
  {
    assert IsCleaned(ip);
    StripKeepsCleanPart(ip, suffix);
    assert ',' !in ip by {
      forall i | 0 <= i < |ip| ensures ip[i] != ',' { assert IsDigit(ip[i]); }
    }
    NoCommaUnchanged(ip);
    ParsePriceOf(ip + suffix, ip, ip);
    assert ip + [] == ip;
    ParseFloatInt(ip, []);
  }

  /** Digits and at most one point: `DecimalDigits . DecimalDigits` with either side
      possibly empty. With at least one digit this is StrUnsignedDecimalLiteral without
      exponent (ECMA-262, section 19.2.4). */
  predicate LiteralShape(t: string)
  {
    && (forall i :: 0 <= i < |t| ==> IsDigit(t[i]) || t[i] == '.')
    && (forall i, j :: 0 <= i < j < |t| && t[i] == '.' ==> t[j] != '.')
  }

  /** The literal prefix has the literal's shape, and no longer prefix of the text does:
      it is what `parseFloat` reads. */
  lemma LiteralPrefixLongest(s: string)
    ensures LiteralShape(LiteralPrefix(s))
    ensures forall n :: |LiteralPrefix(s)| < n <= |s| ==> !LiteralShape(s[..n])
  {
    LiteralPrefixShape(s);
    forall n | |LiteralPrefix(s)| < n <= |s| ensures !LiteralShape(s[..n]) {
      LiteralPrefixStops(s, n);
    }
  }

  lemma LiteralPrefixShape(s: string)
    ensures LiteralShape(LiteralPrefix(s))
  {
    var ip, p := IntPart(s), LiteralPrefix(s);
    if HasPoint(s) {
      var fp := FracPart(s);
      assert p == ip + "." + fp;
      assert forall i :: 0 <= i < |p| ==> (i < |ip| ==> p[i] == ip[i]) && (i > |ip| ==> p[i] == fp[i - |ip| - 1]);
    }
  }

  /** The character after the literal prefix breaks the shape: it is neither a digit nor
      a point, or it is a second point. */
  lemma LiteralPrefixStops(s: string, n: nat)
    requires |LiteralPrefix(s)| < n <= |s|
    ensures !LiteralShape(s[..n])
  {
    var ip, t := IntPart(s), s[..n];
    if HasPoint(s) {
      var fp := FracPart(s);
      AfterFraction(s);
      assert t[|ip|] == '.' && t[|ip| + 1 + |fp|] == s[|ip| + 1 + |fp|];
    } else {
      assert t[|ip|] == s[|ip|];
    }
  }

  /** After a point and its fraction digits comes a character that is not a digit. */
  lemma AfterFraction(s: string)
    requires HasPoint(s)
    ensures var k := |IntPart(s)| + 1 + |FracPart(s)|;
      |LiteralPrefix(s)| == k && (k < |s| ==> !IsDigit(s[k]))
  {
    var ip, fp, after := IntPart(s), FracPart(s), s[|IntPart(s)| + 1..];
    assert |fp| < |after| ==> after[|fp|] == s[|ip| + 1 + |fp|];
  }

  /** The parsed price of a text is `parseFloat` of its cleaned and comma-replaced form. */
  lemma {:induction false} ParsePriceOf(text: string, cleaned: string, replaced: string)
    requires StripNonPrice(text) == cleaned && ReplaceFirstComma(cleaned) == replaced
    ensures IsCleaned(replaced) && ParsePrice(text) == ParseFloat(replaced)
  {
    ReplaceKeepsClean(cleaned);
  }

  /** Clean text joined to clean text is clean; digits are clean. */
  lemma CleanConcat(a: string, b: string)
    requires IsCleaned(a) || AllDigits(a)
    requires IsCleaned(b) || AllDigits(b)
    ensures IsCleaned(a + b)
  {
    forall i | 0 <= i < |a + b| ensures IsPriceChar((a + b)[i]) {
      if i < |a| { assert (a + b)[i] == a[i]; } else { assert (a + b)[i] == b[i - |a|]; }
    }
  }

  /** A price with a decimal comma followed by text the cleaning drops (spaces, a currency
      sign): its integer and fraction digits form the mantissa, the fraction's length the scale. */
  lemma {:induction false} DecimalCommaPrice(ip: string, fp: string, suffix: string)
    requires ip != [] && AllDigits(ip) && AllDigits(fp)
    requires forall i :: 0 <= i < |suffix| ==> !IsPriceChar(suffix[i])
    ensures AllDigits(ip + fp)
    ensures ParsePrice(ip + "," + fp + suffix) == Dec(DigitsValue(ip + fp), |fp|)
  {
    var kept := ip + "," + fp;
    var r := ip + "." + fp;
    assert StripNonPrice(kept + suffix) == kept by {
      CleanConcat(ip, ",");
      CleanConcat(ip + ",", fp);
      StripKeepsCleanPart(kept, suffix);
    }
    assert ReplaceFirstComma(kept) == r by {
      ReplaceCommaAfter(ip, fp);
    }
    ParsePriceOf(kept + suffix, kept, r);
    assert r + [] == r;
    ParseFloatOf(ip, fp, []);
  }

  /** A character the cleaning drops (a space grouping the thousands, a currency sign)
      can be taken out anywhere without changing the parsed price. */
  lemma {:induction false} DroppedCharIgnored(a: string, c: char, b: string)
    requires !IsPriceChar(c)
    ensures ParsePrice(a + [c] + b) == ParsePrice(a + b)
  {
    assert StripNonPrice(a + [c] + b) == StripNonPrice(a + b) by {
      StripAppend(a + [c], b);
      StripAppend(a, [c]);
      StripAppend(a, b);
      assert StripNonPrice([c]) == [] by {
        assert [c][1..] == [];
      }
    }
    var cleaned := StripNonPrice(a + b);
    ParsePriceOf(a + [c] + b, cleaned, ReplaceFirstComma(cleaned));
    ParsePriceOf(a + b, cleaned, ReplaceFirstComma(cleaned));
  }

  /** A price whose thousands are grouped with a space and whose decimals follow a
      comma (`1 299,50`): the space is ignored and all the digits form the mantissa. */
  lemma {:induction false} SpaceGroupedPrice(g: string, ip: string, fp: string, suffix: string)
    requires g != [] && AllDigits(g) && AllDigits(ip) && AllDigits(fp)
    requires forall i :: 0 <= i < |suffix| ==> !IsPriceChar(suffix[i])
    ensures AllDigits(g + ip + fp)
    ensures ParsePrice(g + " " + ip + "," + fp + suffix) == Dec(DigitsValue(g + ip + fp), |fp|)
  {
    var tail := ip + "," + fp + suffix;
    SpaceGroupedShape(g, tail);
    GroupJoined(g, ip, fp, suffix);
    DroppedCharIgnored(g, ' ', tail);
    DigitsConcat(g, ip);
    DecimalCommaPrice(g + ip, fp, suffix);
  }

  /** The grouping space sits between the group and the rest of the text. */
  lemma SpaceGroupedShape(g: string, tail: string)
    ensures g + " " + tail == g + [' '] + tail
  {
  }

  /** Without the space, the group joins the integer digits. */
  lemma GroupJoined(g: string, ip: string, fp: string, suffix: string)
    ensures g + " " + ip + "," + fp + suffix == g + " " + (ip + "," + fp + suffix)
    ensures g + (ip + "," + fp + suffix) == (g + ip) + "," + fp + suffix
  {
  }

  /** A comma before a later `.` is taken as the decimal point, and the real `.` then ends
      the number: `a,b.c` parses as `a.b`. */
  lemma {:induction false} CommaThenPoint(a: string, b: string, c: string)
    requires a != [] && AllDigits(a) && AllDigits(b) && AllDigits(c)
    ensures AllDigits(a + b)
    ensures ParsePrice(a + "," + b + "." + c) == Dec(DigitsValue(a + b), |b|)
  {
    var t := a + "," + b + "." + c;
    var r := a + "." + b + ("." + c);
    assert StripNonPrice(t) == t by {
      CleanConcat(a, ",");
      CleanConcat(a + ",", b);
      CleanConcat(a + "," + b, ".");
      CleanConcat(a + "," + b + ".", c);
      StripCleaned(t);
    }
    assert ReplaceFirstComma(t) == r by {
      assert t == a + "," + (b + "." + c);
      ReplaceCommaAfter(a, b + "." + c);
      assert a + "." + (b + "." + c) == r;
    }
    ParsePriceOf(t, t, r);
    ParseFloatOf(a, b, "." + c);
  }

  /** Cleaning text without digits leaves text without digits. */
  lemma {:induction false} StripKeepsNoDigit(s: string)
    requires forall i :: 0 <= i < |s| ==> !IsDigit(s[i])
    ensures forall i :: 0 <= i < |StripNonPrice(s)| ==> !IsDigit(StripNonPrice(s)[i])
  {
    if s != [] {
      StripKeepsNoDigit(s[1..]);
      var k, rest := KeepPriceChar(s[0]), StripNonPrice(s[1..]);
      forall i | 0 <= i < |k + rest| ensures !IsDigit((k + rest)[i]) {
        if i < |k| { assert (k + rest)[i] == s[0]; } else { assert (k + rest)[i] == rest[i - |k|]; }
      }
    }
  }

  /** Text without any digit parses as NaN, whatever points and commas it holds. */
  lemma DigitlessCleaning(text: string)
    ensures var r := ReplaceFirstComma(StripNonPrice(text));
      IsCleaned(r) && ((forall i :: 0 <= i < |text| ==> !IsDigit(text[i])) ==> ParseFloat(r) == NaN)
  {
    var cleaned := StripNonPrice(text);
    var r := ReplaceFirstComma(cleaned);
    ReplaceKeepsClean(cleaned);
    if forall i :: 0 <= i < |text| ==> !IsDigit(text[i]) {
      StripKeepsNoDigit(text);
      assert forall i :: 0 <= i < |r| ==> !IsDigit(r[i]) by {
        forall i | 0 <= i < |r| ensures !IsDigit(r[i]) {
          assert r[i] == '.' || r[i] == cleaned[i];
        }
      }
      DigitlessIsNaN(r);
    }
  }

  /** Clean text without a digit has empty integer and fraction parts. */
  lemma DigitlessIsNaN(r: string)
    requires IsCleaned(r)
    requires forall i :: 0 <= i < |r| ==> !IsDigit(r[i])
    ensures ParseFloat(r) == NaN
  {
    assert LeadingDigitCount(r) == 0;
    if HasPoint(r) {
      assert LeadingDigitCount(r[1..]) == 0 by {
        if r[1..] != [] { assert r[1..][0] == r[1]; }
      }
    }
  }

  /** A digit string has a positive value exactly when one of its digits is not `0`. */
  lemma {:induction false} DigitsValuePositive(ds: string)
    requires AllDigits(ds)
    ensures DigitsValue(ds) > 0 <==> exists i :: 0 <= i < |ds| && ds[i] != '0'
  {
    if ds != [] {
      var init := ds[..|ds| - 1];
      DigitsValuePositive(init);
      assert forall i :: 0 <= i < |init| ==> init[i] == ds[i];
    }
  }

  /** The literal prefix is the integer digits, then (when there is a point) the point and
      the fraction digits; so its digit characters are exactly those of the two parts. */
  lemma LiteralDigits(s: string)
    ensures |LiteralPrefix(s)| == |IntPart(s)| + |FracPart(s)| + (if HasPoint(s) then 1 else 0)
    ensures forall i :: 0 <= i < |IntPart(s)| ==> LiteralPrefix(s)[i] == IntPart(s)[i]
    ensures HasPoint(s) ==> LiteralPrefix(s)[|IntPart(s)|] == '.'
    ensures HasPoint(s) ==> forall j :: 0 <= j < |FracPart(s)| ==>
              LiteralPrefix(s)[|IntPart(s)| + 1 + j] == FracPart(s)[j]
    ensures forall i :: 0 <= i < |LiteralPrefix(s)| ==>
              (IsDigit(LiteralPrefix(s)[i]) <==> LiteralPrefix(s)[i] in IntPart(s) + FracPart(s))
    ensures forall i :: 0 <= i < |IntPart(s) + FracPart(s)| ==>
              (IntPart(s) + FracPart(s))[i] in LiteralPrefix(s)
  {
    var ip, fp := IntPart(s), FracPart(s);
    if HasPoint(s) {
      assert LiteralPrefix(s) == ip + "." + fp;
      forall i | 0 <= i < |ip + fp| ensures (ip + fp)[i] in LiteralPrefix(s) {
        if i < |ip| { assert LiteralPrefix(s)[i] == (ip + fp)[i]; }
        else { assert LiteralPrefix(s)[i + 1] == (ip + fp)[i]; }
      }
    } else {
      assert fp == [];
      assert ip + fp == ip;
    }
  }

  /** `parseFloat` gives NaN exactly when the literal prefix holds no digit. */
  lemma ParseFloatNaN(s: string)
    requires IsCleaned(s)
    ensures IsNaN(ParseFloat(s)) <==> forall i :: 0 <= i < |LiteralPrefix(s)| ==> !IsDigit(LiteralPrefix(s)[i])
  {
    LiteralDigits(s);
    var ip, fp := IntPart(s), FracPart(s);
    if ip != [] {
      assert ip[0] in ip + fp;
    } else if fp != [] {
      assert fp[0] == (ip + fp)[0];
    }
  }

  /** `parseFloat(...) > 0` exactly when the literal prefix holds a digit other than `0`. */
  lemma ParseFloatPositive(s: string)
    requires IsCleaned(s)
    ensures IsPositive(ParseFloat(s)) <==>
              exists i :: 0 <= i < |LiteralPrefix(s)| && IsDigit(LiteralPrefix(s)[i]) && LiteralPrefix(s)[i] != '0'
  {
    LiteralDigits(s);
    var ip, fp := IntPart(s), FracPart(s);
    var ds := ip + fp;
    DigitsValuePositive(ds);
    var lit := LiteralPrefix(s);
    if IsPositive(ParseFloat(s)) {
      var i :| 0 <= i < |ds| && ds[i] != '0';
      assert ds[i] in lit;
      var j :| 0 <= j < |lit| && lit[j] == ds[i];
    }
    if exists i :: 0 <= i < |lit| && IsDigit(lit[i]) && lit[i] != '0' {
      var i :| 0 <= i < |lit| && IsDigit(lit[i]) && lit[i] != '0';
      assert lit[i] in ds;
      var j :| 0 <= j < |ds| && ds[j] == lit[i];
    }
  }

  /** The trim in front of the cleaning never changes the parsed price. */
  lemma ParsePriceIgnoresTrim(text: string)
    ensures ParsePrice(Trim(text)) == ParsePrice(text)
  {
    StripIgnoresTrim(text);
  }
}
