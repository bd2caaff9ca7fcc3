/**
 * The two Chinese-numeral converters of the pipeline.
 *
 * `Cn2Int` is the chapter-number reader of the tender splitter
 * (backend/utils/extract_bid_section.py); `ChineseNumberToInt` is the
 * heading-level reader of the outline extractor
 * (backend/agents/outline_extractor.py).  They know the same numeral
 * characters but combine them differently, and they disagree on some inputs.
 */
module Numerals {
  import opened Text

  /** The single-character keys of both numeral tables. */
  predicate IsCnNumeral(c: char) {
    c == '零' || c == '〇' || c == '一' || c == '二' || c == '三' || c == '四' || c == '五'
    || c == '六' || c == '七' || c == '八' || c == '九' || c == '十' || c == '百'
  }

  /** `[一二三四五六七八九十百零〇0-9]`, the numerals the heading expressions accept. */
  predicate IsHeadingNumeral(c: char) {
    c == '一' || c == '二' || c == '三' || c == '四' || c == '五' || c == '六' || c == '七'
    || c == '八' || c == '九' || c == '十' || c == '百' || c == '零' || c == '〇' || IsAsciiDigit(c)
  }

  /** Value of a numeral character in the tables. */
  function CnValue(c: char): (v: nat)
    requires IsCnNumeral(c)
    ensures v <= 9 || v == 10 || v == 100
  {
    if c == '零' || c == '〇' then 0
    else if c == '一' then 1
    else if c == '二' then 2
    else if c == '三' then 3
    else if c == '四' then 4
    else if c == '五' then 5
    else if c == '六' then 6
    else if c == '七' then 7
    else if c == '八' then 8
    else if c == '九' then 9
    else if c == '十' then 10
    else 100
  }

  /** The numeral character for a digit value 0..9. */
  function CnDigit(d: nat): char
    requires d <= 9
  {
    "零一二三四五六七八九"[d]
  }

  lemma CnDigitFacts(d: nat)
    requires d <= 9
    ensures IsCnNumeral(CnDigit(d)) && CnValue(CnDigit(d)) == d
    ensures !IsSpace(CnDigit(d)) && !IsAsciiDigit(CnDigit(d))
    ensures CnDigit(d) != '十' && CnDigit(d) != '百'
  {
    if d == 0 {} else if d == 1 {} else if d == 2 {} else if d == 3 {} else if d == 4 {}
    else if d == 5 {} else if d == 6 {} else if d == 7 {} else if d == 8 {} else {}
  }

  // ---------------------------------------------------------------------
  // cn2int (extract_bid_section.py)
  // ---------------------------------------------------------------------

  /** `CN_NUM_MAP.get(key, default)`: only one-character numeral keys are in the table. */
  function Lookup(key: string, default: nat): nat
  {
    if |key| == 1 && IsCnNumeral(key[0]) then CnValue(key[0]) else default
  }

  /**
   * `cn2int`: ASCII digits are read as a decimal number; otherwise an
   * optional hundreds part before "百" and a tens part around "十" are added.
   * A remainder with neither marker is looked up on its own.
   */
  function Cn2Int(raw: string): nat
  {
    var s := Strip(raw);
    if s == [] then 0
    else if IsDigits(s) then ParseNat(s)
    else if Contains(s, "百") then
      var parts := SplitOn(s, "百");
      var total := Lookup(parts[0], 1) * 100;
      var rest := if |parts| > 1 then parts[1] else "";
      if rest == [] then total else TensPart(rest, total)
    else TensPart(s, 0)
  }

  /**
   * The part of `cn2int` after the hundreds: with a "十", the tens and units
   * are added to `total`; without one, the remainder alone is looked up and
   * `total` is dropped, exactly as `cn2int` returns it.
   */
  function TensPart(s: string, total: nat): nat
  {
    if Contains(s, "十") then
      var parts := SplitOn(s, "十");
      var t := total + Lookup(parts[0], 1) * 10;
      var rest := if |parts| > 1 then parts[1] else "";
      if rest != [] then t + Lookup(rest, 0) else t
    else Lookup(s, 0)
  }

  /** Empty or blank input reads as 0. */
  lemma Cn2IntBlank(s: string)
    requires forall i :: 0 <= i < |s| ==> IsSpace(s[i])
    ensures Cn2Int(s) == 0
  {
  }

  /** A numeral string with no space at either end and a non-digit last character. */
  predicate Plain(s: string) {
    s != [] && !IsSpace(s[0]) && !IsSpace(s[|s| - 1]) && !IsAsciiDigit(s[|s| - 1])
  }

  /** How `cn2int` reads a string with one "百": hundreds, then the rest. */
  lemma Cn2IntWithHundreds(a: string, rest: string)
    requires '百' !in a && '百' !in rest && Plain(a + ['百'] + rest)
    ensures Cn2Int(a + ['百'] + rest) ==
      if rest == [] then Lookup(a, 1) * 100 else TensPart(rest, Lookup(a, 1) * 100)
  {
    var s := a + ['百'] + rest;
    StripPlain(s);
    assert s[|s| - 1] == s[|s| - 1];
    ContainsChar(s, '百');
    assert s[|a|] == '百';
    SplitFirst(a, '百', rest);
    SplitNoSep(rest, '百');
  }

  /** How `cn2int` reads a string with no "百": only the tens part. */
  lemma Cn2IntNoHundreds(s: string)
    requires '百' !in s && Plain(s)
    ensures Cn2Int(s) == TensPart(s, 0)
  {
    StripPlain(s);
    ContainsChar(s, '百');
  }

  /** The tens part with one "十". */
  lemma TensWith(a: string, b: string, total: nat)
    requires '十' !in a && '十' !in b
    ensures TensPart(a + ['十'] + b, total) ==
      total + Lookup(a, 1) * 10 + (if b != [] then Lookup(b, 0) else 0)
  {
    var s := a + ['十'] + b;
    ContainsChar(s, '十');
    assert s[|a|] == '十';
    SplitFirst(a, '十', b);
    SplitNoSep(b, '十');
  }

  /** The tens part without a "十": a lookup that ignores `total`. */
  lemma TensWithout(s: string, total: nat)
    requires '十' !in s
    ensures TensPart(s, total) == Lookup(s, 0)
  {
    ContainsChar(s, '十');
  }

  /** Single numerals: 一 is 1, …, 九 is 9. */
  lemma Cn2IntUnits(u: nat)
    requires 1 <= u <= 9
    ensures Cn2Int([CnDigit(u)]) == u
  {
    CnDigitFacts(u);
    Cn2IntNoHundreds([CnDigit(u)]);
    TensWithout([CnDigit(u)], 0);
  }

  /** Tens: X十 is 10·X, X十Y is 10·X + Y, and 十Y is 10 + Y. */
  lemma Cn2IntTens(t: nat, u: nat)
    requires 1 <= t <= 9 && 1 <= u <= 9
    ensures Cn2Int([CnDigit(t), '十']) == 10 * t
    ensures Cn2Int([CnDigit(t), '十', CnDigit(u)]) == 10 * t + u
    ensures Cn2Int(['十', CnDigit(u)]) == 10 + u
  {
    CnDigitFacts(t);
    CnDigitFacts(u);
    var x, y := [CnDigit(t)], [CnDigit(u)];
    assert [CnDigit(t), '十'] == x + ['十'] + [];
    Cn2IntNoHundreds(x + ['十'] + []);
    TensWith(x, [], 0);
    assert [CnDigit(t), '十', CnDigit(u)] == x + ['十'] + y;
    Cn2IntNoHundreds(x + ['十'] + y);
    TensWith(x, y, 0);
    assert ['十', CnDigit(u)] == [] + ['十'] + y;
    Cn2IntNoHundreds([] + ['十'] + y);
    TensWith([], y, 0);
  }

  /** Hundreds with tens: X百Y十Z is 100·X + 10·Y + Z, and X百 is 100·X. */
  lemma Cn2IntHundreds(h: nat, t: nat, u: nat)
    requires 1 <= h <= 9 && 1 <= t <= 9 && 1 <= u <= 9
    ensures Cn2Int([CnDigit(h), '百']) == 100 * h
    ensures Cn2Int([CnDigit(h), '百', CnDigit(t), '十', CnDigit(u)]) == 100 * h + 10 * t + u
  {
    CnDigitFacts(h);
    CnDigitFacts(t);
    CnDigitFacts(u);
    var x, y, z := [CnDigit(h)], [CnDigit(t)], [CnDigit(u)];
    assert [CnDigit(h), '百'] == x + ['百'] + [];
    Cn2IntWithHundreds(x, []);
    var rest := y + ['十'] + z;
    assert [CnDigit(h), '百', CnDigit(t), '十', CnDigit(u)] == x + ['百'] + rest;
    Cn2IntWithHundreds(x, rest);
    TensWith(y, z, 100 * h);
  }

  /**
   * Without a "十" after the "百", `cn2int` keeps only the lookup of the
   * remainder: X百Y reads as Y and X百零Y reads as 0.
   */
  lemma Cn2IntDropsHundreds(h: nat, u: nat)
    requires 1 <= h <= 9 && 1 <= u <= 9
    ensures Cn2Int([CnDigit(h), '百', CnDigit(u)]) == u
    ensures Cn2Int([CnDigit(h), '百', '零', CnDigit(u)]) == 0
  {
    CnDigitFacts(h);
    CnDigitFacts(u);
    var x, z := [CnDigit(h)], [CnDigit(u)];
    assert [CnDigit(h), '百', CnDigit(u)] == x + ['百'] + z;
    Cn2IntWithHundreds(x, z);
    TensWithout(z, 100 * h);
    var r := ['零', CnDigit(u)];
    assert [CnDigit(h), '百', '零', CnDigit(u)] == x + ['百'] + r;
    Cn2IntWithHundreds(x, r);
    TensWithout(r, 100 * h);
  }

  /** ASCII numbers are read in decimal: cn2int(str(n)) == n. */
  lemma Cn2IntDecimal(n: nat)
    ensures Cn2Int(NatToString(n)) == n
  {
    var s := NatToString(n);
    StripPlain(s);
    ParseNatToString(n);
  }

  // ---------------------------------------------------------------------
  // _chinese_number_to_int (outline_extractor.py)
  // ---------------------------------------------------------------------

  /** Running state of the left-to-right numeral reader. */
  datatype Acc = Acc(total: nat, current: nat)

  /**
   * One character of `_chinese_number_to_int`: a multiplier (十, 百) adds
   * `current` (1 when nothing is pending) times itself to the total; a digit
   * becomes the pending value; anything else is skipped.
   */
  function Step(a: Acc, c: char): Acc
  {
    if !IsCnNumeral(c) then a
    else if CnValue(c) >= 10 then Acc(a.total + (if a.current == 0 then 1 else a.current) * CnValue(c), 0)
    else Acc(a.total, CnValue(c))
  }

  function ScanFrom(a: Acc, s: string): Acc
    decreases |s|
  {
    if s == [] then a else ScanFrom(Step(a, s[0]), s[1..])
  }

  /** The value `_chinese_number_to_int` returns, as a function of its input. */
  function CnToInt(s: string): nat
  {
    if IsDigits(s) then ParseNat(s)
    else
      var a := ScanFrom(Acc(0, 0), s);
      a.total + a.current
  }

  /** `_chinese_number_to_int`, computed with its character loop. */
  method ChineseNumberToInt(s: string) returns (n: nat)
    ensures n == CnToInt(s)
  {
    if IsDigits(s) {
      return ParseNat(s);
    }
    var total, current := 0, 0;
    for i := 0 to |s|
      invariant ScanFrom(Acc(total, current), s[i..]) == ScanFrom(Acc(0, 0), s)
    {
      assert s[i..][1..] == s[i + 1..];
      var c := s[i];
      if IsCnNumeral(c) {
        var value := CnValue(c);
        if value >= 10 {
          if current == 0 {
            current := 1;
          }
          total := total + current * value;
          current := 0;
        } else {
          current := value;
        }
      }
    }
    assert s[|s|..] == [];
    n := total + current;
  }

  lemma ScanCons(a: Acc, c: char, s: string)
    ensures ScanFrom(a, [c] + s) == ScanFrom(Step(a, c), s)
  {
    assert ([c] + s)[1..] == s;
  }

  /** Characters outside the numeral table never change the reader's state. */
  lemma {:induction false} ScanSkipsOthers(a: Acc, s: string)
    ensures ScanFrom(a, s) == ScanFrom(a, Filter(s, IsCnNumeral))
    decreases |s|
  {
    if s != [] {
      ScanCons(a, s[0], s[1..]);
      assert s == [s[0]] + s[1..];
      if IsCnNumeral(s[0]) {
        ScanSkipsOthers(Step(a, s[0]), s[1..]);
        ScanCons(a, s[0], Filter(s[1..], IsCnNumeral));
      } else {
        ScanSkipsOthers(a, s[1..]);
        assert Filter(s, IsCnNumeral) == Filter(s[1..], IsCnNumeral);
      }
    }
  }

  lemma Scan2(a: Acc, c0: char, c1: char)
    ensures ScanFrom(a, [c0, c1]) == Step(Step(a, c0), c1)
  {
    ScanCons(a, c0, [c1]);
    ScanCons(Step(a, c0), c1, []);
    assert [c0, c1] == [c0] + [c1];
  }

  lemma Scan3(a: Acc, c0: char, c1: char, c2: char)
    ensures ScanFrom(a, [c0, c1, c2]) == Step(Step(Step(a, c0), c1), c2)
  {
    ScanCons(a, c0, [c1, c2]);
    Scan2(Step(a, c0), c1, c2);
    assert [c0, c1, c2] == [c0] + [c1, c2];
  }

  lemma Scan4(a: Acc, c0: char, c1: char, c2: char, c3: char)
    ensures ScanFrom(a, [c0, c1, c2, c3]) == Step(Step(Step(Step(a, c0), c1), c2), c3)
  {
    ScanCons(a, c0, [c1, c2, c3]);
    Scan3(Step(a, c0), c1, c2, c3);
    assert [c0, c1, c2, c3] == [c0] + [c1, c2, c3];
  }

  lemma Scan5(a: Acc, c0: char, c1: char, c2: char, c3: char, c4: char)
    ensures ScanFrom(a, [c0, c1, c2, c3, c4]) == Step(Step(Step(Step(Step(a, c0), c1), c2), c3), c4)
  {
    ScanCons(a, c0, [c1, c2, c3, c4]);
    Scan4(Step(a, c0), c1, c2, c3, c4);
    assert [c0, c1, c2, c3, c4] == [c0] + [c1, c2, c3, c4];
  }

  /** Standard values below one hundred: Y, 十Y, X十, X十Y. */
  lemma CnToIntStandard(t: nat, u: nat)
    requires 1 <= t <= 9 && 1 <= u <= 9
    ensures CnToInt([CnDigit(u)]) == u
    ensures CnToInt(['十', CnDigit(u)]) == 10 + u
    ensures CnToInt([CnDigit(t), '十']) == 10 * t
    ensures CnToInt([CnDigit(t), '十', CnDigit(u)]) == 10 * t + u
  {
    CnDigitFacts(t);
    CnDigitFacts(u);
    var T, U := CnDigit(t), CnDigit(u);
    var z := Acc(0, 0);
    ScanCons(z, U, []);
    assert [U] + [] == [U];
    Scan2(z, '十', U);
    Scan2(z, T, '十');
    Scan3(z, T, '十', U);
  }

  /** Standard values with hundreds: X百, X百零Y, X百Y, X百Y十Z. */
  lemma CnToIntStandardHundreds(h: nat, t: nat, u: nat)
    requires 1 <= h <= 9 && 1 <= t <= 9 && 1 <= u <= 9
    ensures CnToInt([CnDigit(h), '百']) == 100 * h
    ensures CnToInt([CnDigit(h), '百', '零', CnDigit(u)]) == 100 * h + u
    ensures CnToInt([CnDigit(h), '百', CnDigit(u)]) == 100 * h + u
    ensures CnToInt([CnDigit(h), '百', CnDigit(t), '十', CnDigit(u)]) == 100 * h + 10 * t + u
  {
    CnDigitFacts(h);
    CnDigitFacts(t);
    CnDigitFacts(u);
    CnDigitFacts(0);
    var H, T, U := CnDigit(h), CnDigit(t), CnDigit(u);
    var z := Acc(0, 0);
    Scan2(z, H, '百');
    Scan4(z, H, '百', '零', U);
    Scan3(z, H, '百', U);
    Scan5(z, H, '百', T, '十', U);
  }


  /**
   * The two converters disagree: 一百零五 is 105 for the outline extractor
   * and 0 for the tender splitter, and 一百五 is 105 against 5.
   */
  lemma ConvertersDisagree()
    ensures CnToInt("一百零五") == 105 && Cn2Int("一百零五") == 0
    ensures CnToInt("一百五") == 105 && Cn2Int("一百五") == 5
  {
    assert CnDigit(1) == '一' && CnDigit(5) == '五';
    CnToIntStandardHundreds(1, 1, 5);
    Cn2IntDropsHundreds(1, 5);
  }
}
