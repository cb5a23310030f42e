/** Receipt numbering: the next receipt number is one more than the largest numeric suffix
    among the entries currently in the ledger, written as `AB_RNC - NN`. */
module ReceiptNumbering {
  import opened Wrappers
  import opened Types
  import opened JsText

  /** The fixed text in front of every receipt number. */
  const Prefix: string := "AB_RNC - "

  /** The separator the suffix is split off at. */
  const Separator: string := " - "

  /** The receipt number for `n`: the prefix, then `n` zero-padded to at least two characters.
      `None` (NaN) is written as `NaN`, as JavaScript's template literal does. */
  function FormatReceiptNo(n: Option<int>): string
  {
    Prefix + PadStart(NumberToString(n), 2, '0')
  }

  /** The numeric suffix of a receipt number: `parseInt` of the text after the first separator
      (up to a second one); NaN (`None`) when there is no separator or no digits. */
  function Suffix(receiptNo: string): Option<int>
  {
    ParseInt(SecondPiece(receiptNo, Separator))
  }

  /** `Math.max` of two numbers; NaN when either is NaN. */
  function Max(a: Option<int>, b: Option<int>): (r: Option<int>)
    ensures r.Some? <==> a.Some? && b.Some?
    ensures r.Some? ==> a.value <= r.value && b.value <= r.value && (r == a || r == b)
  {
    match (a, b)
    case (Some(x), Some(y)) => Some(if x < y then y else x)
    case _ => None
  }

  /** `Math.max(...xs)` over a non-empty list of numbers. */
  function MathMax(xs: seq<Option<int>>): Option<int>
    requires |xs| > 0
  {
    if |xs| == 1 then xs[0] else Max(xs[0], MathMax(xs[1..]))
  }

  /** `entries.map(e => suffix of e.receiptNo)`. */
  function Suffixes(entries: seq<ReceiptEntry>): (xs: seq<Option<int>>)
    ensures |xs| == |entries|
  {
    seq(|entries|, i requires 0 <= i < |entries| => Suffix(entries[i].receiptNo))
  }

  /** The receipt number the ledger hands out next: 0 stands in for the maximum of an empty
      ledger, one is added, and the result is formatted. */
  function GenerateReceiptNo(entries: seq<ReceiptEntry>): string
  {
    var lastNum := if |entries| > 0 then MathMax(Suffixes(entries)) else Some(0);
    var nextNum := match lastNum case None => None case Some(n) => Some(n + 1);
    FormatReceiptNo(nextNum)
  }

  /** Every entry's receipt number has a numeric suffix. */
  ghost predicate WellNumbered(entries: seq<ReceiptEntry>)
  {
    AllNumbers(Suffixes(entries))
  }

  /** No NaN among the numbers. */
  ghost predicate AllNumbers(xs: seq<Option<int>>)
  {
    forall i :: 0 <= i < |xs| ==> xs[i].Some?
  }

  /** No two entries share a receipt number. */
  ghost predicate DistinctReceiptNos(entries: seq<ReceiptEntry>)
  {
    forall i, j :: 0 <= i < j < |entries| ==> entries[i].receiptNo != entries[j].receiptNo
  }

  // ---- the format/parse round trip ----

  /** The separator first occurs right after `AB_RNC`, and nowhere in a tail without spaces. */
  lemma SplitFormatted(t: string)
    requires forall i :: 0 <= i < |t| ==> t[i] != ' '
    ensures SecondPiece(Prefix + t, Separator) == Some(t)
  {
    var s := Prefix + t;
    forall k | 0 <= k < 6
      ensures !OccursAt(s, Separator, k)
    {
      assert s[k] != ' ';
      OccursAtStartsWith(s, Separator, k);
    }
    assert s[6..9] == Separator;
    FindFromFirst(s, Separator, 0, 6);
    forall k | 9 <= k
      ensures !OccursAt(s, Separator, k)
    {
      OccursAtStartsWith(s, Separator, k);
      if k < |s| { assert s[k] == t[k - 9]; }
    }
    FindFromNone(s, Separator, 9);
    assert s[9..] == t;
  }

  /** Taking the text after the separator of a formatted receipt number and parsing it gives
      back the number that was formatted (NaN included). */
  lemma SuffixOfFormatted(n: Option<int>)
    ensures Suffix(FormatReceiptNo(n)) == n
  {
    var t := PadStart(NumberToString(n), 2, '0');
    match n
    case None =>
      assert t == "NaN";
      SplitFormatted(t);
      assert TrimStart(t) == t;
    case Some(v) =>
      NoSpaceInNumberText(v);
      SplitFormatted(t);
      ParseIntOfPaddedNumber(v);
  }

  lemma NoSpaceInNumberText(v: int)
    ensures forall i :: 0 <= i < |PadStart(NumberToString(Some(v)), 2, '0')| ==>
      PadStart(NumberToString(Some(v)), 2, '0')[i] != ' '
  {
    var text := NumberToString(Some(v));
    var t := PadStart(text, 2, '0');
    var z := |t| - |text|;
    forall i | 0 <= i < |t| ensures t[i] != ' ' {
      if i >= z {
        assert t[i] == text[i - z];
        if v < 0 {
          assert text == "-" + NatToString(-v);
        }
      }
    }
  }

  /** Formatting pads a natural number to two digits and never cuts digits off. */
  lemma FormatPadsButNeverTruncates(n: nat)
    ensures FormatReceiptNo(Some(n)) == Prefix + (if n < 10 then "0" else "") + NatToString(n)
    ensures n >= 10 ==> FormatReceiptNo(Some(n)) == Prefix + NatToString(n)
  {
    if n < 10 {
      assert PadStart(NatToString(n), 2, '0') == "0" + NatToString(n);
    }
  }

  /** The hundredth receipt is written with three digits. */
  lemma FormatHundred()
    ensures FormatReceiptNo(Some(100)) == "AB_RNC - 100"
  {
    assert NatToString(100) == "100" by {
      assert NatToString(1) == "1";
      assert NatToString(10) == NatToString(1) + "0";
    }
  }

  // ---- the next number ----

  /** On an empty ledger the first receipt number is `AB_RNC - 01`. */
  lemma FirstReceiptNo()
    ensures GenerateReceiptNo([]) == "AB_RNC - 01"
  {
    var one := 1;
    assert GenerateReceiptNo([]) == FormatReceiptNo(Some(one));
    FormattedSmall(one);
    assert DigitChar(one) == '1';
  }

  /** Over numbers without NaN, `Math.max` is the largest of them and is one of them. */
  lemma {:induction false} MathMaxIsMaximum(xs: seq<Option<int>>)
    requires |xs| > 0 && AllNumbers(xs)
    ensures MathMax(xs).Some?
    ensures forall i :: 0 <= i < |xs| ==> xs[i].value <= MathMax(xs).value
    ensures MathMax(xs) in xs
  {
    if |xs| > 1 {
      var rest := xs[1..];
      assert AllNumbers(rest) by {
        forall i | 0 <= i < |rest| ensures rest[i].Some? { assert rest[i] == xs[i + 1]; }
      }
      MathMaxIsMaximum(rest);
      forall i | 0 <= i < |xs| ensures xs[i].value <= MathMax(xs).value {
        if i > 0 { assert xs[i] == rest[i - 1]; }
      }
    }
  }

  /** A single NaN makes `Math.max` NaN. */
  lemma {:induction false} MathMaxPoisoned(xs: seq<Option<int>>, k: nat)
    requires k < |xs| && xs[k].None?
    ensures MathMax(xs).None?
  {
    if k > 0 {
      assert xs[1..][k - 1] == xs[k];
      MathMaxPoisoned(xs[1..], k - 1);
    }
  }

  /** On a well-numbered ledger the next number has a suffix one more than the largest present
      suffix (1 on an empty ledger); it is strictly greater than every present suffix, so the
      new receipt number differs from every present one. */
  lemma NextReceiptNoIsFresh(entries: seq<ReceiptEntry>)
    requires WellNumbered(entries)
    ensures Suffix(GenerateReceiptNo(entries)).Some?
    ensures entries == [] ==> Suffix(GenerateReceiptNo(entries)) == Some(1)
    ensures entries != [] ==> Some(Suffix(GenerateReceiptNo(entries)).value - 1) in Suffixes(entries)
    ensures forall i :: 0 <= i < |entries| ==>
      Suffixes(entries)[i].value < Suffix(GenerateReceiptNo(entries)).value
    ensures forall i :: 0 <= i < |entries| ==> entries[i].receiptNo != GenerateReceiptNo(entries)
  {
    if entries == [] {
      SuffixOfFormatted(Some(1));
    } else {
      NextSuffixExceedsAll(entries);
      NextReceiptNoDiffers(entries);
    }
  }

  lemma NextSuffixExceedsAll(entries: seq<ReceiptEntry>)
    requires WellNumbered(entries) && entries != []
    ensures MathMax(Suffixes(entries)).Some? && MathMax(Suffixes(entries)) in Suffixes(entries)
    ensures Suffix(GenerateReceiptNo(entries)) == Some(MathMax(Suffixes(entries)).value + 1)
    ensures forall i :: 0 <= i < |entries| ==>
      Suffixes(entries)[i].value < Suffix(GenerateReceiptNo(entries)).value
  {
    var xs := Suffixes(entries);
    MathMaxIsMaximum(xs);
    var m := MathMax(xs).value;
    assert GenerateReceiptNo(entries) == FormatReceiptNo(Some(m + 1));
    SuffixOfFormatted(Some(m + 1));
  }

  lemma NextReceiptNoDiffers(entries: seq<ReceiptEntry>)
    requires WellNumbered(entries) && entries != []
    ensures forall i :: 0 <= i < |entries| ==> entries[i].receiptNo != GenerateReceiptNo(entries)
  {
    var xs := Suffixes(entries);
    MathMaxIsMaximum(xs);
    var m := MathMax(xs).value;
    var r := GenerateReceiptNo(entries);
    assert r == FormatReceiptNo(Some(m + 1));
    SuffixOfFormatted(Some(m + 1));
    forall i | 0 <= i < |entries| ensures entries[i].receiptNo != r {
      assert xs[i].value <= m;
      assert xs[i] == Suffix(entries[i].receiptNo);
    }
  }

  /** When some receipt number has no numeric suffix, the next number is `AB_RNC - NaN`: there
      is no fallback to 0. */
  lemma NaNSuffixPoisonsNumbering(entries: seq<ReceiptEntry>, k: nat)
    requires k < |entries| && Suffix(entries[k].receiptNo).None?
    ensures GenerateReceiptNo(entries) == "AB_RNC - NaN"
  {
    MathMaxPoisoned(Suffixes(entries), k);
  }

  /** Prepending an entry that carries the generated number keeps the ledger well numbered and
      keeps its receipt numbers distinct. */
  lemma PrependKeepsNumbering(entries: seq<ReceiptEntry>, e: ReceiptEntry)
    requires WellNumbered(entries)
    requires e.receiptNo == GenerateReceiptNo(entries)
    ensures WellNumbered([e] + entries)
    ensures DistinctReceiptNos(entries) ==> DistinctReceiptNos([e] + entries)
  {
    NextReceiptNoIsFresh(entries);
    PrependKeepsWellNumbered(entries, e);
    if DistinctReceiptNos(entries) {
      PrependKeepsDistinctNos(entries, e);
    }
  }

  lemma PrependKeepsWellNumbered(entries: seq<ReceiptEntry>, e: ReceiptEntry)
    requires WellNumbered(entries) && Suffix(e.receiptNo).Some?
    ensures WellNumbered([e] + entries)
  {
    var s := [e] + entries;
    assert Suffixes(s) == [Suffix(e.receiptNo)] + Suffixes(entries);
  }

  lemma PrependKeepsDistinctNos(entries: seq<ReceiptEntry>, e: ReceiptEntry)
    requires DistinctReceiptNos(entries)
    requires forall i :: 0 <= i < |entries| ==> entries[i].receiptNo != e.receiptNo
    ensures DistinctReceiptNos([e] + entries)
  {
    var s := [e] + entries;
    forall i, j | 0 <= i < j < |s| ensures s[i].receiptNo != s[j].receiptNo {
      assert s[j] == entries[j - 1];
      if i > 0 { assert s[i] == entries[i - 1]; }
    }
  }

  /** Worked example: a ledger holding, newest first, `AB_RNC - 05`, `AB_RNC - 02` and
      `AB_RNC - 01` gives `AB_RNC - 06` next. */
  lemma NextAfterFiveTwoOne(newest: ReceiptEntry, middle: ReceiptEntry, oldest: ReceiptEntry)
    requires newest.receiptNo == "AB_RNC - 05" && middle.receiptNo == "AB_RNC - 02"
    requires oldest.receiptNo == "AB_RNC - 01"
    ensures GenerateReceiptNo([newest, middle, oldest]) == "AB_RNC - 06"
  {
    var one, two, five, six := 1, 2, 5, 6;
    assert DigitChar(one) == '1' && DigitChar(two) == '2' && DigitChar(five) == '5';
    SuffixOfSmall(newest.receiptNo, five);
    SuffixOfSmall(middle.receiptNo, two);
    SuffixOfSmall(oldest.receiptNo, one);
    NextAfterThree(newest, middle, oldest, five, two, one);
    FormattedSmall(six);
    assert DigitChar(six) == '6';
  }

  /** Three entries whose suffixes fall from newest to oldest, as the ledger lists entries it
      numbered itself, are followed by one more than the newest. */
  lemma NextAfterThree(a: ReceiptEntry, b: ReceiptEntry, c: ReceiptEntry, x: int, y: int, z: int)
    requires x >= y >= z
    requires Suffix(a.receiptNo) == Some(x) && Suffix(b.receiptNo) == Some(y)
    requires Suffix(c.receiptNo) == Some(z)
    ensures GenerateReceiptNo([a, b, c]) == FormatReceiptNo(Some(x + 1))
  {
    assert Suffixes([a, b, c]) == [Some(x), Some(y), Some(z)];
    MathMaxOfDecreasing(x, y, z);
  }

  /** `Math.max` of three decreasing numbers is the first. */
  lemma MathMaxOfDecreasing(x: int, y: int, z: int)
    requires x >= y >= z
    ensures MathMax([Some(x), Some(y), Some(z)]) == Some(x)
  {
    var xs := [Some(x), Some(y), Some(z)];
    assert xs[1..][1..] == [Some(z)];
    assert xs[1..] == [Some(y), Some(z)];
    assert MathMax(xs[1..]) == Max(Some(y), Some(z)) == Some(y);
    assert MathMax(xs) == Max(Some(x), Some(y)) == Some(x);
  }

  /** A one-digit number is written with a single leading zero. */
  lemma FormattedSmall(d: nat)
    requires d < 10
    ensures FormatReceiptNo(Some(d)) == Prefix + ['0', DigitChar(d)]
  {
    assert NatToString(d) == [DigitChar(d)];
  }

  /** The suffix of a receipt number with one padded digit. */
  lemma SuffixOfSmall(r: string, d: nat)
    requires d < 10 && r == Prefix + ['0', DigitChar(d)]
    ensures Suffix(r) == Some(d)
  {
    FormattedSmall(d);
    SuffixOfFormatted(Some(d));
  }
}
