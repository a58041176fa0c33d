/** The name under which a kept image is written: its image id in decimal,
    zero-padded to at least five digits, followed by ".png". */
module FileNames {

  predicate IsDigit(ch: char)
  {
    '0' <= ch <= '9'
  }

  predicate AllDigits(s: string)
  {
    forall i :: 0 <= i < |s| ==> IsDigit(s[i])
  }

  function DigitChar(d: nat): (ch: char)
    requires d < 10
    ensures IsDigit(ch) && ch as int - '0' as int == d
  {
    ('0' as int + d) as char
  }

  /** The decimal digits of n, most significant first, without leading zeros. */
  function Digits(n: nat): (s: string)
    ensures |s| >= 1 && AllDigits(s)
    ensures n >= 10 ==> s[0] != '0'
  {
    if n < 10 then [DigitChar(n)] else Digits(n / 10) + [DigitChar(n % 10)]
  }

  /** The number a string of decimal digits denotes. */
  function DecimalValue(s: string): nat
    requires AllDigits(s)
  {
    if s == [] then 0
    else DecimalValue(s[..|s| - 1]) * 10 + (s[|s| - 1] as int - '0' as int)
  }

  /** Left-pads with '0' up to `width` characters; longer strings are kept whole. */
  function ZeroPad(s: string, width: nat): (r: string)
    ensures |r| == if |s| < width then width else |s|
  {
    if |s| < width then seq(width - |s|, _ => '0') + s else s
  }

  /** The file name of image `imageId`: at least five digits, then ".png". */
  function FileName(imageId: nat): (name: string)
    ensures |name| >= 9
    ensures name[|name| - 4..] == ".png"
    ensures AllDigits(name[..|name| - 4])
    ensures imageId >= 10000 ==> name[0] != '0'
  {
    var digits := ZeroPad(Digits(imageId), 5);
    assert AllDigits(digits);
    assert imageId >= 10000 ==> digits[0] != '0' by {
      if imageId >= 10000 {
        DigitsLong(imageId, 4);
      }
    }
    assert (digits + ".png")[..|digits|] == digits;
    digits + ".png"
  }

  lemma {:induction false} DigitsValue(n: nat)
    ensures DecimalValue(Digits(n)) == n
  {
    if n >= 10 {
      DigitsValue(n / 10);
      var s := Digits(n);
      assert s[..|s| - 1] == Digits(n / 10);
    }
  }

  lemma {:induction false} LeadingZerosValue(zeros: nat, s: string)
    requires AllDigits(s)
    ensures AllDigits(seq(zeros, _ => '0') + s)
    ensures DecimalValue(seq(zeros, _ => '0') + s) == DecimalValue(s)
  {
    var t := seq(zeros, _ => '0') + s;
    if s == [] {
      if zeros > 0 {
        assert t[..|t| - 1] == seq(zeros - 1, _ => '0') + [];
        LeadingZerosValue(zeros - 1, []);
      }
    } else {
      assert t[..|t| - 1] == seq(zeros, _ => '0') + s[..|s| - 1];
      LeadingZerosValue(zeros, s[..|s| - 1]);
    }
  }

  /** The digits of a file name denote its image id. */
  lemma FileNameValue(imageId: nat)
    ensures var name := FileName(imageId); DecimalValue(name[..|name| - 4]) == imageId
  {
    var digits := Digits(imageId);
    var name := FileName(imageId);
    assert name[..|name| - 4] == ZeroPad(digits, 5);
    DigitsValue(imageId);
    if |digits| < 5 {
      LeadingZerosValue(5 - |digits|, digits);
    }
  }

  /** Distinct images get distinct files; names below 100000 are exactly nine characters. */
  lemma FileNameInjective(a: nat, b: nat)
    ensures FileName(a) == FileName(b) ==> a == b
    ensures a < 100000 ==> |FileName(a)| == 9
  {
    FileNameValue(a);
    FileNameValue(b);
    if a < 100000 {
      DigitsLength(a, 5);
    }
  }

  /** A number below 10^k has at most k digits. */
  lemma {:induction false} DigitsLength(n: nat, k: nat)
    requires n < Pow10(k)
    ensures |Digits(n)| <= if k == 0 then 1 else k
  {
    if n >= 10 {
      DigitsLength(n / 10, k - 1);
    }
  }

  /** A number of at least 10^k has more than k digits. */
  lemma {:induction false} DigitsLong(n: nat, k: nat)
    requires n >= Pow10(k)
    ensures |Digits(n)| > k
  {
    if k > 0 {
      DigitsLong(n / 10, k - 1);
    }
  }

  function Pow10(k: nat): (p: nat)
    ensures p >= 1
  {
    if k == 0 then 1 else 10 * Pow10(k - 1)
  }
}
