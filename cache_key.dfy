/** The data-cache key `"{name}_{col_start}_{col_length}"` and the proof that
    it determines the file name and the byte range it was built from. */
module CacheKey {
  import opened Basics

  predicate IsDigit(c: char) {
    '0' <= c <= '9'
  }

  predicate AllDigits(s: string) {
    forall i :: 0 <= i < |s| ==> IsDigit(s[i])
  }

  function DigitChar(d: nat): (c: char)
    requires d < 10
    ensures IsDigit(c) && c as int - '0' as int == d
  {
    ('0' as int + d) as char
  }

  function DigitValue(c: char): (d: nat)
    requires IsDigit(c)
    ensures d < 10 && DigitChar(d) == c
  {
    c as int - '0' as int
  }

  /** Rust's `{}` formatting of an unsigned integer: decimal digits, most
      significant first, no leading zeros. */
  function Decimal(n: nat): (s: string)
    ensures |s| >= 1 && AllDigits(s)
    ensures |s| > 1 ==> s[0] != '0'
  {
    if n < 10 then [DigitChar(n)] else Decimal(n / 10) + [DigitChar(n % 10)]
  }

  /** The value of a string of decimal digits. */
  function ParseDecimal(s: string): nat
    requires AllDigits(s)
  {
    if s == [] then 0 else ParseDecimal(s[..|s| - 1]) * 10 + DigitValue(s[|s| - 1])
  }

  lemma {:induction false} ParseDecimalOfDecimal(n: nat)
    ensures ParseDecimal(Decimal(n)) == n
  {
    var s := Decimal(n);
    if n >= 10 {
      ParseDecimalOfDecimal(n / 10);
      assert s[..|s| - 1] == Decimal(n / 10);
    }
  }

  /** `format_page_data_key`: the name, then `_` and the decimal start, then
      `_` and the decimal length. After the name only digits and separators
      follow, and the key ends in a digit, which is what lets
      `SplitPageDataKey` read it back from the right. */
  function FormatPageDataKey(name: string, colStart: nat, colLength: nat): (k: string)
    ensures |k| >= |name| + 4
    ensures k[..|name|] == name && k[|name|] == '_'
    ensures forall i :: |name| < i < |k| ==> IsDigit(k[i]) || k[i] == '_'
    ensures IsDigit(k[|k| - 1])
  {
    name + "_" + Decimal(colStart) + "_" + Decimal(colLength)
  }

  /** The position of the last `c` in `s`, if any. */
  function LastIndexOf(s: string, c: char): (r: Option<nat>)
    ensures r.Some? ==> r.value < |s| && s[r.value] == c
    ensures r.Some? ==> forall j :: r.value < j < |s| ==> s[j] != c
    ensures r.None? ==> forall j :: 0 <= j < |s| ==> s[j] != c
  {
    if s == [] then None
    else if s[|s| - 1] == c then Some(|s| - 1)
    else LastIndexOf(s[..|s| - 1], c)
  }

  datatype KeyParts = KeyParts(name: string, colStart: nat, colLength: nat)

  /** Reads a data-cache key from the right: the text after the last `_` is the
      length, the text between the last two `_` is the start, and everything
      before them (which may itself contain `_`) is the file name. */
  function SplitPageDataKey(key: string): Option<KeyParts> {
    match LastIndexOf(key, '_')
    case None => None
    case Some(j) =>
      var lengthDigits := key[j + 1..];
      match LastIndexOf(key[..j], '_')
      case None => None
      case Some(i) =>
        var startDigits := key[i + 1..j];
        if AllDigits(startDigits) && AllDigits(lengthDigits) then
          Some(KeyParts(key[..i], ParseDecimal(startDigits), ParseDecimal(lengthDigits)))
        else
          None
  }

  /** A key can be taken apart again: the name, start and length are recovered
      from the right, because decimal digits contain no `_`. */
  lemma SplitFormatPageDataKey(name: string, colStart: nat, colLength: nat)
    ensures SplitPageDataKey(FormatPageDataKey(name, colStart, colLength))
            == Some(KeyParts(name, colStart, colLength))
  {
    var ds, dl := Decimal(colStart), Decimal(colLength);
    var key := FormatPageDataKey(name, colStart, colLength);
    var j := |name| + 1 + |ds|;
    assert key[j] == '_';
    assert key[j + 1..] == dl;
    assert forall k :: j < k < |key| ==> key[k] == dl[k - j - 1];
    assert LastIndexOf(key, '_') == Some(j);
    var prefix := key[..j];
    assert prefix == name + "_" + ds;
    var i := |name|;
    assert prefix[i] == '_';
    assert forall k :: i < k < |prefix| ==> prefix[k] == ds[k - i - 1];
    assert LastIndexOf(prefix, '_') == Some(i);
    assert key[i + 1..j] == ds;
    assert key[..i] == name;
    ParseDecimalOfDecimal(colStart);
    ParseDecimalOfDecimal(colLength);
  }

  /** Distinct (name, start, length) triples give distinct keys. */
  lemma FormatPageDataKeyInjective(name: string, colStart: nat, colLength: nat,
                                   name': string, colStart': nat, colLength': nat)
    requires FormatPageDataKey(name, colStart, colLength) == FormatPageDataKey(name', colStart', colLength')
    ensures name == name' && colStart == colStart' && colLength == colLength'
  {
    SplitFormatPageDataKey(name, colStart, colLength);
    SplitFormatPageDataKey(name', colStart', colLength');
  }
}
