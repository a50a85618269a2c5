/**
 * Frame file names of the image sequence: frame `i` (1-based) lives at
 * `folderPath + "/" + filePrefix + pad3(i) + ".jpg"`, where `pad3(i)` is the
 * decimal rendering of `i` left-padded with '0' to at least three characters
 * (`i.toString().padStart(3, "0")`).
 */
module FrameNaming {

  predicate IsDigit(c: char) {
    '0' <= c <= '9'
  }

  predicate AllDigits(s: string) {
    forall k :: 0 <= k < |s| ==> IsDigit(s[k])
  }

  function DigitChar(d: nat): (c: char)
    requires d < 10
    ensures IsDigit(c)
    ensures c as int - '0' as int == d
  {
    ('0' as int + d) as char
  }

  function DigitValue(c: char): (d: nat)
    requires IsDigit(c)
    ensures d < 10
    ensures DigitChar(d) == c
  {
    c as int - '0' as int
  }

  function Pow10(k: nat): (p: nat)
    ensures p >= 1
  {
    if k == 0 then 1 else 10 * Pow10(k - 1)
  }

  /**
   * Number of decimal digits of `n`; zero has one digit. A positive `n`
   * with `k` digits lies in `[10^(k-1), 10^k)`.
   */
  function NumDigits(n: nat): (k: nat)
    ensures k >= 1
    ensures n < Pow10(k)
    ensures n >= 1 ==> Pow10(k - 1) <= n
  {
    if n < 10 then 1 else 1 + NumDigits(n / 10)
  }

  function Max(a: int, b: int): int {
    if a >= b then a else b
  }

  /**
   * The decimal text of a non-negative integer, as JavaScript's
   * `Number.prototype.toString()` writes it: digits only, no sign, and no
   * leading zero except for zero itself.
   */
  function ToDecimal(n: nat): (s: string)
    ensures |s| == NumDigits(n)
    ensures AllDigits(s)
    ensures s[0] == '0' <==> n == 0
    decreases n
  {
    if n < 10 then [DigitChar(n)] else ToDecimal(n / 10) + [DigitChar(n % 10)]
  }

  /** Reads a string of decimal digits back as a number (leading zeros allowed). */
  function ParseDecimal(s: string): (n: nat)
    requires AllDigits(s)
    decreases |s|
  {
    if s == [] then 0 else 10 * ParseDecimal(s[..|s| - 1]) + DigitValue(s[|s| - 1])
  }

  /**
   * `s.padStart(width, fill)` for a one-character pad string: a string no
   * shorter than `width` is returned unchanged, a shorter one is preceded by
   * as many copies of `fill` as it lacks.
   */
  function PadStart(s: string, width: nat, fill: char): (r: string)
    ensures |r| == Max(width, |s|)
    ensures r[|r| - |s|..] == s
    ensures forall k :: 0 <= k < |r| - |s| ==> r[k] == fill
  {
    if |s| >= width then s else seq(width - |s|, _ => fill) + s
  }

  /**
   * The frame number as it appears in a file name:
   * `i.toString().padStart(3, "0")`. It has `max(3, digits(i))` characters,
   * all digits, and reads back as `i`: padding never truncates, and numbers
   * of four or more digits come out unpadded.
   */
  function PadFrameNumber(i: nat): (r: string)
    ensures |r| == Max(3, NumDigits(i))
    ensures AllDigits(r)
    ensures ParseDecimal(r) == i
  {
    ZeroPaddingKeepsValue(ToDecimal(i), 3);
    DecimalRoundTrip(i);
    PadStart(ToDecimal(i), 3, '0')
  }

  datatype Option<T> = None | Some(value: T)

  /**
   * Reads the frame number back from a URL of the sequence in `folderPath`
   * with prefix `filePrefix`; `None` when the URL has another shape.
   */
  function FrameNumberOf(folderPath: string, filePrefix: string, url: string): Option<nat> {
    var head := folderPath + "/" + filePrefix;
    if |url| >= |head| + 4 && url[..|head|] == head && url[|url| - 4..] == ".jpg"
       && AllDigits(url[|head|..|url| - 4])
    then Some(ParseDecimal(url[|head|..|url| - 4]))
    else None
  }

  /**
   * The URL the preloader assigns to frame `i`:
   * `${folderPath}/${filePrefix}${frameIndex}.jpg`, five characters longer
   * than the folder, the prefix and the padded number together.
   */
  function FrameUrl(folderPath: string, filePrefix: string, i: nat): (url: string)
    ensures |url| == |folderPath| + |filePrefix| + Max(3, NumDigits(i)) + 5
  {
    folderPath + "/" + filePrefix + PadFrameNumber(i) + ".jpg"
  }

  /** The frame number reads back from the URL of every frame. */
  lemma FrameUrlReadsBack(folderPath: string, filePrefix: string, i: nat)
    ensures FrameNumberOf(folderPath, filePrefix, FrameUrl(folderPath, filePrefix, i)) == Some(i)
  {
    var head := folderPath + "/" + filePrefix;
    var name := PadFrameNumber(i);
    var url := FrameUrl(folderPath, filePrefix, i);
    assert url == head + name + ".jpg";
    assert url[..|head|] == head;
    assert url[|url| - 4..] == ".jpg";
    assert url[|head|..|url| - 4] == name;
  }

  lemma {:induction false} DecimalRoundTrip(n: nat)
    ensures ParseDecimal(ToDecimal(n)) == n
    decreases n
  {
    if n >= 10 {
      var s := ToDecimal(n);
      assert s[..|s| - 1] == ToDecimal(n / 10);
      DecimalRoundTrip(n / 10);
    }
  }

  predicate AllZeros(z: string) {
    forall k :: 0 <= k < |z| ==> z[k] == '0'
  }

  lemma {:induction false} ZerosParseToZero(z: string)
    requires AllZeros(z)
    ensures AllDigits(z) && ParseDecimal(z) == 0
    decreases |z|
  {
    if z != [] {
      ZerosParseToZero(z[..|z| - 1]);
    }
  }

  /** Leading zeros do not change the value a digit string denotes. */
  lemma {:induction false} LeadingZerosIgnored(z: string, s: string)
    requires AllZeros(z) && AllDigits(s)
    ensures AllDigits(z + s) && ParseDecimal(z + s) == ParseDecimal(s)
    decreases |s|
  {
    ZerosParseToZero(z);
    if s == [] {
      assert z + s == z;
    } else {
      var t := z + s;
      assert t[..|t| - 1] == z + s[..|s| - 1];
      assert t[|t| - 1] == s[|s| - 1];
      LeadingZerosIgnored(z, s[..|s| - 1]);
    }
  }

  /** Left-padding a digit string with zeros keeps it a digit string of the same value. */
  lemma ZeroPaddingKeepsValue(s: string, width: nat)
    requires AllDigits(s)
    ensures AllDigits(PadStart(s, width, '0'))
    ensures ParseDecimal(PadStart(s, width, '0')) == ParseDecimal(s)
  {
    var r := PadStart(s, width, '0');
    if |s| < width {
      var z := r[..width - |s|];
      assert r == z + s;
      LeadingZerosIgnored(z, s);
    }
  }

  /** Distinct frame numbers give distinct padded names. */
  lemma PadFrameNumberInjective(i: nat, j: nat)
    requires PadFrameNumber(i) == PadFrameNumber(j)
    ensures i == j
  {
    assert ParseDecimal(PadFrameNumber(i)) == i;
  }

  /** Within one folder and prefix, distinct frames are requested from distinct URLs. */
  lemma FrameUrlInjective(folderPath: string, filePrefix: string, i: nat, j: nat)
    requires FrameUrl(folderPath, filePrefix, i) == FrameUrl(folderPath, filePrefix, j)
    ensures i == j
  {
    FrameUrlReadsBack(folderPath, filePrefix, i);
    FrameUrlReadsBack(folderPath, filePrefix, j);
  }

  /** Worked cases: 1 is padded, 240 fills three places, 1000 is left as it is. */
  lemma PadFrameNumberExamples()
    ensures PadFrameNumber(1) == "001"
    ensures PadFrameNumber(240) == "240"
    ensures PadFrameNumber(1000) == "1000"
  {
    assert ToDecimal(1) == "1";
    assert ToDecimal(240) == "240";
    assert ToDecimal(1000) == "1000";
  }

  /** First and last URL of a 240-frame sequence under folder "/x" and prefix "f-". */
  lemma FrameUrlExamples()
    ensures FrameUrl("/x", "f-", 1) == "/x/f-001.jpg"
    ensures FrameUrl("/x", "f-", 240) == "/x/f-240.jpg"
  {
    PadFrameNumberExamples();
    ExampleUrlsSpelled(PadFrameNumber(1), PadFrameNumber(240));
  }

  lemma ExampleUrlsSpelled(first: string, last: string)
    requires first == "001" && last == "240"
    ensures "/x" + "/" + "f-" + first + ".jpg" == "/x/f-001.jpg"
    ensures "/x" + "/" + "f-" + last + ".jpg" == "/x/f-240.jpg"
  {
  }
}
