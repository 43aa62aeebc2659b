/** The header sector of the metadata volume (sm/srmetadata.py:138-158, 181-209):
    "XSSM:<length padded to 10>:1:2". */
module SrHeader {
  import opened Options
  import opened XmlText
  import opened SlotCodec

  // ---- Decimal numbers ----

  const DIGITS := "0123456789"

  function Dec(n: nat): (s: string)
    ensures s != ""
  {
    if n < 10 then [DIGITS[n]] else Dec(n / 10) + [DIGITS[n % 10]]
  }

  function DigitValue(c: char): Option<nat> {
    if '0' <= c <= '9' then Some((c as int) - ('0' as int)) else None
  }

  /** int() of a string of digits. */
  function ParseNat(s: string): Option<nat> {
    if s == "" then None
    else
      match DigitValue(s[|s| - 1])
      case None => None
      case Some(d) =>
        if |s| == 1 then Some(d)
        else match ParseNat(s[..|s| - 1])
          case None => None
          case Some(n) => Some(10 * n + d)
  }

  predicate AllDigits(s: string) {
    forall i :: 0 <= i < |s| ==> '0' <= s[i] <= '9'
  }

  lemma DigitReads(k: nat)
    requires k < 10
    ensures DigitValue(DIGITS[k]) == Some(k) && '0' <= DIGITS[k] <= '9'
  {
  }

  lemma LastDigit(s: string, k: nat)
    requires s != "" && k < 10
    ensures ParseNat(s + [DIGITS[k]])
            == match ParseNat(s) case None => None case Some(n) => Some(10 * n + k)
  {
    hide DigitValue;
    DigitReads(k);
    var t := s + [DIGITS[k]];
    assert t[..|t| - 1] == s && t[|t| - 1] == DIGITS[k];
  }

  lemma OneDigit(k: nat)
    requires k < 10
    ensures ParseNat([DIGITS[k]]) == Some(k)
  {
    DigitReads(k);
  }

  lemma {:induction false} DecRoundTrip(n: nat)
    ensures ParseNat(Dec(n)) == Some(n) && AllDigits(Dec(n))
  {
    hide ParseNat, DigitValue;
    DigitReads(n % 10);
    if n >= 10 {
      DecRoundTrip(n / 10);
      LastDigit(Dec(n / 10), n % 10);
      assert n == 10 * (n / 10) + n % 10;
    } else {
      OneDigit(n);
    }
  }

  function Power10(k: nat): nat {
    if k == 0 then 1 else 10 * Power10(k - 1)
  }

  lemma {:induction false} DecLength(n: nat, k: nat)
    requires k >= 1 && n < Power10(k)
    ensures |Dec(n)| <= k
  {
    if n >= 10 {
      assert k >= 2 by { assert Power10(1) == 10 * Power10(0); }
      DecLength(n / 10, k - 1);
    }
  }

  // ---- The header ----

  const LENGTH_SIZE := 10
  const MAX_LENGTH := 10_000_000_000   // first length with more digits than that

  /** "%-10s" % length */
  function LengthField(length: nat): string {
    var s := Dec(length);
    if |s| < LENGTH_SIZE then s + Spaces(LENGTH_SIZE - |s|) else s
  }

  function BuildHeader(length: nat): string {
    "XSSM" + ":" + LengthField(length) + ":" + "1" + ":" + "2"
  }

  /** The header of an empty table. */
  lemma EmptyHeader()
    ensures BuildHeader(2048) == "XSSM:2048      :1:2"
  {
    assert Dec(2) == "2" && Dec(20) == "20" && Dec(204) == "204" && Dec(2048) == "2048";
    assert Spaces(6) == "      ";
  }

  /** str.split(':') */
  function Split(s: string): seq<string>
    decreases |s|
  {
    var (a, b) := Until(s, ':');
    if b == "" then [a] else SplitShrinks(s); [a] + Split(b[1..])
  }

  lemma SplitShrinks(s: string)
    ensures Until(s, ':').1 != "" ==> |Until(s, ':').1[1..]| < |s|
  {
  }

  /** getMetadataLength, from the text of the first sector. */
  function ParseLength(sector: string): Option<nat> {
    var parts := Split(Strip(sector));
    if |parts| != 4 || parts[0] != "XSSM" then None
    else ParseNat(Strip(parts[1]))
  }

  lemma {:induction false} TrimPadding(s: string, pad: string)
    requires AllBlank(pad)
    ensures TrimRight(s + pad) == TrimRight(s)
  {
    if pad == "" {
      assert s + pad == s;
    } else {
      var t := s + pad;
      assert t[..|t| - 1] == s + pad[..|pad| - 1];
      TrimPadding(s, pad[..|pad| - 1]);
    }
  }

  lemma SplitAt(a: string, b: string)
    requires ':' !in a
    ensures Split(a + ":" + b) == [a] + Split(b)
  {
    assert a + ":" + b == a + [':'] + b;
    UntilFinds(a, ':', b);
    assert ([':'] + b)[1..] == b;
  }

  lemma FieldReads(length: nat)
    ensures ':' !in LengthField(length)
    ensures ParseNat(Strip(LengthField(length))) == Some(length)
  {
    hide Dec, ParseNat;
    DecRoundTrip(length);
    DigitsStrip(Dec(length), LengthField(length)[|Dec(length)|..]);
    assert LengthField(length) == Dec(length) + LengthField(length)[|Dec(length)|..];
  }

  lemma DigitsStrip(s: string, pad: string)
    requires s != "" && AllDigits(s) && AllBlank(pad)
    ensures Strip(s + pad) == s && (':' !in pad ==> ':' !in s + pad)
  {
    TrimPadding(s, pad);
    assert (s + pad)[0] == s[0];
    assert !Blank(s[0]) && !Blank(s[|s| - 1]);
  }

  /** The header sector reads back as the length it was built for. */
  lemma HeaderRoundTrip(length: nat, pad: string)
    requires AllBlank(pad)
    ensures ParseLength(BuildHeader(length) + pad) == Some(length)
  {
    hide ParseNat, Dec;
    var f := LengthField(length);
    FieldReads(length);
    HeaderStrips(length, pad);
    HeaderSplits(f);
  }

  lemma HeaderStrips(length: nat, pad: string)
    requires AllBlank(pad)
    ensures Strip(BuildHeader(length) + pad) == "XSSM" + ":" + (LengthField(length) + ":" + ("1" + ":" + "2"))
  {
    hide LengthField;
    var h := BuildHeader(length);
    TrimPadding(h, pad);
    assert (h + pad)[0] == 'X';
    assert SkipBlanks(h + pad) == h + pad;
    assert h[|h| - 1] == '2';
    assert TrimRight(h) == h;
    assert h == "XSSM" + ":" + (LengthField(length) + ":" + ("1" + ":" + "2"));
  }

  lemma HeaderSplits(f: string)
    requires ':' !in f
    ensures Split("XSSM" + ":" + (f + ":" + ("1" + ":" + "2"))) == ["XSSM", f, "1", "2"]
  {
    hide Split;
    SplitAt("XSSM", f + ":" + ("1" + ":" + "2"));
    SplitAt(f, "1" + ":" + "2");
    SplitAt("1", "2");
    SplitLast("2");
    assert ["1"] + ["2"] == ["1", "2"];
    assert [f] + ["1", "2"] == [f, "1", "2"];
  }

  lemma SplitLast(s: string)
    requires ':' !in s
    ensures Split(s) == [s]
  {
    UntilAll(s, ':');
  }

  /** A header for a length of at most ten digits fits in its sector with room to spare. */
  lemma HeaderLength(length: nat)
    requires length < MAX_LENGTH
    ensures |BuildHeader(length)| == 19
  {
    assert Power10(10) == MAX_LENGTH by {
      assert Power10(5) == 100000;
    }
    DecLength(length, 10);
  }
}
