/** unictrunc: how many bytes of a text fit (sm/util.py:573-589), with the sizes of
    section 3 of RFC 3629. */
module Utf8 {
  import opened Options
  import opened SlotCodec

  // ---- Characters as bytes ----

  /** The bytes of a character (section 3 of RFC 3629). */
  function Encode(c: char): (r: seq<nat>)
    ensures forall i :: 0 <= i < |r| ==> r[i] < 256
  {
    var p := c as int;
    if p < 0x80 then [p]
    else if p < 0x800 then [0xC0 + p / 0x40, Tail(p)]
    else if p < 0x1_0000 then [0xE0 + p / 0x1000, Tail(p / 0x40), Tail(p)]
    else [0xF0 + p / 0x4_0000, Tail(p / 0x1000), Tail(p / 0x40), Tail(p)]
  }

  function Tail(p: nat): (b: nat)
    ensures 0x80 <= b < 0xC0
  {
    0x80 + p % 0x40
  }

  predicate IsTail(b: nat) {
    0x80 <= b < 0xC0
  }

  /** The number of the first character of some bytes, and how many bytes it takes. Longer
      forms than needed are not accepted. */
  function Decode(b: seq<nat>): Option<(nat, nat)> {
    if b == [] then None
    else if b[0] < 0x80 then Some((b[0], 1))
    else if 0xC0 <= b[0] < 0xE0 && |b| >= 2 && IsTail(b[1]) then
      var p := (b[0] - 0xC0) * 0x40 + (b[1] - 0x80);
      if p < 0x80 then None else Some((p, 2))
    else if 0xE0 <= b[0] < 0xF0 && |b| >= 3 && IsTail(b[1]) && IsTail(b[2]) then
      var p := (b[0] - 0xE0) * 0x1000 + (b[1] - 0x80) * 0x40 + (b[2] - 0x80);
      if p < 0x800 then None else Some((p, 3))
    else if 0xF0 <= b[0] < 0xF8 && |b| >= 4 && IsTail(b[1]) && IsTail(b[2]) && IsTail(b[3]) then
      var p := (b[0] - 0xF0) * 0x4_0000 + (b[1] - 0x80) * 0x1000 + (b[2] - 0x80) * 0x40 + (b[3] - 0x80);
      if p < 0x1_0000 then None else Some((p, 4))
    else None
  }

  /** Two digits to the base 0x40. */
  lemma Digits(p: nat, q: nat, hi: nat)
    requires q == p / 0x40 && hi == q / 0x40
    ensures p == q * 0x40 + (Tail(p) - 0x80) && q == hi * 0x40 + (Tail(q) - 0x80)
  {
  }

  /** A character is read back from its bytes, whatever follows them, and its size is their
      number. */
  lemma EncodeRoundTrip(c: char, rest: seq<nat>)
    ensures Decode(Encode(c) + rest) == Some((c as nat, Size(c)))
    ensures |Encode(c)| == Size(c)
  {
    hide Tail;
    var p := c as nat;
    var b := Encode(c) + rest;
    assert forall i :: 0 <= i < |Encode(c)| ==> b[i] == Encode(c)[i];
    Shifts(p);
    Digits(p, p / 0x40, p / 0x1000);
    Digits(p / 0x40, p / 0x1000, p / 0x4_0000);
  }

  lemma Shifts(p: nat)
    ensures p / 0x40 / 0x40 == p / 0x1000 && p / 0x1000 / 0x40 == p / 0x4_0000
  {
  }

  function Size(c: char): (n: nat)
    ensures 1 <= n <= 4
  {
    var p := c as int;
    if p < 0x80 then 1 else if p < 0x800 then 2 else if p < 0x1_0000 then 3 else 4
  }

  /** The length of the text in bytes. */
  function Bytes(s: string): nat {
    if s == "" then 0 else Bytes(s[..|s| - 1]) + Size(s[|s| - 1])
  }

  lemma {:induction false} PrefixIsShorter(s: string, k: nat)
    requires k <= |s|
    ensures Bytes(s[..k]) <= Bytes(s)
    ensures k < |s| ==> Bytes(s[..k]) + Size(s[k]) <= Bytes(s)
  {
    if k == |s| {
      assert s[..k] == s;
    } else if k < |s| - 1 {
      PrefixIsShorter(s[..|s| - 1], k);
      assert s[..|s| - 1][..k] == s[..k];
    }
  }

  lemma NextFits(s: string, k: nat, j: nat)
    requires k < j <= |s|
    ensures Bytes(s[..k]) + Size(s[k]) <= Bytes(s[..j])
  {
    PrefixIsShorter(s[..j], k);
    assert s[..j][..k] == s[..k];
  }

  /** The largest boundary between characters that is within the limit. */
  method UnicTrunc(text: string, maxBytes: nat) returns (n: nat)
    ensures n <= maxBytes
    ensures exists k :: 0 <= k <= |text| && Bytes(text[..k]) == n
    ensures forall k :: 0 <= k <= |text| && Bytes(text[..k]) <= maxBytes ==> Bytes(text[..k]) <= n
  {
    n := 0;
    var k := 0;
    while k < |text|
      invariant 0 <= k <= |text| && n == Bytes(text[..k]) <= maxBytes
    {
      var size := Size(text[k]);
      if n + size > maxBytes {
        break;
      }
      assert text[..k + 1][..k] == text[..k];
      n := n + size;
      k := k + 1;
    }
    forall j | 0 <= j <= |text| && Bytes(text[..j]) <= maxBytes ensures Bytes(text[..j]) <= n {
      if j <= k {
        PrefixIsShorter(text[..k], j);
        assert text[..k][..j] == text[..j];
      } else {
        NextFits(text, k, j);
      }
    }
  }

  lemma {:induction false} SingleBytes(s: string)
    requires forall i :: 0 <= i < |s| ==> (s[i] as int) < 0x80
    ensures Bytes(s) == |s|
  {
    if s != "" {
      SingleBytes(s[..|s| - 1]);
    }
  }

  /** With single bytes that is where names are cut. */
  lemma CutIsTruncation(s: string, n: nat)
    requires forall i :: 0 <= i < |s| ==> (s[i] as int) < 0x80
    requires exists k :: 0 <= k <= |s| && Bytes(s[..k]) == n
    requires n <= NAME_LIMIT / 2
    requires forall k :: 0 <= k <= |s| && Bytes(s[..k]) <= NAME_LIMIT / 2 ==> Bytes(s[..k]) <= n
    ensures n <= |s| && s[..n] == Cut(s)
  {
    forall k | 0 <= k <= |s| ensures Bytes(s[..k]) == k {
      SingleBytes(s[..k]);
    }
    var m := if |s| > NAME_LIMIT / 2 then NAME_LIMIT / 2 else |s|;
    assert Bytes(s[..m]) == m;
  }
}
