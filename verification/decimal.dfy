/** Decimal text of the persisted read offset, as strconv and strings write and read it. */
module Decimal {
  import opened Options
  import opened Arithmetic

  const INT64_LIMIT: nat := 0x8000_0000_0000_0000

  predicate IsDigit(c: char) { '0' <= c <= '9' }

  predicate IsSpace(c: char) {
    c == ' ' || c == '\t' || c == '\n' || c == '\r' || c == 11 as char || c == 12 as char
  }

  function Digit(d: nat): (c: char)
    requires d < 10
    ensures IsDigit(c) && c as int - '0' as int == d
  {
    ('0' as int + d) as char
  }

  function FormatNat(n: nat): (s: string)
    ensures s != [] && forall i :: 0 <= i < |s| ==> IsDigit(s[i])
  {
    if n < 10 then [Digit(n)] else FormatNat(n / 10) + [Digit(n % 10)]
  }

  function FormatInt(n: int): string {
    if n < 0 then "-" + FormatNat(-n) else FormatNat(n)
  }

  function ParseDigits(s: string): Option<nat> {
    if s == [] then Some(0)
    else if !IsDigit(s[|s| - 1]) then None
    else match ParseDigits(s[..|s| - 1])
      case None => None
      case Some(high) => Some(10 * high + (s[|s| - 1] as int - '0' as int))
  }

  function TrimLeft(s: string): string {
    if s != [] && IsSpace(s[0]) then TrimLeft(s[1..]) else s
  }

  function TrimRight(s: string): string {
    if s != [] && IsSpace(s[|s| - 1]) then TrimRight(s[..|s| - 1]) else s
  }

  /** An optional sign, then at least one digit; out-of-range values are errors. */
  function ParseInt(s: string): (r: Option<int>) {
    var negative := s != [] && s[0] == '-';
    var digits := if s != [] && (s[0] == '-' || s[0] == '+') then s[1..] else s;
    if digits == [] then None
    else match ParseDigits(digits)
      case None => None
      case Some(m) =>
        var n: int := m;
        if negative then (if n <= INT64_LIMIT then Some(-n) else None)
        else if n < INT64_LIMIT then Some(n) else None
  }

  /** dqLoadOffset: a missing or unreadable offset counts as zero. */
  function LoadOffset(contents: Option<string>): int {
    match contents
    case None => 0
    case Some(text) =>
      match ParseInt(TrimLeft(TrimRight(text)))
      case None => 0
      case Some(n) => n
  }

  lemma {:induction false} ParseFormatted(n: nat)
    ensures ParseDigits(FormatNat(n)) == Some(n)
  {
    if n >= 10 {
      ParseFormatted(n / 10);
      var s := FormatNat(n);
      assert s[..|s| - 1] == FormatNat(n / 10);
    } else {
      var s := FormatNat(n);
      assert s[..0] == [];
    }
  }

  /** A persisted offset is loaded back as written. */
  lemma LoadPersisted(n: nat)
    requires n < INT64_LIMIT
    ensures LoadOffset(Some(FormatInt(n))) == n
  {
    ParseFormatted(n);
    LoadDigits(FormatNat(n), n);
  }

  /** Digits are loaded as the number they stand for, and no text at all as zero. */
  lemma LoadDigits(s: string, m: nat)
    requires (forall i :: 0 <= i < |s| ==> IsDigit(s[i])) && ParseDigits(s) == Some(m) && m < INT64_LIMIT
    ensures LoadOffset(Some(s)) == m
  {
    if s != [] {
      hide ParseDigits;
      assert IsDigit(s[0]) && IsDigit(s[|s| - 1]);
      assert TrimRight(s) == s && TrimLeft(s) == s;
      hide TrimLeft, TrimRight, IsSpace;
      assert ParseInt(s) == Some(m);
    }
  }

  /** No offset file, as on the first start of a queue, counts as offset zero. */
  lemma MissingIsZero()
    ensures LoadOffset(None) == 0 && LoadOffset(Some("")) == 0
  {
    assert TrimLeft(TrimRight("")) == "";
  }

  /** A number of either sign is loaded if it fits 64 bits, and counts as zero otherwise. */
  lemma OutOfRange(m: int)
    ensures LoadOffset(Some(FormatInt(m))) == if -0x8000_0000_0000_0000 <= m < 0x8000_0000_0000_0000 then m else 0
  {
    var n: nat := if m < 0 then -m else m;
    ParseFormatted(n);
    var s := FormatNat(n);
    hide FormatNat, ParseDigits;
    DigitsOnly(s);
    SignedTrims(s);
    assert ("-" + s)[1..] == s;
  }

  lemma DigitsOnly(s: string)
    requires s != [] && forall i :: 0 <= i < |s| ==> IsDigit(s[i])
    ensures TrimLeft(TrimRight(s)) == s && !IsSpace(s[0]) && !IsSpace(s[|s| - 1]) && s[0] != '-' && s[0] != '+'
  {
    assert IsDigit(s[0]) && IsDigit(s[|s| - 1]);
  }

  lemma SignedTrims(s: string)
    requires s != [] && forall i :: 0 <= i < |s| ==> IsDigit(s[i])
    ensures TrimLeft(TrimRight("-" + s)) == "-" + s
  {
    var t := "-" + s;
    assert t[|t| - 1] == s[|s| - 1] && IsDigit(s[|s| - 1]);
  }

  /** White space around the number, such as a final newline, is ignored. */
  lemma SpacesIgnored(n: nat, c: char, d: char)
    requires n < INT64_LIMIT && IsSpace(c) && IsSpace(d)
    ensures LoadOffset(Some([c] + FormatInt(n) + [d])) == n
  {
    var s := FormatNat(n);
    var text := [c] + s + [d];
    assert text[..|text| - 1] == [c] + s && ([c] + s)[1..] == s;
    LoadPersisted(n);
    hide FormatNat, ParseInt;
    DigitsOnly(s);
    assert TrimRight([c] + s) == [c] + s;
    assert TrimRight(text) == [c] + s;
    assert TrimLeft(s) == s by { assert !IsSpace(s[0]); }
    assert TrimLeft([c] + s) == s;
  }

  predicate Foreign(c: char) {
    !IsDigit(c) && !IsSpace(c) && c != '-' && c != '+'
  }

  lemma {:induction false} ForeignDigits(s: string, i: nat)
    requires i < |s| && !IsDigit(s[i])
    ensures ParseDigits(s).None?
  {
    if i < |s| - 1 {
      ForeignDigits(s[..|s| - 1], i);
    }
  }

  lemma {:induction false} TrimKeepsLeft(s: string, i: nat) returns (j: nat)
    requires i < |s| && Foreign(s[i])
    ensures j < |TrimLeft(s)| && Foreign(TrimLeft(s)[j])
  {
    if IsSpace(s[0]) {
      j := TrimKeepsLeft(s[1..], i - 1);
    } else {
      j := i;
    }
  }

  lemma {:induction false} TrimKeepsRight(s: string, i: nat) returns (j: nat)
    requires i < |s| && Foreign(s[i])
    ensures j < |TrimRight(s)| && Foreign(TrimRight(s)[j])
  {
    if IsSpace(s[|s| - 1]) {
      j := TrimKeepsRight(s[..|s| - 1], i);
    } else {
      j := i;
    }
  }

  /** Text with any character that is neither digit, sign nor space is unreadable and counts as zero. */
  lemma UnreadableIsZero(text: string, i: nat)
    requires i < |text| && Foreign(text[i])
    ensures LoadOffset(Some(text)) == 0
  {
    var k := TrimKeepsRight(text, i);
    var j := TrimKeepsLeft(TrimRight(text), k);
    var s := TrimLeft(TrimRight(text));
    hide TrimLeft, TrimRight, ParseDigits;
    ForeignDigits(s, j);
    if j > 0 {
      ForeignDigits(s[1..], j - 1);
    }
  }

  // ---- A torn offset file ------------------------------------------------------------------------

  function Pow10(n: nat): (p: nat)
    ensures p > 0
  {
    if n == 0 then 1 else 10 * Pow10(n - 1)
  }

  lemma {:induction false} ParsePrefix(n: nat, k: nat)
    requires k <= |FormatNat(n)|
    ensures ParseDigits(FormatNat(n)[..k]) == Some(n / Pow10(|FormatNat(n)| - k))
  {
    var s := FormatNat(n);
    if k == |s| {
      ParseFormatted(n);
      assert s[..k] == s;
    } else if n >= 10 {
      ParsePrefix(n / 10, k);
      assert s[..k] == FormatNat(n / 10)[..k];
      DivTwice(n, 10, Pow10(|s| - 1 - k));
    } else {
      assert s[..k] == [];
      assert Pow10(1) == 10;
    }
  }

  /**
   * The offset file is rewritten in place, so a crash may leave any prefix of its text. What is loaded
   * then is the offset without its last digits: never too large.
   */
  lemma LoadTorn(n: nat, k: nat)
    requires n < INT64_LIMIT && k <= |FormatInt(n)|
    ensures LoadOffset(Some(FormatInt(n)[..k])) == n / Pow10(|FormatInt(n)| - k) <= n
  {
    hide ParseDigits, FormatNat, LoadOffset;
    ParsePrefix(n, k);
    var s, m := FormatNat(n)[..k], n / Pow10(|FormatNat(n)| - k);
    DivSmaller(n, Pow10(|FormatNat(n)| - k));
    LoadDigits(s, m);
  }
}
