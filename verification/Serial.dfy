/** Certificate serial numbers: the sign bit, generation, and regeneration through Vault. */
module Serial {
  import opened Options
  import opened Hexadecimal

  // ----- hexadecimal text

  predicate AllHex(s: string) {
    forall i :: 0 <= i < |s| ==> IsHex(s[i])
  }

  /** The value of a text of hexadecimal digits. */
  function Value(s: string): nat
    requires AllHex(s)
  {
    if s == "" then 0 else Value(s[..|s| - 1]) * 16 + HexValue(s[|s| - 1])
  }

  function Pow16(n: nat): (r: nat)
    ensures r > 0
  {
    if n == 0 then 1 else 16 * Pow16(n - 1)
  }

  // ----- `int(text, 16)` on ASCII text: does it raise?

  predicate IsSpace(c: char) {
    c == ' ' || '\t' <= c <= '\r' || '\U{1C}' <= c <= '\U{1F}'
  }

  function SkipSpace(s: string): string {
    if s != "" && IsSpace(s[0]) then SkipSpace(s[1..]) else s
  }

  function DropSpace(s: string): string {
    if s != "" && IsSpace(s[|s| - 1]) then DropSpace(s[..|s| - 1]) else s
  }

  /** Digits with single underscores between them; `after` when a digit came just before. */
  predicate DigitGroups(s: string, after: bool) {
    if s == "" then after
    else if s[0] == '_' then after && |s| > 1 && s[1] != '_' && DigitGroups(s[1..], false)
    else IsHex(s[0]) && DigitGroups(s[1..], true)
  }

  /** An optional sign, an optional `0x` that an underscore may follow, and digit groups. */
  predicate ParsesBase16(s: string) {
    var t := DropSpace(SkipSpace(s));
    var u := if t != "" && (t[0] == '+' || t[0] == '-') then t[1..] else t;
    var v := if |u| >= 2 && u[0] == '0' && (u[1] == 'x' || u[1] == 'X') then u[2..] else u;
    var w := if v != u && v != "" && v[0] == '_' then v[1..] else v;
    DigitGroups(w, false)
  }

  // ----- `_is_valid_serial_number`

  function Upper(c: char): char {
    if 'a' <= c <= 'z' then (c as int - 32) as char else c
  }

  /** Without colons and spaces, in upper case. */
  function Clean(serial: string): string {
    if serial == "" then ""
    else if serial[0] == ':' || serial[0] == ' ' then Clean(serial[1..])
    else [Upper(serial[0])] + Clean(serial[1..])
  }

  predicate IsValidSerialNumber(serial: string) {
    var clean := Clean(serial);
    ParsesBase16(clean) && clean != "" && IsHex(clean[0]) && HexValue(clean[0]) < 8
  }

  /** The hexadecimal digits of a serial number as `Clean` leaves them. */
  predicate PlainHex(serial: string) {
    serial != "" && AllHex(Clean(serial)) && Clean(serial) != ""
  }

  // ----- the first digit and the top bit

  lemma {:induction false} ValueBounds(s: string)
    requires AllHex(s)
    ensures Value(s) < Pow16(|s|)
  {
    if s != "" { ValueBounds(s[..|s| - 1]); }
  }

  lemma Distribute(h: nat, p: nat, v: nat)
    ensures (h * p + v) * 16 == h * (16 * p) + v * 16
  {}

  lemma Below(h: nat, p: nat, v: nat)
    requires v < p
    ensures h < 8 <==> h * p + v < 8 * p
  {}

  lemma {:induction false} ValueFirst(s: string)
    requires s != "" && AllHex(s)
    ensures Value(s) == HexValue(s[0]) * Pow16(|s| - 1) + Value(s[1..])
  {
    var front, last := s[..|s| - 1], s[|s| - 1];
    if |s| == 1 {
      assert front == "" && s[1..] == "";
    } else {
      ValueFirst(front);
      var tail := s[1..];
      assert front[1..] == tail[..|tail| - 1] && tail[|tail| - 1] == last;
      assert Value(tail) == Value(front[1..]) * 16 + HexValue(last);
      Distribute(HexValue(s[0]), Pow16(|s| - 2), Value(front[1..]));
    }
  }

  /** The first digit is below 8 exactly when the value stays below half of what the digits can hold. */
  lemma {:induction false} FirstDigit(s: string)
    requires s != "" && AllHex(s)
    ensures HexValue(s[0]) < 8 <==> Value(s) < 8 * Pow16(|s| - 1)
  {
    ValueFirst(s);
    ValueBounds(s[1..]);
    Below(HexValue(s[0]), Pow16(|s| - 1), Value(s[1..]));
  }

  /** The number of bytes of the digits. */
  function ByteCount(digits: nat): nat {
    (digits + 1) / 2
  }

  /** The top bit of the value in whole bytes, the sign bit of a DER INTEGER (section 4.1.2.2 of RFC 5280). */
  predicate TopBitClear(s: string)
    requires s != "" && AllHex(s)
  {
    Value(s) < 8 * Pow16(2 * ByteCount(|s|) - 1)
  }

  /**
   * The first-digit test tells the top bit exactly when the digits fill whole bytes
   * or the first digit is below 8.
   */
  lemma TestIsTopBit(s: string)
    requires s != "" && AllHex(s)
    ensures ((HexValue(s[0]) < 8) == TopBitClear(s)) <==> (|s| % 2 == 0 || HexValue(s[0]) < 8)
  {
    FirstDigit(s);
    ValueBounds(s);
    if |s| % 2 == 0 {
      assert 2 * ByteCount(|s|) == |s|;
    } else {
      assert 2 * ByteCount(|s|) == |s| + 1;
      assert Value(s) < Pow16(|s|);
    }
  }

  // ----- plain hexadecimal serials pass or fail by their first digit

  lemma {:induction false} HexGroups(s: string, after: bool)
    requires AllHex(s) && (s != "" || after)
    ensures DigitGroups(s, after)
  {
    if s != "" {
      assert IsHex(s[0]);
      forall i | 0 <= i < |s[1..]| ensures IsHex(s[1..][i]) { assert s[1..][i] == s[i + 1]; }
      HexGroups(s[1..], true);
    }
  }

  lemma HexParses(s: string)
    requires s != "" && AllHex(s)
    ensures ParsesBase16(s)
  {
    assert IsHex(s[0]) && IsHex(s[|s| - 1]);
    assert SkipSpace(s) == s && DropSpace(s) == s;
    if |s| >= 2 { assert IsHex(s[1]); }
    HexGroups(s, false);
  }

  /** A serial of an even number of hexadecimal digits is valid exactly when its sign bit is clear. */
  lemma EvenSerialValid(serial: string)
    requires PlainHex(serial) && |Clean(serial)| % 2 == 0
    ensures IsValidSerialNumber(serial) <==> TopBitClear(Clean(serial))
  {
    HexParses(Clean(serial));
    TestIsTopBit(Clean(serial));
    assert IsHex(Clean(serial)[0]);
  }

  // ----- generated serials

  /** `f"{n:x}"` */
  function Hex(n: nat): string {
    if n < 16 then [HexDigit(n)] else Hex(n / 16) + [HexDigit(n % 16)]
  }

  function Zeros(k: nat): string {
    seq(k, _ => '0')
  }

  /** `f"{n:040x}"` */
  function Hex40(n: nat): string {
    var h := Hex(n);
    if |h| < 40 then Zeros(40 - |h|) + h else h
  }

  lemma {:induction false} HexBack(n: nat)
    ensures AllHex(Hex(n)) && Value(Hex(n)) == n
  {
    var h := Hex(n);
    if n < 16 {
      assert h[..0] == "";
    } else {
      HexBack(n / 16);
      assert h[..|h| - 1] == Hex(n / 16);
    }
  }

  lemma {:induction false} HexLength(n: nat, k: nat)
    requires n < Pow16(k) && k >= 1
    ensures 1 <= |Hex(n)| <= k
  {
    if n >= 16 {
      HexLength(n / 16, k - 1);
    }
  }

  lemma {:induction false} LeadingZeros(k: nat, h: string)
    requires AllHex(h)
    ensures AllHex(Zeros(k) + h) && Value(Zeros(k) + h) == Value(h)
    decreases k + |h|
  {
    var s := Zeros(k) + h;
    if h == "" {
      assert s == Zeros(k);
      if k > 0 {
        assert s[..|s| - 1] == Zeros(k - 1) + "";
        LeadingZeros(k - 1, "");
      }
    } else {
      LeadingZeros(k, h[..|h| - 1]);
      assert s[..|s| - 1] == Zeros(k) + h[..|h| - 1];
    }
  }

  /** The 40-digit form reads back as the number. */
  lemma Hex40Back(n: nat)
    requires n < Pow16(40)
    ensures |Hex40(n)| == 40 && AllHex(Hex40(n)) && Value(Hex40(n)) == n
  {
    HexLength(n, 40);
    HexBack(n);
    if |Hex(n)| < 40 { LeadingZeros(40 - |Hex(n)|, Hex(n)); }
  }

  /** 2^159 - 1 */
  function MaxValue(): nat {
    8 * Pow16(39) - 1
  }

  lemma {:induction false} Pow16Sum(a: nat, b: nat)
    ensures Pow16(a + b) == Pow16(a) * Pow16(b)
  {
    if a > 0 {
      Pow16Sum(a - 1, b);
      assert 16 * (Pow16(a - 1) * Pow16(b)) == 16 * Pow16(a - 1) * Pow16(b);
    }
  }

  lemma MaxValueInNumbers()
    ensures MaxValue() == 730750818665451459101842416358141509827966271487
  {
    assert Pow16(3) == 4096;
    Pow16Sum(3, 3);
    assert Pow16(6) == 16777216;
    Pow16Sum(6, 6);
    assert Pow16(12) == 281474976710656;
    Pow16Sum(12, 12);
    assert Pow16(24) == 79228162514264337593543950336;
    Pow16Sum(24, 12);
    Pow16Sum(36, 3);
  }

  /** `n & (2^159 - 1) | 1` */
  function MaskTopBit(n: nat): nat {
    var low := n % (8 * Pow16(39));
    if low % 2 == 0 then low + 1 else low
  }

  /** Below 2^159 the first of 40 digits is below 8. */
  lemma SafeFirstDigit(n: nat)
    requires n <= MaxValue()
    ensures |Hex40(n)| == 40 && AllHex(Hex40(n)) && HexValue(Hex40(n)[0]) < 8
  {
    assert Pow16(40) == 16 * Pow16(39);
    Hex40Back(n);
    FirstDigit(Hex40(n));
  }

  lemma {:induction false} CleanHex(s: string)
    requires AllHex(s)
    ensures |Clean(s)| == |s| && AllHex(Clean(s))
    ensures forall i :: 0 <= i < |s| ==> HexValue(Clean(s)[i]) == HexValue(s[i])
  {
    if s != "" {
      assert IsHex(s[0]);
      forall i | 0 <= i < |s[1..]| ensures IsHex(s[1..][i]) { assert s[1..][i] == s[i + 1]; }
      CleanHex(s[1..]);
      forall i | 0 <= i < |s| ensures IsHex(Clean(s)[i]) && HexValue(Clean(s)[i]) == HexValue(s[i]) {
        if i > 0 { assert s[i] == s[1..][i - 1]; }
      }
    }
  }

  lemma {:induction false} CleanConcat(a: string, b: string)
    ensures Clean(a + b) == Clean(a) + Clean(b)
  {
    if a == "" {
      assert a + b == b;
    } else {
      assert (a + b)[1..] == a[1..] + b;
      CleanConcat(a[1..], b);
    }
  }

  /** A colon or a space anywhere changes neither what a serial number holds nor whether it is valid. */
  lemma SeparatorsIgnored(before: string, c: char, after: string)
    requires c == ':' || c == ' '
    ensures Clean(before + [c] + after) == Clean(before + after)
    ensures IsValidSerialNumber(before + [c] + after) <==> IsValidSerialNumber(before + after)
  {
    CleanConcat(before + [c], after);
    CleanConcat(before, [c]);
    CleanConcat(before, after);
    assert [c][1..] == "";
    assert Clean(before) + [] == Clean(before);
  }

  lemma CleanDigit(s: string)
    requires s != "" && AllHex(s)
    ensures AllHex(s[..|s| - 1]) && AllHex(Clean(s[..|s| - 1])) && Clean(s) == Clean(s[..|s| - 1]) + [Upper(s[|s| - 1])]
  {
    var front, last := s[..|s| - 1], s[|s| - 1];
    assert s == front + [last] && IsHex(last);
    CleanConcat(front, [last]);
    assert [last][1..] == "";
    CleanHex(front);
  }

  /** Digits are not touched but for their case, so the value stays; spelled in any way, a serial keeps its value. */
  lemma {:induction false} CleanKeepsValue(s: string)
    requires AllHex(s)
    ensures AllHex(Clean(s)) && Value(Clean(s)) == Value(s)
    decreases |s|
  {
    CleanHex(s);
    if s != "" {
      var front := s[..|s| - 1];
      CleanDigit(s);
      CleanKeepsValue(front);
      assert Clean(s)[..|Clean(s)| - 1] == Clean(front);
    }
  }

  /** Hexadecimal text is valid exactly by its first digit. */
  lemma HexValid(s: string)
    requires s != "" && AllHex(s)
    ensures IsValidSerialNumber(s) <==> HexValue(s[0]) < 8
  {
    CleanHex(s);
    HexParses(Clean(s));
  }

  /**
   * `random` is what `secrets.randbelow(2^159 - 2)` gives. The serial is never masked,
   * its 40-digit form reads back to it and passes the check; 2^159 - 1 itself is never drawn.
   */
  method GenerateSafeSerialNumber(random: nat) returns (safe: nat)
    requires random < MaxValue() - 1
    ensures safe == random + 1 && 1 <= safe <= 730750818665451459101842416358141509827966271486
    ensures AllHex(Hex40(safe)) && |Hex40(safe)| == 40 && Value(Hex40(safe)) == safe
    ensures IsValidSerialNumber(Hex40(safe)) && TopBitClear(Hex40(safe))
  {
    MaxValueInNumbers();
    safe := random + 1;
    var hex := Hex40(safe);
    if FirstDigitHigh(hex) {
      safe := MaskTopBit(safe);
    }
    SafeFirstDigit(random + 1);
    assert Pow16(40) == 16 * Pow16(39);
    Hex40Back(random + 1);
    HexValid(hex);
    TestIsTopBit(hex);
  }

  predicate FirstDigitHigh(hex: string) {
    hex != "" && IsHex(hex[0]) && HexValue(hex[0]) >= 8
  }

  /** The unpadded form is judged by its sign bit exactly when its digits fill bytes or the first is below 8. */
  lemma UnpaddedSerial(n: nat)
    ensures AllHex(Hex(n)) && Hex(n) != ""
    ensures (IsValidSerialNumber(Hex(n)) == TopBitClear(Hex(n))) <==> (|Hex(n)| % 2 == 0 || HexValue(Hex(n)[0]) < 8)
  {
    HexBack(n);
    HexValid(Hex(n));
    TestIsTopBit(Hex(n));
  }

  /** The serial 8 is fine for DER, generated in the safe range, and refused in its unpadded form. */
  lemma UnpaddedEightRefused()
    ensures 1 <= 8 < MaxValue() && AllHex(Hex(8)) && TopBitClear(Hex(8)) && !IsValidSerialNumber(Hex(8))
  {}

  // ----- regeneration

  /** What Vault makes of one request: an exception or unusable answer, or a certificate with this serial. */
  datatype Issue = Fails | Issued(serial: string)

  datatype Result = Nothing | Certificate(serial: string) | RaisesLast

  predicate Accepted(x: Issue) {
    x.Issued? && IsValidSerialNumber(x.serial)
  }

  /** The first acceptable certificate, or whatever the last attempt gave; `used` counts the requests. */
  method GenerateWithRetry(vault: nat -> Issue, maxRetries: int) returns (result: Result, used: nat)
    ensures maxRetries < 0 ==> result == Nothing && used == 0
    ensures maxRetries >= 0 ==> 1 <= used <= maxRetries + 1
    ensures maxRetries >= 0 ==> result == match vault(used - 1) case Fails => RaisesLast case Issued(serial) => Certificate(serial)
    ensures forall k :: 0 <= k < used - 1 ==> !Accepted(vault(k))
    ensures maxRetries >= 0 && !Accepted(vault(used - 1)) ==> used == maxRetries + 1
  {
    used := 0;
    for attempt := 0 to (if maxRetries < 0 then 0 else maxRetries + 1)
      invariant used == attempt
      invariant forall k :: 0 <= k < used ==> !Accepted(vault(k))
      invariant maxRetries >= 0 ==> attempt <= maxRetries
    {
      var x := vault(attempt);
      used := used + 1;
      match x {
        case Fails =>
          if attempt >= maxRetries { return RaisesLast, used; }
        case Issued(serial) =>
          if IsValidSerialNumber(serial) { return Certificate(serial), used; }
          if attempt >= maxRetries { return Certificate(serial), used; }
      }
    }
    return Nothing, used;
  }
}
