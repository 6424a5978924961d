/**
 * C text: decimal printing and `atoi`, `strcmp`, and the formats the protocol checks.
 * A byte is a `char`; nothing below depends on how many different bytes there are.
 */
module CText {

  predicate IsDigit(c: char) {
    '0' <= c <= '9'
  }

  predicate AllDigits(s: string) {
    forall i :: 0 <= i < |s| ==> IsDigit(s[i])
  }

  /** The bytes at which `get_word` and `get_word_fd` stop. */
  predicate IsDelim(c: char) {
    c == ' ' || c == '\0' || c == '\n'
  }

  predicate NoDelim(s: string) {
    forall i :: 0 <= i < |s| ==> !IsDelim(s[i])
  }

  predicate NulFree(s: string) {
    forall i :: 0 <= i < |s| ==> s[i] != '\0'
  }

  /** What a C reader of a buffer sees: the bytes before the first NUL. */
  function CString(s: string): (r: string) {
    if s == [] || s[0] == '\0' then [] else [s[0]] + CString(s[1..])
  }

  lemma {:induction false} CStringPrefix(w: string, t: string)
    requires NulFree(w)
    ensures CString(w + ['\0'] + t) == w
    ensures CString(w) == w
  {
    if w != [] {
      CStringPrefix(w[1..], t);
      assert (w + ['\0'] + t)[1..] == w[1..] + ['\0'] + t;
    }
  }

  lemma Assoc(a: string, b: string, c: string)
    ensures a + b + c == a + (b + c)
  {
  }

  lemma Flatten(a: string, b: string, c: string, d: string, e: string, f: string)
    ensures a + b + c + d + e + f == a + (b + (c + (d + (e + f))))
  {
    Assoc(a + b + c + d, e, f);
    Assoc(a + b + c, d, e + f);
    Assoc(a + b, c, d + (e + f));
    Assoc(a, b, c + (d + (e + f)));
  }

  // ---- numbers ----

  function DigitChar(d: nat): char
    requires d < 10
  {
    ('0' as int + d) as char
  }

  function DigitValue(c: char): nat
    requires IsDigit(c)
  {
    c as int - '0' as int
  }

  function Value(s: string): nat
    requires AllDigits(s)
  {
    if s == [] then 0 else 10 * Value(s[..|s| - 1]) + DigitValue(s[|s| - 1])
  }

  /** `%d` and `%ld` are `Dec(1, n)`; `%02d` and `%04ld` are `Dec(2, n)` and `Dec(4, n)`. */
  function Dec(width: nat, n: nat): (s: string)
    ensures |s| >= 1 && |s| >= width
    ensures AllDigits(s) && Value(s) == n
    decreases width + n
  {
    if width <= 1 && n < 10 then [DigitChar(n)]
    else
      var high := Dec(if width > 1 then width - 1 else width, n / 10);
      var s := high + [DigitChar(n % 10)];
      assert s[..|s| - 1] == high;
      s
  }

  function Pow10(k: nat): nat {
    if k == 0 then 1 else 10 * Pow10(k - 1)
  }

  /** A number below 10^k takes at most k digits (exactly k when printed with width k). */
  lemma {:induction false} DecLength(width: nat, n: nat, k: nat)
    requires 1 <= k && width <= k && n < Pow10(k)
    ensures |Dec(width, n)| <= k
    decreases k
  {
    if k == 1 {
      assert Pow10(1) == 10 * Pow10(0);
    } else if !(width <= 1 && n < 10) {
      DecLength(if width > 1 then width - 1 else width, n / 10, k - 1);
    }
  }

  lemma DecWord(width: nat, n: nat)
    ensures NoDelim(Dec(width, n)) && Dec(width, n) != []
  {
    assert AllDigits(Dec(width, n));
  }

  /** Only its own digits print as they are. */
  lemma {:induction false} DecOfValue(width: nat, s: string)
    requires AllDigits(s) && |s| == width && width >= 1
    ensures Dec(width, Value(s)) == s
    decreases width
  {
    var high, last := s[..|s| - 1], s[|s| - 1];
    assert s == high + [last];
    if width == 1 {
      assert Value(high) == 0;
    } else {
      DecOfValue(width - 1, high);
      assert Value(s) / 10 == Value(high) && Value(s) % 10 == DigitValue(last);
    }
  }

  predicate IsSpace(c: char) {
    c == ' ' || '\t' <= c <= '\r'
  }

  function DigitPrefix(s: string): (r: string)
    ensures AllDigits(r)
    ensures AllDigits(s) ==> r == s
  {
    if s == [] || !IsDigit(s[0]) then [] else [s[0]] + DigitPrefix(s[1..])
  }

  lemma {:induction false} ValueBound(s: string)
    requires AllDigits(s)
    ensures Value(s) < Pow10(|s|)
  {
    if s != [] {
      ValueBound(s[..|s| - 1]);
    }
  }

  /** C's `atoi`, without its overflow: white space, an optional sign, then digits. */
  function Atoi(s: string): int {
    if s == [] then 0
    else if IsSpace(s[0]) then Atoi(s[1..])
    else if s[0] == '-' then 0 - Value(DigitPrefix(s[1..]))
    else if s[0] == '+' then Value(DigitPrefix(s[1..]))
    else Value(DigitPrefix(s))
  }

  /** `atoi` undoes every decimal the two programs print. */
  lemma AtoiDec(width: nat, n: nat)
    ensures Atoi(Dec(width, n)) == n
  {
    var s := Dec(width, n);
    assert IsDigit(s[0]);
    assert DigitPrefix(s) == s;
  }

  // ---- strcmp ----

  function Strcmp(a: string, b: string): int {
    if a == [] then (if b == [] then 0 else -1)
    else if b == [] then 1
    else if a[0] != b[0] then a[0] as int - b[0] as int
    else Strcmp(a[1..], b[1..])
  }

  /** What an ordering argument of `sll_append_ord` has to be for the list to end up ordered. */
  ghost predicate TotalOrder(ord: (string, string) -> int) {
    && (forall a, b :: ord(a, b) > 0 ==> ord(b, a) <= 0)
    && (forall a, b, c :: ord(a, b) <= 0 && ord(b, c) <= 0 ==> ord(a, c) <= 0)
  }

  lemma {:induction false} StrcmpAntisymmetric(a: string, b: string)
    ensures Strcmp(a, b) == 0 <==> a == b
    ensures Strcmp(a, b) > 0 <==> Strcmp(b, a) < 0
  {
    if a != [] && b != [] && a[0] == b[0] {
      StrcmpAntisymmetric(a[1..], b[1..]);
      assert a == [a[0]] + a[1..] && b == [b[0]] + b[1..];
    }
  }

  lemma {:induction false} StrcmpTransitive(a: string, b: string, c: string)
    requires Strcmp(a, b) <= 0 && Strcmp(b, c) <= 0
    ensures Strcmp(a, c) <= 0
  {
    if a != [] && b != [] && c != [] && a[0] == b[0] == c[0] {
      StrcmpTransitive(a[1..], b[1..], c[1..]);
    }
  }

  lemma StrcmpTotalOrder()
    ensures TotalOrder(Strcmp)
  {
    forall a, b ensures Strcmp(a, b) > 0 ==> Strcmp(b, a) <= 0 {
      StrcmpAntisymmetric(a, b);
    }
    forall a, b, c | Strcmp(a, b) <= 0 && Strcmp(b, c) <= 0 ensures Strcmp(a, c) <= 0 {
      StrcmpTransitive(a, b, c);
    }
  }

  lemma {:induction false} StrcmpSnoc(s: string, t: string, c: char, d: char)
    requires |s| == |t|
    ensures Strcmp(s + [c], t + [d])
         == if Strcmp(s, t) != 0 then Strcmp(s, t) else c as int - d as int
  {
    if s != [] && s[0] == t[0] {
      StrcmpSnoc(s[1..], t[1..], c, d);
      assert (s + [c])[1..] == s[1..] + [c] && (t + [d])[1..] == t[1..] + [d];
    }
  }

  /** On digit strings of one length, the order of `strcmp` is the order of the numbers. */
  lemma {:induction false} StrcmpNumeric(s: string, t: string)
    requires |s| == |t| && AllDigits(s) && AllDigits(t)
    ensures Strcmp(s, t) < 0 <==> Value(s) < Value(t)
    ensures Strcmp(s, t) == 0 <==> Value(s) == Value(t)
  {
    if s != [] {
      var s0, t0 := s[..|s| - 1], t[..|t| - 1];
      StrcmpNumeric(s0, t0);
      StrcmpSnoc(s0, t0, s[|s| - 1], t[|t| - 1]);
      assert s == s0 + [s[|s| - 1]] && t == t0 + [t[|t| - 1]];
    }
  }

  /** Ids printed with `%04ld` (1..9999) or `%02d` (1..99) sort as numbers under `strcmp`. */
  lemma DecOrder(width: nat, a: nat, b: nat)
    requires 1 <= width && a < Pow10(width) && b < Pow10(width)
    ensures Strcmp(Dec(width, a), Dec(width, b)) < 0 <==> a < b
    ensures |Dec(width, a)| == width
  {
    DecLength(width, a, width);
    DecLength(width, b, width);
    StrcmpNumeric(Dec(width, a), Dec(width, b));
  }

  /** Past four digits the order breaks: the next id after 9999 sorts before it. */
  lemma DecOrderBreaks()
    ensures Strcmp(Dec(4, 10000), Dec(4, 9999)) < 0
  {
    DecSnoc(4, 9999); DecSnoc(3, 999); DecSnoc(2, 99);
    assert Dec(4, 9999)[0] == '9';
    DecSnoc(4, 10000); DecSnoc(3, 1000); DecSnoc(2, 100); DecSnoc(1, 10);
    assert Dec(4, 10000)[0] == '1';
  }

  lemma DecSnoc(width: nat, n: nat)
    requires width > 1 || n >= 10
    ensures Dec(width, n)[0] == Dec(if width > 1 then width - 1 else width, n / 10)[0]
  {
  }

  // ---- formats checked by both programs ----

  predicate IsAlnum(c: char) {
    IsDigit(c) || 'a' <= c <= 'z' || 'A' <= c <= 'Z'
  }

  predicate ValidUid(s: string) {
    |s| == 5 && AllDigits(s)
  }

  predicate ValidPass(s: string) {
    |s| == 8 && forall i :: 0 <= i < |s| ==> IsAlnum(s[i])
  }

  predicate ValidGid(s: string) {
    |s| == 2 && AllDigits(s)
  }

  predicate ValidGname(s: string) {
    |s| < 24 && forall i :: 0 <= i < |s| ==> IsAlnum(s[i]) || s[i] == '-' || s[i] == '_'
  }
}
