/**
 The text-level building blocks the machine relies on: the few Python string and
 integer built-ins it calls (`str`, `int`, `zfill`, slicing, `strip`, `split`),
 restricted to ASCII, and the five-character word format `+4300` of a memory cell.
 */
module Words {

  datatype Option<+T> = None | Some(value: T)

  /** 10^k */
  function Pow10(k: nat): (p: nat)
    ensures p >= 1
  {
    if k == 0 then 1 else 10 * Pow10(k - 1)
  }

  // ---------------------------------------------------------------- digits

  predicate IsDigit(c: char) { '0' <= c <= '9' }

  predicate AllDigits(s: string) { forall i :: 0 <= i < |s| ==> IsDigit(s[i]) }

  function DigitValue(c: char): (d: nat)
    requires IsDigit(c)
    ensures d < 10
  {
    c as int - '0' as int
  }

  function DigitChar(d: nat): (c: char)
    requires d < 10
    ensures IsDigit(c) && DigitValue(c) == d
  {
    ('0' as int + d) as char
  }

  /** The number a run of decimal digits spells, most significant digit first. */
  function DigitsValue(s: string): nat
    requires AllDigits(s)
  {
    if s == [] then 0 else 10 * DigitsValue(s[..|s| - 1]) + DigitValue(s[|s| - 1])
  }

  /** A run of `n` zero digits. */
  function Zeros(n: nat): (z: string)
    ensures |z| == n && AllDigits(z)
  {
    seq(n, _ => '0')
  }

  /** Python's `str(n)` for `n >= 0`: decimal digits without leading zeros. */
  function Digits(n: nat): (s: string)
    ensures 1 <= |s| && AllDigits(s)
  {
    if n < 10 then [DigitChar(n)] else Digits(n / 10) + [DigitChar(n % 10)]
  }

  /** Python's `str(x)` for an integer. */
  function Str(x: int): string
  {
    if x < 0 then "-" + Digits(-x) else Digits(x)
  }

  /**
   Python's `int(s)` on ASCII text: an optional `+` or `-` followed by one or more
   digits; anything else is the `ValueError` case, `None`.
   */
  function ParseInt(s: string): (r: Option<int>)
    ensures r.Some? && |s| > 0 && s[0] == '-' ==> r.value <= 0
    ensures r.Some? && (|s| == 0 || s[0] != '-') ==> r.value >= 0
  {
    if |s| > 0 && (s[0] == '+' || s[0] == '-') then
      if |s| > 1 && AllDigits(s[1..]) then
        var v: int := DigitsValue(s[1..]);
        Some(if s[0] == '-' then -v else v)
      else None
    else if |s| > 0 && AllDigits(s) then Some(DigitsValue(s))
    else None
  }

  /** A plain run of digits is read as its value. */
  lemma ParseDigitRun(s: string)
    requires |s| > 0 && AllDigits(s)
    ensures ParseInt(s) == Some(DigitsValue(s))
  {
    assert IsDigit(s[0]);
  }

  // ---------------------------------------------------- Python string helpers

  /** Python's `s[i:j]` for non-negative bounds: out-of-range bounds are clamped. */
  function Slice(s: string, i: nat, j: nat): (r: string)
    ensures |r| <= |s|
    ensures i <= j <= |s| ==> r == s[i..j]
  {
    if i >= |s| || j <= i then "" else s[i..if j < |s| then j else |s|]
  }

  /** Python's `s[-k:]`: the last `k` characters, or all of `s` when it is shorter. */
  function Last(s: string, k: nat): (r: string)
    ensures |r| == if |s| < k then |s| else k
    ensures forall i :: 0 <= i < |r| ==> r[i] == s[|s| - |r| + i]
  {
    if |s| <= k then s else s[|s| - k..]
  }

  /**
   Python's `s.zfill(w)`: left-pads with zeros to width `w`, keeping a leading
   sign in front of the zeros; a string already `w` long or longer is unchanged.
   */
  function ZFill(s: string, w: nat): (r: string)
    ensures |r| == if |s| < w then w else |s|
    ensures |s| >= w ==> r == s
  {
    if |s| >= w then s
    else if |s| > 0 && (s[0] == '+' || s[0] == '-') then [s[0]] + Zeros(w - |s|) + s[1..]
    else Zeros(w - |s|) + s
  }

  /** The ASCII characters Python's `str.strip()` removes. */
  predicate IsSpace(c: char)
  {
    c == ' ' || c == '\t' || c == '\n' || c == '\r' || c == '\U{B}' || c == '\U{C}'
    || ('\U{1C}' <= c <= '\U{1F}')
  }

  function TrimStart(s: string): (r: string)
    ensures |r| <= |s| && r == s[|s| - |r|..]
    ensures |r| > 0 ==> !IsSpace(r[0])
  {
    if |s| > 0 && IsSpace(s[0]) then TrimStart(s[1..]) else s
  }

  function TrimEnd(s: string): (r: string)
    ensures |r| <= |s| && r == s[..|r|]
    ensures |r| > 0 ==> !IsSpace(r[|r| - 1])
  {
    if |s| > 0 && IsSpace(s[|s| - 1]) then TrimEnd(s[..|s| - 1]) else s
  }

  /** Python's `s.strip()`. */
  function Strip(s: string): (r: string)
    ensures |r| <= |s|
    ensures |r| > 0 ==> !IsSpace(r[0]) && !IsSpace(r[|r| - 1])
  {
    TrimEnd(TrimStart(s))
  }

  /** A string with no whitespace at either end is its own strip, also with a line feed after it. */
  lemma StripUnpadded(s: string)
    requires |s| > 0 && !IsSpace(s[0]) && !IsSpace(s[|s| - 1])
    ensures Strip(s) == s
    ensures Strip(s + "\n") == s
  {
    var t := s + "\n";
    assert TrimStart(s) == s;
    assert TrimEnd(s) == s;
    assert t[0] == s[0];
    assert TrimStart(t) == t;
    assert t[|t| - 1] == '\n';
    assert t[..|t| - 1] == s;
    assert TrimEnd(t) == TrimEnd(s);
  }

  /** Python's `s.split("\n")`: the pieces between line feeds, at least one. */
  function SplitLines(s: string): (r: seq<string>)
    ensures |r| >= 1
    ensures forall k :: 0 <= k < |r| ==> '\n' !in r[k]
  {
    if '\n' !in s then [s]
    else
      var i := FirstLineFeed(s);
      [s[..i]] + SplitLines(s[i + 1..])
  }

  /** Index of the first line feed in `s`. */
  function FirstLineFeed(s: string): (i: nat)
    requires '\n' in s
    ensures i < |s| && s[i] == '\n' && '\n' !in s[..i]
  {
    if s[0] == '\n' then 0
    else
      var j := FirstLineFeed(s[1..]);
      assert s[1..][..j] == s[1..j + 1];
      assert s[..j + 1] == [s[0]] + s[1..j + 1];
      j + 1
  }

  /** Python's `"\n".join(parts)`. */
  function JoinLines(parts: seq<string>): string
    requires |parts| >= 1
  {
    if |parts| == 1 then parts[0] else parts[0] + "\n" + JoinLines(parts[1..])
  }

  /** Splitting at line feeds and joining the pieces back gives the text again. */
  lemma {:induction false} JoinSplitLines(s: string)
    ensures JoinLines(SplitLines(s)) == s
    decreases |s|
  {
    if '\n' in s {
      var i := FirstLineFeed(s);
      var rest := SplitLines(s[i + 1..]);
      var parts := [s[..i]] + rest;
      assert SplitLines(s) == parts;
      assert parts[1..] == rest;
      assert JoinLines(parts) == s[..i] + "\n" + JoinLines(rest);
      JoinSplitLines(s[i + 1..]);
      assert s == s[..i] + "\n" + s[i + 1..];
    }
  }

  // ------------------------------------------------------- the word format

  /**
   The word format the loader accepts: exactly five characters, a `+` or `-` sign
   and four digits (`vm.py:163`).
   */
  predicate IsWord(code: string)
  {
    |code| == WordLength && (code[0] == '+' || code[0] == '-') && AllDigits(code[1..])
  }

  /** The opcode field of a word: characters 1 and 2, `code[1:3]`. */
  function Opcode(code: string): (op: string)
    ensures |code| >= 3 ==> op == code[1..3]
  {
    Slice(code, 1, 3)
  }

  /** A word is a sign and `DigitCount` digits, `WordLength` characters in all. */
  const DigitCount: nat := 4
  const WordLength: nat := 5

  const HaltOpcode: string := "43"
  const BlankWord: string := "+0000"

  /**
   How `store_op` writes the accumulator into a cell: `str(acc).zfill(5)` when it
   is negative, otherwise `"+"` followed by `str(acc).zfill(4)` (`vm.py:38-41`).
   */
  function StoreWord(acc: int): string
  {
    if acc < 0 then ZFill(Str(acc), WordLength) else "+" + ZFill(Str(acc), DigitCount)
  }

  // ---------------------------------------------------------------- lemmas

  lemma {:induction false} DigitsValueZeros(n: nat)
    ensures DigitsValue(Zeros(n)) == 0
  {
    if n > 0 {
      assert Zeros(n)[..n - 1] == Zeros(n - 1);
      DigitsValueZeros(n - 1);
    }
  }

  /** Leading zeros do not change the value of a digit run. */
  lemma {:induction false} DigitsValueLeadingZeros(n: nat, s: string)
    requires AllDigits(s)
    ensures DigitsValue(Zeros(n) + s) == DigitsValue(s)
    decreases |s|
  {
    if s == [] {
      assert Zeros(n) + s == Zeros(n);
      DigitsValueZeros(n);
    } else {
      var t := Zeros(n) + s;
      assert t[..|t| - 1] == Zeros(n) + s[..|s| - 1];
      DigitsValueLeadingZeros(n, s[..|s| - 1]);
    }
  }

  /** `int(str(n)) == n`, at the level of the digit run. */
  lemma {:induction false} DigitsValueOfDigits(n: nat)
    ensures DigitsValue(Digits(n)) == n
  {
    if n >= 10 {
      var s := Digits(n);
      assert s[..|s| - 1] == Digits(n / 10);
      DigitsValueOfDigits(n / 10);
    }
  }

  /** A number below 10^k needs at most `k` digits, and one of at least 10^k more. */
  lemma {:induction false} DigitsLength(n: nat, k: nat)
    ensures n < Pow10(k) ==> |Digits(n)| <= k || (n == 0 && k == 0)
    ensures n >= Pow10(k) ==> |Digits(n)| > k
  {
    if k > 0 && n >= 10 {
      DigitsLength(n / 10, k - 1);
    }
  }

  lemma MulAtLeast(d: int, x: int)
    requires d > 0 && x >= 1
    ensures d * x >= d
  {
    assert d * x == d * (x - 1) + d;
  }

  /** Quotient and remainder are the only pair with `n == d * a + b` and `0 <= b < d`. */
  lemma ModUnique(n: int, d: int, a: int, b: int)
    requires d > 0 && 0 <= b < d && n == d * a + b
    ensures n % d == b && n / d == a
  {
    var q, r := n / d, n % d;
    assert d * a - d * q == r - b;
    assert d * (a - q) == r - b;
    if a > q {
      MulAtLeast(d, a - q);
    } else if a < q {
      MulAtLeast(d, q - a);
    }
  }

  lemma ModStep(n: nat, p: nat)
    requires p > 0
    ensures n % (10 * p) == 10 * ((n / 10) % p) + n % 10
  {
    var q, r := n / 10, n % 10;
    var a, b := q / p, q % p;
    assert n == 10 * q + r;
    assert q == p * a + b;
    assert 10 * q == (10 * p) * a + 10 * b;
    assert 0 <= 10 * b + r < 10 * p;
    ModUnique(n, 10 * p, a, 10 * b + r);
  }

  /** The last `k` digits of `str(n)` spell `n % 10^k`. */
  lemma {:induction false} DigitsSuffixValue(n: nat, k: nat)
    requires k <= |Digits(n)|
    ensures AllDigits(Digits(n)[|Digits(n)| - k..])
    ensures DigitsValue(Digits(n)[|Digits(n)| - k..]) == n % Pow10(k)
  {
    var s := Digits(n);
    var t := s[|s| - k..];
    SuffixDigits(s, k);
    if k == 0 {
      assert t == [];
    } else if n < 10 {
      assert t == [DigitChar(n)];
      assert t[..0] == [];
    } else {
      DigitsSuffixValue(n / 10, k - 1);
      DigitsSuffixStep(n, k);
    }
  }

  /** The step of `DigitsSuffixValue`: from the last `k - 1` digits of `n / 10` to the last `k` of `n`. */
  lemma DigitsSuffixStep(n: nat, k: nat)
    requires n >= 10 && 1 <= k <= |Digits(n)|
    requires var h := Digits(n / 10);
      AllDigits(h[|h| - (k - 1)..]) && DigitsValue(h[|h| - (k - 1)..]) == (n / 10) % Pow10(k - 1)
    ensures AllDigits(Digits(n)[|Digits(n)| - k..])
    ensures DigitsValue(Digits(n)[|Digits(n)| - k..]) == n % Pow10(k)
  {
    var s := Digits(n);
    var t := s[|s| - k..];
    var h := Digits(n / 10);
    var c := DigitChar(n % 10);
    var u := h[|h| - (k - 1)..];
    assert s == h + [c];
    assert t == (h + [c])[|h| + 1 - k..];
    SuffixAppend(h, c, k);
    SuffixStep(n, k, DigitsValue(t), DigitsValue(u));
  }

  /** The last `k` digits of `h + [c]` are the last `k - 1` of `h` and then `c`. */
  lemma SuffixAppend(h: string, c: char, k: nat)
    requires AllDigits(h) && IsDigit(c) && 1 <= k <= |h| + 1
    ensures AllDigits(h[|h| - (k - 1)..]) && AllDigits((h + [c])[|h| + 1 - k..])
    ensures DigitsValue((h + [c])[|h| + 1 - k..]) == 10 * DigitsValue(h[|h| - (k - 1)..]) + DigitValue(c)
  {
    SuffixDigits(h, k - 1);
    SuffixOfSnoc(h, c, k);
    DigitsValueSnoc((h + [c])[|h| + 1 - k..], h[|h| - (k - 1)..], c);
  }

  lemma SuffixOfSnoc(h: string, c: char, k: nat)
    requires 1 <= k <= |h| + 1
    ensures (h + [c])[|h| + 1 - k..] == h[|h| - (k - 1)..] + [c]
  {
  }

  lemma DigitsValueSnoc(t: string, u: string, c: char)
    requires AllDigits(u) && IsDigit(c) && t == u + [c]
    ensures AllDigits(t) && DigitsValue(t) == 10 * DigitsValue(u) + DigitValue(c)
  {
    assert t[..|t| - 1] == u;
  }

  lemma SuffixDigits(s: string, k: nat)
    requires AllDigits(s) && k <= |s|
    ensures AllDigits(s[|s| - k..])
  {
    var t := s[|s| - k..];
    forall i | 0 <= i < |t| ensures IsDigit(t[i]) { assert t[i] == s[|s| - k + i]; }
  }

  lemma SuffixStep(n: nat, k: nat, v: nat, w: nat)
    requires k >= 1
    requires v == 10 * w + n % 10 && w == (n / 10) % Pow10(k - 1)
    ensures v == n % Pow10(k)
  {
    ModStep(n, Pow10(k - 1));
  }

  /** Four-digit zero padding of a digit run keeps it all digits and keeps its value. */
  lemma PaddedDigits(d: string)
    requires AllDigits(d) && |d| <= DigitCount
    ensures var p := Zeros(DigitCount - |d|) + d;
      |p| == DigitCount && AllDigits(p) && DigitsValue(p) == DigitsValue(d)
  {
    var z := Zeros(DigitCount - |d|);
    var p := z + d;
    forall i | 0 <= i < |p|
      ensures IsDigit(p[i])
    {
      if i < |z| { assert p[i] == z[i]; } else { assert p[i] == d[i - |z|]; }
    }
    DigitsValueLeadingZeros(DigitCount - |d|, d);
  }

  /** A value in [0, 9999] is written `"+"` and four digits, and reads back. */
  lemma StoreWordNonNegative(acc: int)
    requires 0 <= acc <= 9999
    ensures IsWord(StoreWord(acc)) && ParseInt(StoreWord(acc)) == Some(acc)
  {
    assert Pow10(4) == 10000;
    DigitsLength(acc, 4);
    var d := Digits(acc);
    var p := Zeros(DigitCount - |d|) + d;
    PaddedDigits(d);
    DigitsValueOfDigits(acc);
    var w := StoreWord(acc);
    assert w == "+" + p;
    assert w[1..] == p;
  }

  /** A negative value above -10^4 is written `"-"` and four digits, and reads back. */
  lemma StoreWordNegative(acc: int)
    requires -9999 <= acc < 0
    ensures IsWord(StoreWord(acc)) && ParseInt(StoreWord(acc)) == Some(acc)
  {
    assert Pow10(4) == 10000;
    DigitsLength(-acc, 4);
    var d := Digits(-acc);
    var p := Zeros(DigitCount - |d|) + d;
    PaddedDigits(d);
    DigitsValueOfDigits(-acc);
    assert Str(acc) == "-" + d;
    assert ("-" + d)[1..] == d;
    var w := StoreWord(acc);
    assert w == "-" + p;
    assert w[1..] == p;
  }

  /**
   Store/load round trip at the word level: for `|acc| <= 9999` the stored text is
   a well-formed five-character word and `int` of it is `acc` again.
   */
  lemma StoreWordRoundTrip(acc: int)
    requires -9999 <= acc <= 9999
    ensures IsWord(StoreWord(acc))
    ensures ParseInt(StoreWord(acc)) == Some(acc)
    ensures StoreWord(acc)[0] == (if acc < 0 then '-' else '+')
  {
    if acc < 0 { StoreWordNegative(acc); } else { StoreWordNonNegative(acc); }
  }

  /** Every well-formed word is a number `int` accepts, with magnitude below 10^4. */
  lemma {:induction false} WordValue(code: string)
    requires IsWord(code)
    ensures ParseInt(code).Some?
    ensures -9999 <= ParseInt(code).value <= 9999
  {
    DigitsValueBound(code[1..]);
    assert Pow10(4) == 10000;
  }

  lemma {:induction false} DigitsValueBound(s: string)
    requires AllDigits(s)
    ensures DigitsValue(s) < Pow10(|s|)
  {
    if s != [] {
      DigitsValueBound(s[..|s| - 1]);
    }
  }
}
