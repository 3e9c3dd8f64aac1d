/**
 * The line that broadcastToLirc prints for a key (src/lirc_thr.c), and how an LIRC client reads it
 * back: a hexadecimal code, a repeat number, a key name and the name of the remote.
 */
module LircLine {
  import opened Prelude
  import opened KeyDef

  const REMOTE := "SonyBDRemote"

  /** The size of the buffer the line is printed into. */
  const MSG_SIZE := 100

  /** The two number bases that the format uses. */
  type Base = b: nat | b == 10 || b == 16 witness 10

  function Quot(n: nat, base: Base): nat { if base == 10 then n / 10 else n / 16 }

  function Rem(n: nat, base: Base): (r: nat)
    ensures r < 16
  {
    if base == 10 then n % 10 else n % 16
  }

  function Digit(d: nat): char
    requires d < 16
  {
    "0123456789ABCDEF"[d]
  }

  function DigitValue(c: char): nat {
    if '0' <= c <= '9' then (c - '0') as nat else if 'A' <= c <= 'F' then (c - 'A') as nat + 10 else 0
  }

  /** The digits of n, without leading zeros. */
  function Digits(n: nat, base: Base): (s: string)
    ensures |s| >= 1
    decreases n
  {
    if n < base then [Digit(n)]
    else
      Digits(Quot(n, base), base) + [Digit(Rem(n, base))]
  }

  function Value(s: string, base: Base): nat {
    if s == "" then 0 else Value(s[..|s| - 1], base) * base + DigitValue(s[|s| - 1])
  }

  function Zeros(n: nat): (s: string)
    ensures |s| == n
  {
    seq(n, i => '0')
  }

  /** %0<width>X and %0<width>d for numbers that are not negative. */
  function Padded(n: nat, base: Base, width: nat): (s: string)
    ensures |s| >= width && |s| >= 1
  {
    var s := Digits(n, base);
    if |s| < width then Zeros(width - |s|) + s else s
  }

  /** sprintf(msg, "%04X %02d %s %s\n", code, rep, name, REMOTE). */
  function Line(code: nat, rep: nat, name: string): (s: string)
    ensures s != ""
  {
    Padded(code, 16, 4) + " " + Padded(rep, 10, 2) + " " + name + " " + REMOTE + "\n"
  }

  // ---- Reading a line back --------------------------------------------------------------------

  function FirstSpace(s: string): (i: nat)
    ensures i <= |s|
    ensures i < |s| ==> s[i] == ' '
    ensures forall k :: 0 <= k < i ==> s[k] != ' '
  {
    if s == "" || s[0] == ' ' then 0 else 1 + FirstSpace(s[1..])
  }

  /** A word and what follows the space after it. */
  function Word(s: string): Option<(string, string)> {
    var i := FirstSpace(s);
    if i < |s| then Some((s[..i], s[i + 1..])) else None
  }

  /** A number as the format prints it: digits of the base, of the given width, or wider without leading zeros. */
  predicate IsNumber(s: string, base: Base, width: nat) {
    |s| >= width && (|s| > width ==> s[0] != '0') && AllDigits(s, base)
  }

  predicate AllDigits(s: string, base: Base) {
    forall i :: 0 <= i < |s| ==> '0' <= s[i] <= '9' || (base == 16 && 'A' <= s[i] <= 'F')
  }

  datatype Key = Key(code: nat, rep: nat, name: string)

  function Decode(line: string): Option<Key> {
    match Word(line)
    case None => None
    case Some((code, rest)) =>
      match Word(rest)
      case None => None
      case Some((rep, rest')) =>
        match Word(rest')
        case None => None
        case Some((name, remote)) =>
          if IsNumber(code, 16, 4) && IsNumber(rep, 10, 2) && remote == "SonyBDRemote\n" then
            Some(Key(Value(code, 16), Value(rep, 10), name))
          else None
  }

  predicate NoSpace(s: string) {
    forall i :: 0 <= i < |s| ==> s[i] != ' '
  }

  lemma WordOf(a: string, b: string)
    requires NoSpace(a)
    ensures Word(a + " " + b) == Some((a, b))
  {
    var s := a + " " + b;
    var i := FirstSpace(s);
    assert s[|a|] == ' ';
    assert i == |a|;
    assert s[..i] == a && s[i + 1..] == b;
  }

  lemma DigitRoundTrip(d: nat)
    requires d < 16
    ensures DigitValue(Digit(d)) == d && Digit(d) != ' '
  {
  }

  lemma ValueSnoc(s: string, c: char, base: Base)
    ensures Value(s + [c], base) == Value(s, base) * base + DigitValue(c)
  {
    assert (s + [c])[..|s|] == s;
  }

  lemma DivMod(n: nat, base: Base)
    ensures n == Quot(n, base) * base + Rem(n, base)
    ensures n >= base ==> Quot(n, base) < n
  {
  }

  lemma DigitsSnoc(n: nat, base: Base)
    requires n >= base
    ensures Digits(n, base) == Digits(Quot(n, base), base) + [Digit(Rem(n, base))]
  {
  }

  lemma AppendDigit(s: string, q: nat, r: nat, base: Base)
    requires r < base && Value(s, base) == q && AllDigits(s, base)
    ensures Value(s + [Digit(r)], base) == q * base + r && AllDigits(s + [Digit(r)], base)
  {
    hide Value;
    ValueSnoc(s, Digit(r), base);
    DigitRoundTrip(r);
  }

  lemma {:induction false} DigitsRoundTrip(n: nat, base: Base)
    ensures Value(Digits(n, base), base) == n && AllDigits(Digits(n, base), base)
    decreases n
  {
    if n < base {
      hide AllDigits;
      assert AllDigits("", base) by {
        NoDigits(base);
      }
      AppendDigit("", 0, n, base);
      assert "" + [Digit(n)] == [Digit(n)];
    } else {
      DivMod(n, base);
      DigitsSnoc(n, base);
      RemIsDigit(n, base);
      hide *;
      DigitsRoundTrip(Quot(n, base), base);
      AppendDigit(Digits(Quot(n, base), base), Quot(n, base), Rem(n, base), base);
    }
  }

  lemma NoDigits(base: Base)
    ensures AllDigits("", base)
  {
  }

  lemma RemIsDigit(n: nat, base: Base)
    ensures Rem(n, base) < base
  {
  }

  /** The first digit of a number is not zero, unless it is the number zero. */
  lemma {:induction false} FirstDigit(n: nat, base: Base)
    requires n > 0
    ensures Digits(n, base)[0] != '0'
    decreases n
  {
    if n >= base {
      FirstDigit(Quot(n, base), base);
    }
  }

  lemma {:induction false} ValueOfZeros(k: nat, s: string, base: Base)
    ensures Value(Zeros(k) + s, base) == Value(s, base)
    decreases |s|, k
  {
    if s == "" {
      assert Zeros(k) + s == Zeros(k);
      if k > 0 {
        assert Zeros(k)[..k - 1] == Zeros(k - 1) + "";
        ValueOfZeros(k - 1, "", base);
        assert DigitValue('0') == 0;
      }
    } else {
      var init := s[..|s| - 1];
      assert (Zeros(k) + s)[..k + |s| - 1] == Zeros(k) + init;
      ValueOfZeros(k, init, base);
    }
  }

  lemma PaddedRoundTrip(n: nat, base: Base, width: nat)
    requires width > 0
    ensures Value(Padded(n, base, width), base) == n && IsNumber(Padded(n, base, width), base, width)
  {
    hide Value, Digits, DigitValue;
    DigitsRoundTrip(n, base);
    var s := Digits(n, base);
    if |s| < width {
      ValueOfZeros(width - |s|, s, base);
    } else if |s| > width {
      LongNumber(n, base);
    }
  }

  lemma LongNumber(n: nat, base: Base)
    ensures |Digits(n, base)| > 1 ==> Digits(n, base)[0] != '0'
  {
    if n >= base {
      FirstDigit(n, base);
    }
  }

  lemma NumbersHaveNoSpace(s: string, base: Base, width: nat)
    requires IsNumber(s, base, width)
    ensures NoSpace(s)
  {
  }

  /** Every printed line can be read back. */
  lemma LineRoundTrip(code: nat, rep: nat, name: string)
    requires NoSpace(name)
    ensures Decode(Line(code, rep, name)) == Some(Key(code, rep, name))
  {
    hide NoSpace, IsNumber, Padded, Value, Word;
    var c, r := Padded(code, 16, 4), Padded(rep, 10, 2);
    PaddedRoundTrip(code, 16, 4);
    PaddedRoundTrip(rep, 10, 2);
    NumbersHaveNoSpace(c, 16, 4);
    NumbersHaveNoSpace(r, 10, 2);
    var tail := REMOTE + "\n";
    assert Line(code, rep, name) == c + " " + (r + " " + (name + " " + tail));
    WordOf(c, r + " " + (name + " " + tail));
    WordOf(r, name + " " + tail);
    WordOf(name, tail);
  }

  // ---- The length of a line -------------------------------------------------------------------

  function Pow(base: Base, k: nat): nat {
    if k == 0 then 1 else base * Pow(base, k - 1)
  }

  lemma {:induction false} DigitsLength(n: nat, base: Base, k: nat)
    requires k > 0 && n < Pow(base, k)
    ensures |Digits(n, base)| <= k
    decreases k
  {
    if n >= base {
      assert Pow(base, 1) == base * Pow(base, 0);
      DigitsLength(Quot(n, base), base, k - 1);
    }
  }

  /** The length of the line of a one-byte code. */
  lemma LineLength(code: nat, rep: nat, name: string)
    requires code <= 0xFF
    ensures |Line(code, rep, name)| == 20 + |Padded(rep, 10, 2)| + |name|
  {
    assert Pow(16, 1) == 16 * Pow(16, 0);
    assert Pow(16, 2) == 16 * Pow(16, 1);
    DigitsLength(code, 16, 2);
  }

  /** Every press or repeat line of a table key fits the buffer with its terminator, for any 32-bit repeat number. */
  lemma KeyLinesFit(code: Code, rep: nat, name: Name)
    requires rep < 0x8000_0000
    ensures |Line(code, rep, name)| + 1 <= MSG_SIZE
  {
    LineLength(code, rep, name);
    assert Pow(10, 10) == 10_000_000_000 by {
      assert Pow(10, 2) == 100;
      assert Pow(10, 4) == 10 * (10 * Pow(10, 2));
      assert Pow(10, 6) == 10 * (10 * Pow(10, 4));
      assert Pow(10, 8) == 10 * (10 * Pow(10, 6));
      assert Pow(10, 10) == 10 * (10 * Pow(10, 8));
    }
    DigitsLength(rep, 10, 10);
  }

  /** A release line fits exactly when key name and suffix together have at most 77 characters. */
  lemma ReleaseNameFitsIff(name: string)
    ensures |Line(KEYUP, 0, name)| + 1 <= MSG_SIZE <==> |name| <= 77
  {
    LineLength(KEYUP, 0, name);
  }
}
