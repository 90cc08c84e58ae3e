/** Text as Python sees it: line boundaries, encoded length and decimal numerals. */
module Text {

  /** The characters at which `str.splitlines` ends a line. */
  predicate IsBreak(c: char) {
    c in {'\n', '\r', '\U{0B}', '\U{0C}', '\U{1C}', '\U{1D}', '\U{1E}', '\U{85}', '\U{2028}', '\U{2029}'}
  }

  predicate NoBreak(s: string) {
    forall c | c in s :: !IsBreak(c)
  }

  /** Position `i` opens a line: it is the first character or follows a boundary, and it is
      not the second half of a carriage return and line feed pair. */
  predicate OpensLine(s: string, i: nat)
    requires i < |s|
  {
    i == 0 || (IsBreak(s[i - 1]) && !(s[i - 1] == '\r' && s[i] == '\n'))
  }

  /** `len(s.splitlines())`. */
  function Lines(s: string): nat {
    if s == "" then 0
    else Lines(s[..|s| - 1]) + if OpensLine(s, |s| - 1) then 1 else 0
  }

  function Utf8Width(c: char): nat {
    if c < '\U{80}' then 1 else if c < '\U{800}' then 2 else if c < '\U{10000}' then 3 else 4
  }

  /** `len(s.encode())`. */
  function Utf8Length(s: string): nat {
    if s == "" then 0 else Utf8Length(s[..|s| - 1]) + Utf8Width(s[|s| - 1])
  }

  lemma {:induction false} PrefixIsShorter(s: string, t: string)
    requires s <= t
    ensures Lines(s) <= Lines(t) && Utf8Length(s) <= Utf8Length(t)
    decreases |t|
  {
    if s == t {
    } else {
      PrefixIsShorter(s, t[..|t| - 1]);
    }
  }

  /** Dropping a piece from the middle of a line never makes a text longer. */
  lemma {:induction false} MiddleIsShorter(a: string, piece: string, b: string)
    requires a != "" && !IsBreak(a[|a| - 1]) && NoBreak(piece)
    ensures Lines(a + b) <= Lines(a + piece + b) && Utf8Length(a + b) <= Utf8Length(a + piece + b)
    decreases |b|
  {
    if b == "" {
      assert a + b == a && a + piece + b == a + piece;
      PrefixIsShorter(a, a + piece);
    } else {
      var front, last := b[..|b| - 1], b[|b| - 1];
      MiddleIsShorter(a, piece, front);
      var short, long := a + b, a + piece + b;
      assert short[..|short| - 1] == a + front;
      assert long[..|long| - 1] == a + piece + front;
      if |b| == 1 {
        assert short[|short| - 2] == a[|a| - 1];
        assert !OpensLine(short, |short| - 1);
      } else {
        assert short[|short| - 2] == b[|b| - 2] == long[|long| - 2];
      }
    }
  }

  // ---------------------------------------------------------------------------------
  // Decimal numerals
  // ---------------------------------------------------------------------------------

  predicate IsDigit(c: char) {
    '0' <= c <= '9'
  }

  function Digit(d: nat): (c: char)
    requires d < 10
    ensures IsDigit(c) && (c as int) - ('0' as int) == d
  {
    ('0' as int + d) as char
  }

  /** `str(n)` for a natural number. */
  function Decimal(n: nat): (s: string)
    ensures s != "" && forall c | c in s :: IsDigit(c)
  {
    if n < 10 then [Digit(n)] else Decimal(n / 10) + [Digit(n % 10)]
  }

  /** The value of a string of digits. */
  function DigitsValue(s: string): nat
    requires forall c | c in s :: IsDigit(c)
  {
    if s == "" then 0
    else
      assert IsDigit(s[|s| - 1]);
      10 * DigitsValue(s[..|s| - 1]) + (s[|s| - 1] as int - '0' as int)
  }

  lemma {:induction false} DecimalValue(n: nat)
    ensures DigitsValue(Decimal(n)) == n
  {
    var s := Decimal(n);
    if n < 10 {
      assert s[..|s| - 1] == "";
    } else {
      DecimalValue(n / 10);
      assert s[..|s| - 1] == Decimal(n / 10);
    }
  }
}
