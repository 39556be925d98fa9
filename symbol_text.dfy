/**
 * The character-level rules of lib/symbols.js: the quote doubling done by the
 * Identifier and StringConst formats, and the regular expressions that the
 * IntConst, FloatConst and UUIDConst validators test, written as predicates
 * over characters.
 */
module SymbolText {
  import opened Wrappers

  /** `s` with every `q` doubled: `s.replace(/q/g, qq)`. */
  function Double(s: string, q: char): (r: string)
    ensures |r| >= |s|
    ensures q !in s ==> r == s
  {
    if s == [] then []
    else (if s[0] == q then [q, q] else [s[0]]) + Double(s[1..], q)
  }

  /** Doubling works piecewise. */
  lemma {:induction false} DoubleAppend(a: string, b: string, q: char)
    ensures Double(a + b, q) == Double(a, q) + Double(b, q)
  {
    if a == [] {
      assert a + b == b;
    } else {
      assert (a + b)[0] == a[0] && (a + b)[1..] == a[1..] + b;
      DoubleAppend(a[1..], b, q);
    }
  }

  /** The text `s` between two `q` characters, each inner `q` doubled. */
  function Quote(s: string, q: char): (r: string)
    ensures |r| >= 2 && r[0] == q && r[|r| - 1] == q
  {
    [q] + Double(s, q) + [q]
  }

  /** Quoting a text with one inner quote character doubles that character and nothing else. */
  lemma QuoteOneInner(a: string, b: string, q: char)
    requires q !in a && q !in b
    ensures Quote(a + [q] + b, q) == [q] + a + [q, q] + b + [q]
  {
    DoubleAppend(a, [q], q);
    DoubleAppend(a + [q], b, q);
    assert Double([q], q) == [q, q] by {
      assert [q][1..] == [];
    }
  }

  /** Reads back a doubled text: every `q` must be immediately followed by a second `q`. */
  function Undouble(t: string, q: char): Option<string>
    decreases |t|
  {
    if t == [] then Some([])
    else if t[0] != q then
      match Undouble(t[1..], q)
      case Some(s) => Some([t[0]] + s)
      case None => None
    else if |t| >= 2 && t[1] == q then
      match Undouble(t[2..], q)
      case Some(s) => Some([q] + s)
      case None => None
    else None
  }

  /** Reads back a quoted text: the inverse of Quote. */
  function Unquote(t: string, q: char): Option<string> {
    if |t| >= 2 && t[0] == q && t[|t| - 1] == q then Undouble(t[1..|t| - 1], q) else None
  }

  lemma {:induction false} UndoubleDouble(s: string, q: char)
    ensures Undouble(Double(s, q), q) == Some(s)
  {
    if s != [] {
      UndoubleDouble(s[1..], q);
      var t := Double(s, q);
      if s[0] == q {
        assert t == [q, q] + Double(s[1..], q);
        assert t[2..] == Double(s[1..], q);
        assert s == [q] + s[1..];
      } else {
        assert t == [s[0]] + Double(s[1..], q);
        assert t[0] == s[0] && t[1..] == Double(s[1..], q);
        assert s == [s[0]] + s[1..];
      }
    }
  }

  /** Quoting loses nothing: Unquote gives back exactly the quoted text. */
  lemma UnquoteQuote(s: string, q: char)
    ensures Unquote(Quote(s, q), q) == Some(s)
  {
    var t := Quote(s, q);
    assert t[1..|t| - 1] == Double(s, q);
    UndoubleDouble(s, q);
  }

  /** Two different texts never quote to the same text. */
  lemma QuoteInjective(s1: string, s2: string, q: char)
    requires Quote(s1, q) == Quote(s2, q)
    ensures s1 == s2
  {
    UnquoteQuote(s1, q);
    UnquoteQuote(s2, q);
  }

  predicate IsDigit(c: char) {
    '0' <= c <= '9'
  }

  /** One character of the class `[a-f0-9]` under the `i` flag. */
  predicate IsHex(c: char) {
    IsDigit(c) || 'a' <= c <= 'f' || 'A' <= c <= 'F'
  }

  predicate AllDigits(s: string) {
    forall i | 0 <= i < |s| :: IsDigit(s[i])
  }

  /** `s` without the optional leading '-' that both number patterns allow. */
  function Unsigned(s: string): (r: string)
    ensures |r| <= |s|
  {
    if |s| > 0 && s[0] == '-' then s[1..] else s
  }

  /** `/^-?\d+$/`: an optional '-' and one or more digits, of any length. */
  predicate IsIntText(s: string) {
    var d := Unsigned(s);
    |d| > 0 && AllDigits(d)
  }

  /**
   * `/^-?\d+?\.\d*$/`: an optional '-', at least one digit, a '.', then
   * any number of digits.
   */
  predicate IsFloatText(s: string) {
    var d := Unsigned(s);
    exists i | 0 < i < |d| :: d[i] == '.' && AllDigits(d[..i]) && AllDigits(d[i + 1..])
  }

  /** The positions of the four '-' in the 8-4-4-4-12 layout. */
  predicate IsUuidDash(i: int) {
    i == 8 || i == 13 || i == 18 || i == 23
  }

  /**
   * `/^[a-f0-9]{8}-[a-f0-9]{4}-[a-f0-9]{4}-[a-f0-9]{4}-[a-f0-9]{12}$/i`:
   * 36 characters, '-' at the four group boundaries, hex digits elsewhere.
   */
  predicate IsUuid(s: string) {
    |s| == 36 && forall i | 0 <= i < 36 :: if IsUuidDash(i) then s[i] == '-' else IsHex(s[i])
  }

  /** No text is both an integer and a float: the float pattern needs a '.'. */
  lemma IntTextIsNotFloat(s: string)
    requires IsIntText(s)
    ensures !IsFloatText(s)
  {
    var d := Unsigned(s);
    forall i | 0 < i < |d| ensures d[i] != '.' {
      assert IsDigit(d[i]);
    }
  }

  /** A UUID text is neither an integer nor a float, because of the '-' at position 8. */
  lemma UuidIsNotNumber(s: string)
    requires IsUuid(s)
    ensures !IsIntText(s) && !IsFloatText(s)
  {
    assert IsUuidDash(8) && s[8] == '-';
    assert !IsUuidDash(0) && IsHex(s[0]);
    var d := Unsigned(s);
    assert d == s;
    assert !IsDigit(d[8]);
    forall i | 0 <= i < |d| ensures d[i] != '.' {
      if !IsUuidDash(i) {
        assert IsHex(d[i]);
      }
    }
  }

  /** The decimal numeral of a natural number, as JavaScript's `String` writes it. */
  function NatText(n: nat): (r: string)
    ensures |r| > 0 && AllDigits(r)
  {
    var digit := ['0' + (n % 10) as char];
    if n < 10 then digit else NatText(n / 10) + digit
  }

  /** The decimal numeral of an integer. */
  function IntText(n: int): string {
    if n < 0 then "-" + NatText(-n) else NatText(n)
  }

  /** Every integer's decimal numeral passes the IntConst pattern. */
  lemma IntTextAccepted(n: int)
    ensures IsIntText(IntText(n))
  {
    if n < 0 {
      assert Unsigned(IntText(n)) == NatText(-n);
    } else {
      assert NatText(n)[0] != '-';
    }
  }
}
