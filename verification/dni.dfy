/** The Spanish national identity number check (`nif_valido`): a DNI is
    eight digits and a control letter, an NIE is X, Y or Z, seven digits
    and a control letter; the control letter is the entry of a fixed
    23-letter table at the number modulo 23, where an NIE's prefix stands
    for the leading digit 0, 1 or 2. */
module Dni {
  import opened Common

  const Letters: string := "TRWAGMYFPDXBNJZSQVHLCKE"

  function Pow10(n: nat): (p: nat)
    ensures p >= 1
  {
    if n == 0 then 1 else 10 * Pow10(n - 1)
  }

  function DigitValue(c: char): nat
  {
    if IsDigit(c) then (c as int - '0' as int) else 0
  }

  function DigitChar(d: nat): char
    requires d < 10
  {
    ('0' as int + d) as char
  }

  /** `parseInt(s, 10)` of a string of decimal digits. */
  function DigitsValue(s: string): nat
  {
    if s == [] then 0 else DigitsValue(s[..|s| - 1]) * 10 + DigitValue(s[|s| - 1])
  }

  /** The `width`-digit decimal spelling of `n`, with leading zeros. */
  function Digits(n: nat, width: nat): (s: string)
    ensures |s| == width && AllDigits(s)
  {
    if width == 0 then [] else Digits(n / 10, width - 1) + [DigitChar(n % 10)]
  }

  /** The control letter of a number. */
  function ControlLetter(n: nat): (c: char)
    ensures IsUpperAscii(c)
  {
    Letters[n % 23]
  }

  /** The number an NIE prefix letter stands for. */
  function PrefixDigit(c: char): nat
  {
    if c == 'X' then 0 else if c == 'Y' then 1 else 2
  }

  /** `nif.toUpperCase().trim()` */
  function Normalize(s: string): string
  {
    Trim(Upper(s))
  }

  /** `/^[0-9]{8}[A-Z]$/` */
  predicate DniShape(t: string)
  {
    |t| == 9 && AllDigits(t[..8]) && IsUpperAscii(t[8])
  }

  /** `/^[XYZ][0-9]{7}[A-Z]$/` */
  predicate NieShape(t: string)
  {
    |t| == 9 && t[0] in "XYZ" && AllDigits(t[1..8]) && IsUpperAscii(t[8])
  }

  /** A DNI-shaped string ends with the control letter of its eight digits. */
  predicate DniLetterMatches(t: string)
    requires DniShape(t)
  {
    ControlLetter(DigitsValue(t[..8])) == t[8]
  }

  /** An NIE-shaped string, with its prefix replaced by the digit it stands
      for, ends with the control letter of the resulting eight digits. */
  predicate NieLetterMatches(t: string)
    requires NieShape(t)
  {
    var numero := [DigitChar(PrefixDigit(t[0]))] + t[1..];
    ControlLetter(DigitsValue(numero[..8])) == t[8]
  }

  /** `nif_valido`: an empty input is rejected; otherwise the upper-cased,
      trimmed input must have the DNI or the NIE shape and end with the
      control letter of its number. */
  function NifValido(nif: string): (ok: bool)
    ensures ok ==> nif != [] && (DniShape(Normalize(nif)) || NieShape(Normalize(nif)))
    ensures ok ==> Normalize(nif)[8] in Letters
  {
    if nif == [] then false
    else
      var t := Normalize(nif);
      if DniShape(t) then DniLetterMatches(t)
      else if NieShape(t) then NieLetterMatches(t)
      else false
  }

  // ---------------------------------------------------------------------
  // Decimal spelling and parsing are inverse

  lemma {:induction false} DigitsRoundTrip(n: nat, width: nat)
    requires n < Pow10(width)
    ensures DigitsValue(Digits(n, width)) == n
  {
    if width > 0 {
      var s := Digits(n, width);
      assert s[..|s| - 1] == Digits(n / 10, width - 1);
      DigitsRoundTrip(n / 10, width - 1);
      assert DigitValue(DigitChar(n % 10)) == n % 10;
    }
  }

  lemma {:induction false} ValueRoundTrip(s: string)
    requires AllDigits(s)
    ensures Digits(DigitsValue(s), |s|) == s
  {
    if s != [] {
      var n := DigitsValue(s);
      var init := s[..|s| - 1];
      ValueRoundTrip(init);
      assert n / 10 == DigitsValue(init);
      assert DigitChar(n % 10) == s[|s| - 1];
      assert s == init + [s[|s| - 1]];
    }
  }

  lemma {:induction false} DigitsValueAppend(a: string, b: string)
    ensures DigitsValue(a + b) == DigitsValue(a) * Pow10(|b|) + DigitsValue(b)
    decreases |b|
  {
    if b == [] {
      assert a + b == a;
    } else {
      var ab := a + b;
      var init := b[..|b| - 1];
      var d := DigitValue(b[|b| - 1]);
      assert ab[..|ab| - 1] == a + init;
      assert ab[|ab| - 1] == b[|b| - 1];
      DigitsValueAppend(a, init);
      var x, p, y := DigitsValue(a), Pow10(|init|), DigitsValue(init);
      assert DigitsValue(ab) == (x * p + y) * 10 + d;
      assert Pow10(|b|) == p * 10;
      assert DigitsValue(b) == y * 10 + d;
      ShiftDigit(x, p, y, d);
    }
  }

  /** Appending a digit shifts the whole number one place. */
  lemma ShiftDigit(x: int, p: int, y: int, d: int)
    ensures (x * p + y) * 10 + d == x * (p * 10) + (y * 10 + d)
  {
  }

  // ---------------------------------------------------------------------
  // Normalization

  lemma NormalizeIdempotent(s: string)
    ensures Normalize(Normalize(s)) == Normalize(s)
  {
    UpperHasNoLower(s);
    TrimKeepsNoLower(Upper(s));
    UpperOfNoLower(Normalize(s));
    TrimIdempotent(Upper(s));
  }

  /** The check ignores letter case and surrounding white space:
      `" 12345678z "` is judged exactly like `"12345678Z"`. */
  lemma NifIgnoresCaseAndPadding(s: string)
    ensures NifValido(s) == NifValido(Normalize(s))
  {
    NormalizeIdempotent(s);
    if s == [] {
      assert Normalize(s) == [];
    }
  }

  // ---------------------------------------------------------------------
  // Reference definition: the valid identifiers are exactly the encodings

  /** The DNI of an 8-digit number. */
  function DniOf(n: nat): string
  {
    Digits(n, 8) + [ControlLetter(n)]
  }

  /** The NIE with prefix index `p` (X, Y, Z) and 7-digit number `m`. */
  function NieOf(p: nat, m: nat): string
    requires p < 3
  {
    ["XYZ"[p]] + Digits(m, 7) + [ControlLetter(p * Pow10(7) + m)]
  }

  ghost predicate IsEncoding(t: string)
  {
    || (exists n: nat | n < Pow10(8) :: t == DniOf(n))
    || (exists p: nat, m: nat | p < 3 && m < Pow10(7) :: t == NieOf(p, m))
  }

  lemma DniOfShape(n: nat)
    requires n < Pow10(8)
    ensures DniShape(DniOf(n)) && DniOf(n)[..8] == Digits(n, 8)
    ensures DigitsValue(DniOf(n)[..8]) == n
  {
    assert DniOf(n)[..8] == Digits(n, 8);
    DigitsRoundTrip(n, 8);
  }

  lemma NieNumber(t: string)
    requires NieShape(t)
    ensures DigitsValue(([DigitChar(PrefixDigit(t[0]))] + t[1..])[..8])
            == PrefixDigit(t[0]) * Pow10(7) + DigitsValue(t[1..8])
  {
    var lead := [DigitChar(PrefixDigit(t[0]))];
    assert (lead + t[1..])[..8] == lead + t[1..8];
    DigitsValueAppend(lead, t[1..8]);
    assert DigitsValue(lead) == PrefixDigit(t[0]) by {
      assert lead[..0] == [];
    }
  }

  lemma {:induction false} DigitsValueBound(s: string)
    ensures DigitsValue(s) < Pow10(|s|)
  {
    if s != [] {
      var init := s[..|s| - 1];
      DigitsValueBound(init);
      var v := DigitsValue(init);
      assert v + 1 <= Pow10(|init|);
      assert (v + 1) * 10 <= Pow10(|init|) * 10;
    }
  }

  lemma DniMatchIsEncoding(t: string)
    requires DniShape(t) && DniLetterMatches(t)
    ensures IsEncoding(t)
  {
    var n := DigitsValue(t[..8]);
    DigitsValueBound(t[..8]);
    ValueRoundTrip(t[..8]);
    assert t == t[..8] + [t[8]];
    assert t == DniOf(n);
  }

  lemma NieMatchIsEncoding(t: string)
    requires NieShape(t) && NieLetterMatches(t)
    ensures IsEncoding(t)
  {
    var p := PrefixDigit(t[0]);
    var m := DigitsValue(t[1..8]);
    NieNumber(t);
    DigitsValueBound(t[1..8]);
    ValueRoundTrip(t[1..8]);
    assert "XYZ"[p] == t[0];
    assert t == [t[0]] + t[1..8] + [t[8]];
    assert t == NieOf(p, m);
  }

  lemma DniOfMatches(n: nat)
    requires n < Pow10(8)
    ensures DniShape(DniOf(n)) && DniLetterMatches(DniOf(n))
  {
    DniOfShape(n);
  }

  lemma NieOfMatches(p: nat, m: nat)
    requires p < 3 && m < Pow10(7)
    ensures !DniShape(NieOf(p, m))
    ensures NieShape(NieOf(p, m)) && NieLetterMatches(NieOf(p, m))
  {
    var t := NieOf(p, m);
    assert t[1..8] == Digits(m, 7);
    DigitsRoundTrip(m, 7);
    assert !IsDigit(t[0]);
    assert PrefixDigit(t[0]) == p;
    NieNumber(t);
  }

  /** A normalized string passes the check exactly when it is the DNI of
      some 8-digit number or the NIE of some prefix and 7-digit number. */
  lemma ValidIffEncoding(t: string)
    requires t != [] && Normalize(t) == t
    ensures NifValido(t) <==> IsEncoding(t)
  {
    if NifValido(t) {
      if DniShape(t) {
        DniMatchIsEncoding(t);
      } else {
        NieMatchIsEncoding(t);
      }
    }
    if IsEncoding(t) {
      if n: nat :| n < Pow10(8) && t == DniOf(n) {
        DniOfMatches(n);
      } else {
        var p: nat, m: nat :| p < 3 && m < Pow10(7) && t == NieOf(p, m);
        NieOfMatches(p, m);
      }
    }
  }

  lemma UpperDigitsThen(d: string, c: char)
    requires AllDigits(d)
    ensures Upper(d + [c]) == d + [UpperChar(c)]
  {
    var t := d + [c];
    assert forall i | 0 <= i < |d| :: t[i] == d[i];
  }

  lemma NormalizeDigitsThen(d: string, c: char)
    requires AllDigits(d) && !IsWhite(c)
    ensures Normalize(d + [c]) == d + [UpperChar(c)]
  {
    var u := d + [UpperChar(c)];
    UpperDigitsThen(d, c);
    assert NoWhite(u) by {
      forall i | 0 <= i < |u|
        ensures !IsWhite(u[i])
      {
        if i < |d| {
          assert IsDigit(d[i]);
        }
      }
    }
    TrimOfNoWhite(u);
  }

  lemma WhiteAfterDigits(d: string, c: char)
    requires |d| == 8 && AllDigits(d) && IsWhite(c)
    ensures !NifValido(d + [c])
  {
    UpperDigitsThen(d, c);
  }

  lemma NonLetterAfterDigits(d: string, c: char)
    requires |d| == 8 && AllDigits(d) && !IsWhite(c) && !IsUpperAscii(UpperChar(c))
    ensures !NifValido(d + [c])
  {
    var u := d + [UpperChar(c)];
    NormalizeDigitsThen(d, c);
    assert !NieShape(u) by {
      assert IsDigit(u[0]);
    }
  }

  lemma UpperLetterAfterDigits(d: string, c: char)
    requires |d| == 8 && AllDigits(d) && IsUpperAscii(UpperChar(c))
    ensures NifValido(d + [c]) <==> UpperChar(c) == ControlLetter(DigitsValue(d))
  {
    var u := d + [UpperChar(c)];
    NormalizeDigitsThen(d, c);
    assert u[..8] == d;
  }

  /** Eight digits followed by one character pass the check exactly when
      that character, upper-cased, is the control letter of the digits. */
  lemma LetterAfterDigits(d: string, c: char)
    requires |d| == 8 && AllDigits(d)
    ensures NifValido(d + [c]) <==> UpperChar(c) == Letters[DigitsValue(d) % 23]
  {
    var k := ControlLetter(DigitsValue(d));
    if IsWhite(c) {
      WhiteAfterDigits(d, c);
    } else if IsUpperAscii(UpperChar(c)) {
      UpperLetterAfterDigits(d, c);
    } else {
      NonLetterAfterDigits(d, c);
    }
  }

  /** For every 8-digit number exactly one final letter is accepted, in
      either case: the table entry at the number modulo 23. */
  lemma ExactlyOneLetter(n: nat, c: char)
    requires n < Pow10(8)
    ensures NifValido(Digits(n, 8) + [c]) <==> UpperChar(c) == Letters[n % 23]
  {
    DigitsRoundTrip(n, 8);
    LetterAfterDigits(Digits(n, 8), c);
  }

  lemma SampleDigits(d: string)
    requires d == "12345678"
    ensures |d| == 8 && AllDigits(d) && DigitsValue(d) == 12345678
  {
    assert d[..7] == "1234567";
    assert "1234567"[..6] == "123456";
    assert "123456"[..5] == "12345";
    assert "12345"[..4] == "1234";
    assert "1234"[..3] == "123";
    assert "123"[..2] == "12";
    assert "12"[..1] == "1";
    assert "1"[..0] == "";
  }

  lemma SampleLetter(d: string, c: char)
    requires |d| == 8 && AllDigits(d) && DigitsValue(d) == 12345678
    ensures NifValido(d + [c]) <==> UpperChar(c) == 'Z'
  {
    assert Letters[12345678 % 23] == 'Z';
    LetterAfterDigits(d, c);
  }

  /** The documented shapes: `12345678Z` is a valid DNI and any other
      final letter, such as `A`, is refused. */
  lemma KnownIdentifiers(d: string)
    requires d == "12345678"
    ensures NifValido(d + ['Z']) && !NifValido(d + ['A'])
  {
    SampleDigits(d);
    SampleLetter(d, 'Z');
    SampleLetter(d, 'A');
  }

  /** The lower-case, space-padded spelling ` 12345678z ` is accepted. */
  lemma KnownPaddedIdentifier(d: string)
    requires d == "12345678"
    ensures NifValido([' '] + d + ['z', ' '])
  {
    SampleDigits(d);
    SampleLetter(d, 'z');
    PaddedDigits(d, 'z');
  }

  lemma UpperPadded(d: string, c: char)
    ensures Upper([' '] + d + [c, ' ']) == [' '] + Upper(d + [c]) + [' ']
  {
    assert [' '] + d + [c, ' '] == [' '] + (d + [c]) + [' '];
  }

  /** Upper-casing and trimming one space on each side of eight digits and
      a letter leaves the digits and the upper-cased letter. */
  lemma PaddedDigits(d: string, c: char)
    requires |d| == 8 && AllDigits(d) && !IsWhite(c)
    ensures NifValido([' '] + d + [c, ' ']) == NifValido(d + [c])
  {
    var p := [' '] + d + [c, ' '];
    NormalizePadded(d, c);
    NormalizeDigitsThen(d, c);
    NifIgnoresCaseAndPadding(p);
    NifIgnoresCaseAndPadding(d + [c]);
  }

  lemma NormalizePadded(d: string, c: char)
    requires |d| == 8 && AllDigits(d) && !IsWhite(c)
    ensures Normalize([' '] + d + [c, ' ']) == d + [UpperChar(c)]
  {
    var u := d + [UpperChar(c)];
    UpperPadded(d, c);
    UpperDigitsThen(d, c);
    assert !IsWhite(u[0]) && !IsWhite(u[|u| - 1]);
    TrimPadded(u, ' ', ' ');
  }
}
