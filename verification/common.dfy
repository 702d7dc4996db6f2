/** Values and string operations shared by every part of the clinic API model:
    optional values, JavaScript request-body values, and the handful of
    JavaScript string methods the validators rely on (trim, case mapping,
    split on one character, `.length` in UTF-16 code units). */
module Common {

  datatype Option<+T> = None | Some(value: T)

  /** A value read from a JSON request body where the source distinguishes
      more than "some string": absent (`undefined`), a string, or another JSON
      value of which only its truthiness matters. */
  datatype Field = Missing | Text(s: string) | Other(truthy: bool)
  {
    /** JavaScript truthiness: `undefined` and `""` are falsy. */
    predicate Truthy()
    {
      match this
      case Missing => false
      case Text(s) => s != ""
      case Other(t) => t
    }
  }

  /** The string a `Field` denotes, where a missing value reads as "". */
  function TextOf(f: Field): string
  {
    if f.Text? then f.s else ""
  }

  // ---------------------------------------------------------------------
  // Characters

  /** JavaScript `WhiteSpace` and `LineTerminator` code points: what
      `String.prototype.trim` removes and what the regex class `\s` matches. */
  predicate IsWhite(c: char)
  {
    || c == ' ' || c == '\t' || c == '\n' || c == '\r'
    || c == '\U{000B}' || c == '\U{000C}' || c == '\U{00A0}' || c == '\U{1680}'
    || ('\U{2000}' <= c <= '\U{200A}')
    || c == '\U{2028}' || c == '\U{2029}' || c == '\U{202F}' || c == '\U{205F}'
    || c == '\U{3000}' || c == '\U{FEFF}'
  }

  predicate IsDigit(c: char) { '0' <= c <= '9' }
  predicate IsUpperAscii(c: char) { 'A' <= c <= 'Z' }
  predicate IsLowerAscii(c: char) { 'a' <= c <= 'z' }
  predicate IsAlphaAscii(c: char) { IsUpperAscii(c) || IsLowerAscii(c) }
  predicate IsAlnumAscii(c: char) { IsAlphaAscii(c) || IsDigit(c) }
  predicate IsHexDigit(c: char) { IsDigit(c) || ('a' <= c <= 'f') || ('A' <= c <= 'F') }

  predicate AllDigits(s: string) { forall i | 0 <= i < |s| :: IsDigit(s[i]) }
  predicate AllAlnum(s: string) { forall i | 0 <= i < |s| :: IsAlnumAscii(s[i]) }
  predicate NoWhite(s: string) { forall i | 0 <= i < |s| :: !IsWhite(s[i]) }

  function LowerChar(c: char): char
  {
    if IsUpperAscii(c) then (c as int + 32) as char else c
  }

  function UpperChar(c: char): char
  {
    if IsLowerAscii(c) then (c as int - 32) as char else c
  }

  /** `toLowerCase` on the ASCII letters. */
  function Lower(s: string): string
  {
    seq(|s|, i requires 0 <= i < |s| => LowerChar(s[i]))
  }

  /** `toUpperCase` on the ASCII letters. */
  function Upper(s: string): string
  {
    seq(|s|, i requires 0 <= i < |s| => UpperChar(s[i]))
  }

  predicate IsLowerCased(s: string)
  {
    forall i | 0 <= i < |s| :: !IsUpperAscii(s[i])
  }

  lemma LowerIsLowerCased(s: string)
    ensures IsLowerCased(Lower(s))
    ensures Lower(Lower(s)) == Lower(s)
  {
  }

  // ---------------------------------------------------------------------
  // String length as JavaScript counts it

  /** `.length` of a JavaScript string: code points above U+FFFF take two
      UTF-16 code units. */
  function JsLength(s: string): (n: nat)
    ensures |s| <= n <= 2 * |s|
  {
    if s == [] then 0
    else JsLength(s[..|s| - 1]) + (if s[|s| - 1] as int > 0xFFFF then 2 else 1)
  }

  // ---------------------------------------------------------------------
  // Prefixes and substrings

  predicate StartsWith(s: string, p: string)
  {
    |p| <= |s| && s[..|p|] == p
  }

  predicate EndsWith(s: string, p: string)
  {
    |p| <= |s| && s[|s| - |p|..] == p
  }

  /** `r` occurs in `s` starting at index `i`. */
  predicate SliceAt(s: string, r: string, i: int)
  {
    0 <= i <= |s| - |r| && s[i..i + |r|] == r
  }

  /** `s.includes(p)` */
  predicate Includes(s: string, p: string)
  {
    exists i | 0 <= i <= |s| - |p| :: SliceAt(s, p, i)
  }

  // ---------------------------------------------------------------------
  // trim

  function TrimStart(s: string): (r: string)
    ensures |r| <= |s| && r == s[|s| - |r|..]
    ensures r == [] || !IsWhite(r[0])
    ensures forall i | 0 <= i < |s| - |r| :: IsWhite(s[i])
  {
    if s == [] || !IsWhite(s[0]) then s else TrimStart(s[1..])
  }

  function TrimEnd(s: string): (r: string)
    ensures |r| <= |s| && r == s[..|r|]
    ensures r == [] || !IsWhite(r[|r| - 1])
    ensures forall i | |r| <= i < |s| :: IsWhite(s[i])
  {
    if s == [] || !IsWhite(s[|s| - 1]) then s else TrimEnd(s[..|s| - 1])
  }

  /** `String.prototype.trim`: the longest slice of `s` that neither starts
      nor ends with white space. */
  function Trim(s: string): (r: string)
    ensures exists i :: SliceAt(s, r, i)
    ensures r == [] || (!IsWhite(r[0]) && !IsWhite(r[|r| - 1]))
  {
    var a := TrimStart(s);
    var r := TrimEnd(a);
    assert SliceAt(s, r, |s| - |a|);
    r
  }

  lemma TrimOfTrimmed(s: string)
    requires s == [] || (!IsWhite(s[0]) && !IsWhite(s[|s| - 1]))
    ensures Trim(s) == s
  {
  }

  lemma TrimIdempotent(s: string)
    ensures Trim(Trim(s)) == Trim(s)
  {
    TrimOfTrimmed(Trim(s));
  }

  lemma TrimOfNoWhite(s: string)
    requires NoWhite(s)
    ensures Trim(s) == s
  {
    if s != [] {
      TrimOfTrimmed(s);
    }
  }

  /** Trimming keeps only characters of the input. */
  lemma TrimSubset(s: string, c: char)
    requires c in Trim(s)
    ensures c in s
  {
    var r := Trim(s);
    var i :| SliceAt(s, r, i);
    var k :| 0 <= k < |r| && r[k] == c;
    assert s[i + k] == c;
  }

  /** A string is the slice before an index, the character there, and the rest. */
  lemma Around(s: string, k: int)
    requires 0 <= k < |s|
    ensures s == s[..k] + [s[k]] + s[k + 1..]
  {
  }

  /** One white character on each side of a trimmed string is removed by `trim`. */
  lemma TrimPadded(s: string, w1: char, w2: char)
    requires s != [] && !IsWhite(s[0]) && !IsWhite(s[|s| - 1])
    requires IsWhite(w1) && IsWhite(w2)
    ensures Trim([w1] + s + [w2]) == s
  {
    var p := [w1] + s + [w2];
    assert p[1..] == s + [w2];
    assert TrimStart(p) == s + [w2];
    assert (s + [w2])[..|s|] == s;
  }

  predicate NoLowerAscii(s: string)
  {
    forall i | 0 <= i < |s| :: !IsLowerAscii(s[i])
  }

  lemma UpperHasNoLower(s: string)
    ensures NoLowerAscii(Upper(s))
  {
  }

  lemma UpperOfNoLower(s: string)
    requires NoLowerAscii(s)
    ensures Upper(s) == s
  {
  }

  /** A trimmed string keeps the "no lower-case letter" property. */
  lemma TrimKeepsNoLower(s: string)
    requires NoLowerAscii(s)
    ensures NoLowerAscii(Trim(s))
  {
    var r := Trim(s);
    var i :| SliceAt(s, r, i);
    forall k | 0 <= k < |r|
      ensures !IsLowerAscii(r[k])
    {
      assert r[k] == s[i + k];
    }
  }

  // ---------------------------------------------------------------------
  // split on one character

  function IndexOf(s: string, c: char): (i: nat)
    requires c in s
    ensures i < |s| && s[i] == c && c !in s[..i]
  {
    if s[0] == c then 0 else 1 + IndexOf(s[1..], c)
  }

  /** `s.split(c)` for a one-character separator: the maximal pieces between
      separators, in order, always at least one. */
  function Split(s: string, c: char): (parts: seq<string>)
    ensures |parts| >= 1
    ensures forall k | 0 <= k < |parts| :: c !in parts[k]
    decreases |s|
  {
    if c !in s then [s]
    else
      var i := IndexOf(s, c);
      [s[..i]] + Split(s[i + 1..], c)
  }

  /** `parts.join(c)` */
  function Join(parts: seq<string>, c: char): string
    requires |parts| >= 1
  {
    if |parts| == 1 then parts[0] else parts[0] + [c] + Join(parts[1..], c)
  }

  function Count(s: string, c: char): nat
  {
    if s == [] then 0 else (if s[0] == c then 1 else 0) + Count(s[1..], c)
  }

  lemma CountAppend(a: string, b: string, c: char)
    ensures Count(a + b, c) == Count(a, c) + Count(b, c)
  {
    if a == [] {
      assert a + b == b;
    } else {
      assert (a + b)[0] == a[0];
      assert (a + b)[1..] == a[1..] + b;
      CountAppend(a[1..], b, c);
    }
  }

  lemma CountAbsent(s: string, c: char)
    requires c !in s
    ensures Count(s, c) == 0
  {
    if s != [] {
      CountAbsent(s[1..], c);
    }
  }

  /** Splitting and joining are inverse: joining the pieces restores the
      string, and there is one more piece than there are separators. */
  lemma {:induction false} SplitJoin(s: string, c: char)
    ensures Join(Split(s, c), c) == s
    ensures |Split(s, c)| == Count(s, c) + 1
    decreases |s|
  {
    if c !in s {
      CountAbsent(s, c);
    } else {
      var i := IndexOf(s, c);
      var rest := s[i + 1..];
      SplitJoin(rest, c);
      SplitStep(s, c);
      CountStep(s, i, c);
    }
  }

  lemma SplitStep(s: string, c: char)
    requires c in s
    ensures Join(Split(s, c), c) == s[..IndexOf(s, c)] + [c] + Join(Split(s[IndexOf(s, c) + 1..], c), c)
    ensures |Split(s, c)| == 1 + |Split(s[IndexOf(s, c) + 1..], c)|
  {
    var parts := Split(s, c);
    var i := IndexOf(s, c);
    assert parts == [s[..i]] + Split(s[i + 1..], c);
    assert parts[1..] == Split(s[i + 1..], c);
  }

  lemma CountStep(s: string, i: int, c: char)
    requires 0 <= i < |s| && s[i] == c && c !in s[..i]
    ensures Count(s, c) == 1 + Count(s[i + 1..], c)
    ensures s == s[..i] + [c] + s[i + 1..]
  {
    var rest := s[i + 1..];
    assert s == s[..i] + ([c] + rest);
    CountAppend(s[..i], [c] + rest, c);
    assert ([c] + rest)[1..] == rest;
    CountAbsent(s[..i], c);
  }

  /** The other direction of the round trip: pieces free of the separator
      come back unchanged. */
  lemma {:induction false} JoinSplit(parts: seq<string>, c: char)
    requires |parts| >= 1
    requires forall k | 0 <= k < |parts| :: c !in parts[k]
    ensures Split(Join(parts, c), c) == parts
    decreases |parts|
  {
    if |parts| > 1 {
      var s := Join(parts, c);
      var p := parts[0];
      assert s == p + [c] + Join(parts[1..], c);
      assert s[|p|] == c;
      assert s[..|p|] == p;
      assert IndexOf(s, c) == |p|;
      assert s[|p| + 1..] == Join(parts[1..], c);
      JoinSplit(parts[1..], c);
    }
  }

  /** Splitting at a separator splits the piece list there. */
  lemma SplitAround(a: string, b: string, c: char)
    ensures Split(a + [c] + b, c) == Split(a, c) + Split(b, c)
  {
    var pa := Split(a, c);
    var pb := Split(b, c);
    SplitJoin(a, c);
    SplitJoin(b, c);
    JoinAppend(pa, pb, c);
    JoinSplit(pa + pb, c);
  }

  lemma {:induction false} JoinAppend(p: seq<string>, q: seq<string>, c: char)
    requires |p| >= 1 && |q| >= 1
    ensures Join(p + q, c) == Join(p, c) + [c] + Join(q, c)
    decreases |p|
  {
    if |p| == 1 {
      assert (p + q)[1..] == q;
    } else {
      assert (p + q)[1..] == p[1..] + q;
      JoinAppend(p[1..], q, c);
    }
  }

  /** No piece of `Split(s, c)` is empty exactly when `s` is non-empty,
      neither starts nor ends with `c`, and never holds two `c` in a row. */
  predicate NoEmptyPiece(s: string, c: char)
  {
    && s != []
    && s[0] != c
    && s[|s| - 1] != c
    && forall i | 0 <= i < |s| - 1 :: !(s[i] == c && s[i + 1] == c)
  }

  predicate NoneEmpty(parts: seq<string>)
  {
    forall k | 0 <= k < |parts| :: parts[k] != []
  }

  lemma SplitNoEmptyPiece(s: string, c: char)
    ensures NoneEmpty(Split(s, c)) <==> NoEmptyPiece(s, c)
  {
    if NoneEmpty(Split(s, c)) {
      PiecesNonEmptyOnly(s, c);
    }
    if NoEmptyPiece(s, c) {
      PiecesNonEmptyIf(s, c);
    }
  }

  lemma {:induction false} PiecesNonEmptyOnly(s: string, c: char)
    requires forall k | 0 <= k < |Split(s, c)| :: Split(s, c)[k] != []
    ensures NoEmptyPiece(s, c)
    decreases |s|
  {
    var parts := Split(s, c);
    if c in s {
      var i := IndexOf(s, c);
      var rest := s[i + 1..];
      assert parts == [s[..i]] + Split(rest, c);
      forall k | 0 <= k < |Split(rest, c)|
        ensures Split(rest, c)[k] != []
      {
        assert Split(rest, c)[k] == parts[k + 1];
      }
      PiecesNonEmptyOnly(rest, c);
      assert parts[0] == s[..i] != [];
      assert s[0] == s[..i][0];
      assert s[|s| - 1] == rest[|rest| - 1];
      forall j | 0 <= j < |s| - 1
        ensures !(s[j] == c && s[j + 1] == c)
      {
        if j < i {
          assert s[j] == s[..i][j];
        } else if j == i {
          assert s[j + 1] == rest[0];
        } else {
          assert s[j] == rest[j - i - 1] && s[j + 1] == rest[j - i];
        }
      }
    } else {
      assert parts == [s];
      assert parts[0] != [];
    }
  }

  lemma {:induction false} PiecesNonEmptyIf(s: string, c: char)
    requires NoEmptyPiece(s, c)
    ensures forall k | 0 <= k < |Split(s, c)| :: Split(s, c)[k] != []
    decreases |s|
  {
    var parts := Split(s, c);
    if c in s {
      var i := IndexOf(s, c);
      var rest := s[i + 1..];
      assert parts == [s[..i]] + Split(rest, c);
      assert i > 0;
      assert i < |s| - 1;
      assert rest[0] == s[i + 1];
      assert rest[|rest| - 1] == s[|s| - 1];
      forall j | 0 <= j < |rest| - 1
        ensures !(rest[j] == c && rest[j + 1] == c)
      {
        assert rest[j] == s[i + 1 + j] && rest[j + 1] == s[i + 2 + j];
      }
      PiecesNonEmptyIf(rest, c);
      forall k | 0 <= k < |parts|
        ensures parts[k] != []
      {
        if k > 0 {
          assert parts[k] == Split(rest, c)[k - 1];
        }
      }
    }
  }
}
