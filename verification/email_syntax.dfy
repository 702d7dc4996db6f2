/** The structural e-mail check `validateEmail` (api/utils/validateEmail.js):
    a string with no surrounding white space, exactly one `@`, a dot-atom
    local part and a dotted host name whose last label is alphabetic.  It
    approximates the dot-atom `addr-spec` of RFC 5322 (sections 3.2.3 and
    3.4.1). */
module EmailSyntax {
  import opened Common

  /** RFC 5322 `atext`: letters, digits and ``!#$%&'*+-/=?^_`{|}~``. */
  predicate IsAtext(c: char)
  {
    || IsAlnumAscii(c)
    || c == '!' || c == '#' || c == '$' || c == '%' || c == '&' || c == '\''
    || c == '*' || c == '+' || c == '-' || c == '/' || c == '=' || c == '?'
    || c == '^' || c == '_' || c == '`' || c == '{' || c == '|' || c == '}'
    || c == '~'
  }

  /** The class ``[A-Za-z0-9!#$%&'*+/=?^_`{|}~.-]`` of the final pattern. */
  predicate IsLocalChar(c: char) { IsAtext(c) || c == '.' }

  /** The class `[A-Za-z0-9.-]` of the final pattern. */
  predicate IsDomainChar(c: char) { IsAlnumAscii(c) || c == '.' || c == '-' }

  predicate AllLocalChars(s: string) { forall i | 0 <= i < |s| :: IsLocalChar(s[i]) }
  predicate AllDomainChars(s: string) { forall i | 0 <= i < |s| :: IsDomainChar(s[i]) }

  /** `[A-Za-z]{2,}` */
  predicate AlphaLabel(t: string)
  {
    |t| >= 2 && forall i | 0 <= i < |t| :: IsAlphaAscii(t[i])
  }

  /** The pattern `[A-Za-z0-9.-]+\.[A-Za-z]{2,}` matched against a whole host. */
  predicate SafeDomain(d: string)
  {
    exists j | 0 < j < |d| :: d[j] == '.' && AllDomainChars(d[..j]) && AlphaLabel(d[j + 1..])
  }

  /** The final pattern ``/^[A-Za-z0-9!#$%&'*+/=?^_`{|}~.-]+@[A-Za-z0-9.-]+\.[A-Za-z]{2,}$/``. */
  predicate SafePattern(s: string)
  {
    exists k | 0 < k < |s| :: s[k] == '@' && AllLocalChars(s[..k]) && SafeDomain(s[k + 1..])
  }

  /** Lines 18-19: a non-empty local part that neither starts nor ends with
      a dot and holds no two dots in a row. */
  predicate LocalPartOk(local: string)
  {
    local != [] && !StartsWith(local, ".") && !EndsWith(local, ".") && !Includes(local, "..")
  }

  /** Lines 22-25: a non-empty domain that neither starts nor ends with a
      dot and splits into two or more labels, none empty. */
  predicate DomainPartOk(domain: string)
  {
    && domain != [] && !StartsWith(domain, ".") && !EndsWith(domain, ".")
    && |Split(domain, '.')| >= 2 && NoneEmpty(Split(domain, '.'))
  }

  /** `validateEmail`: every check of the source in its order; a value that
      is not a string is refused outright. */
  function ValidateEmail(email: Field): (ok: bool)
    ensures ok ==> email.Text? && NoWhite(email.s) && Count(email.s, '@') == 1
  {
    if !email.Text? then false
    else
      var s := email.s;
      if Trim(s) != s then false
      else
        var parts := Split(s, '@');
        if |parts| != 2 then false
        else LocalPartOk(parts[0]) && DomainPartOk(parts[1]) && PatternMatch(s)
  }

  /** The final pattern test, with what a match says about the characters. */
  function PatternMatch(s: string): (ok: bool)
    ensures ok ==> NoWhite(s) && Count(s, '@') == 1
  {
    if SafePattern(s) then
      var k :| 0 < k < |s| && s[k] == '@' && AllLocalChars(s[..k]) && SafeDomain(s[k + 1..]);
      PatternChars(s, k);
      true
    else false
  }

  lemma PatternChars(s: string, k: int)
    requires 0 < k < |s| && s[k] == '@' && AllLocalChars(s[..k]) && SafeDomain(s[k + 1..])
    ensures NoWhite(s) && Count(s, '@') == 1
  {
    var d := s[k + 1..];
    SafeDomainChars(d);
    NoWhiteAround(s, k, d);
    PatternOneAt(s, k, d);
  }

  /** The pattern's host part holds domain characters only. */
  lemma SafeDomainChars(d: string)
    requires SafeDomain(d)
    ensures AllDomainChars(d)
  {
    var j :| 0 < j < |d| && d[j] == '.' && AllDomainChars(d[..j]) && AlphaLabel(d[j + 1..]);
    forall i | 0 <= i < |d|
      ensures IsDomainChar(d[i])
    {
      if i < j {
        assert d[i] == d[..j][i];
      } else if i > j {
        assert d[i] == d[j + 1..][i - j - 1];
      }
    }
  }

  /** Local characters, an `@` and domain characters hold no white space. */
  lemma NoWhiteAround(s: string, k: int, d: string)
    requires 0 < k < |s| && s[k] == '@' && AllLocalChars(s[..k]) && d == s[k + 1..] && AllDomainChars(d)
    ensures NoWhite(s)
  {
    forall i | 0 <= i < |s|
      ensures !IsWhite(s[i])
    {
      if i < k {
        assert s[i] == s[..k][i];
      } else if i > k {
        assert s[i] == d[i - k - 1];
      }
    }
  }

  lemma PatternOneAt(s: string, k: int, d: string)
    requires 0 < k < |s| && s[k] == '@' && AllLocalChars(s[..k]) && d == s[k + 1..] && AllDomainChars(d)
    ensures Count(s, '@') == 1
  {
    assert s == s[..k] + ['@'] + d;
    CountAppend(s[..k] + ['@'], d, '@');
    CountAppend(s[..k], ['@'], '@');
    assert '@' !in s[..k] by {
      forall i | 0 <= i < k
        ensures s[..k][i] != '@'
      {
        assert IsLocalChar(s[..k][i]);
      }
    }
    CountAbsent(s[..k], '@');
    assert '@' !in d by {
      forall i | 0 <= i < |d|
        ensures d[i] != '@'
      {
        assert IsDomainChar(d[i]);
      }
    }
    CountAbsent(d, '@');
  }

  // ---------------------------------------------------------------------
  // Reference definition: the RFC 5322 dot-atom address the check accepts

  /** RFC 5322 `dot-atom-text` over the pattern's local characters: one or
      more non-empty atoms separated by single dots. */
  predicate DotAtom(l: string)
  {
    NoEmptyPiece(l, '.') && forall i | 0 <= i < |l| :: IsAtext(l[i]) || l[i] == '.'
  }

  /** A host of at least two non-empty dot-separated labels drawn from
      letters, digits and `-`, whose last label is at least two letters. */
  predicate HostName(d: string)
  {
    var labels := Split(d, '.');
    |labels| >= 2 && NoneEmpty(labels) && AllDomainChars(d)
    && AlphaLabel(labels[|labels| - 1])
  }

  predicate DotAtomAddress(s: string)
  {
    exists k | 0 <= k < |s| :: s[k] == '@' && DotAtom(s[..k]) && HostName(s[k + 1..])
  }

  // ---------------------------------------------------------------------
  // Helper facts

  lemma IncludesDoubleDot(l: string)
    ensures Includes(l, "..") <==> exists i | 0 <= i < |l| - 1 :: l[i] == '.' && l[i + 1] == '.'
  {
    if Includes(l, "..") {
      var i :| 0 <= i <= |l| - 2 && SliceAt(l, "..", i);
      assert l[i..i + 2][0] == l[i] && l[i..i + 2][1] == l[i + 1];
    }
    if exists i | 0 <= i < |l| - 1 :: l[i] == '.' && l[i + 1] == '.' {
      var i :| 0 <= i < |l| - 1 && l[i] == '.' && l[i + 1] == '.';
      assert l[i..i + 2] == "..";
      assert SliceAt(l, "..", i);
    }
  }

  lemma EdgeChecks(l: string)
    requires l != []
    ensures StartsWith(l, ".") <==> l[0] == '.'
    ensures EndsWith(l, ".") <==> l[|l| - 1] == '.'
  {
    assert StartsWith(l, ".") ==> l[..1][0] == l[0];
    assert l[0] == '.' ==> l[..1] == ".";
    assert EndsWith(l, ".") ==> l[|l| - 1..][0] == l[|l| - 1];
    assert l[|l| - 1] == '.' ==> l[|l| - 1..] == ".";
  }

  /** The local-part checks of lines 18-19 say exactly "no empty piece". */
  lemma LocalChecks(l: string)
    ensures (l != [] && !StartsWith(l, ".") && !EndsWith(l, ".") && !Includes(l, ".."))
            <==> NoEmptyPiece(l, '.')
  {
    IncludesDoubleDot(l);
    if l != [] {
      EdgeChecks(l);
    }
  }

  /** A two-piece split puts the separator between the pieces. */
  lemma SplitTwo(s: string, c: char)
    requires |Split(s, c)| == 2
    ensures s == Split(s, c)[0] + [c] + Split(s, c)[1]
  {
    var parts := Split(s, c);
    SplitJoin(s, c);
    assert parts[1..] == [parts[1]];
  }

  /** Splitting at the last separator makes the tail the last piece. */
  lemma SplitLast(a: string, b: string, c: char)
    requires c !in b
    ensures Split(a + [c] + b, c) == Split(a, c) + [b]
  {
    SplitAround(a, b, c);
  }

  lemma SplitWhole(a: string, b: string, c: char)
    requires c !in a && c !in b
    ensures Split(a + [c] + b, c) == [a, b]
  {
    SplitAround(a, b, c);
  }

  /** The only `@` the pattern can match is the one the split found. */
  lemma AtPosition(s: string, local: string, domain: string, k: int)
    requires s == local + ['@'] + domain && '@' !in local
    requires 0 < k < |s| && s[k] == '@' && AllLocalChars(s[..k])
    ensures k == |local|
  {
    assert k <= |local| || !IsLocalChar(s[..k][|local|]);
  }

  lemma DomainFromPattern(d: string)
    requires SafeDomain(d) && NoneEmpty(Split(d, '.'))
    ensures HostName(d)
  {
    var j :| 0 < j < |d| && d[j] == '.' && AllDomainChars(d[..j]) && AlphaLabel(d[j + 1..]);
    var tld := d[j + 1..];
    LastLabelOfPattern(d, j);
    assert AllDomainChars(d) by {
      forall i | 0 <= i < |d|
        ensures IsDomainChar(d[i])
      {
        if i < j {
          assert d[i] == d[..j][i];
        } else if i > j {
          assert d[i] == tld[i - j - 1];
        }
      }
    }
  }

  lemma LastLabelOfPattern(d: string, j: int)
    requires 0 < j < |d| && d[j] == '.' && AlphaLabel(d[j + 1..])
    ensures Split(d, '.') == Split(d[..j], '.') + [d[j + 1..]]
  {
    var tld := d[j + 1..];
    assert d == d[..j] + ['.'] + tld;
    assert '.' !in tld by {
      forall i | 0 <= i < |tld|
        ensures tld[i] != '.'
      {
        assert IsAlphaAscii(tld[i]);
      }
    }
    SplitLast(d[..j], tld, '.');
  }

  lemma PatternFromDomain(d: string)
    requires HostName(d)
    ensures SafeDomain(d)
  {
    var labels := Split(d, '.');
    var head := LastDotSplit(d);
    DomainAtLastDot(d, head, labels[|labels| - 1]);
  }

  /** A host of two or more non-empty labels is the labels before the last
      one, a dot, and the last label. */
  lemma LastDotSplit(d: string) returns (head: string)
    requires |Split(d, '.')| >= 2 && NoneEmpty(Split(d, '.'))
    ensures head != [] && d == head + ['.'] + Split(d, '.')[|Split(d, '.')| - 1]
  {
    var labels := Split(d, '.');
    var n := |labels|;
    var tld := labels[n - 1];
    var front := labels[..n - 1];
    SplitJoin(d, '.');
    assert labels == front + [tld];
    JoinAppend(front, [tld], '.');
    head := Join(front, '.');
    assert front[0] == labels[0];
    JoinFirst(front, '.');
  }

  /** Cutting a host at a dot before an alphabetic last label matches the
      pattern's host part. */
  lemma DomainAtLastDot(d: string, head: string, tld: string)
    requires d == head + ['.'] + tld && head != [] && AllDomainChars(d) && AlphaLabel(tld)
    ensures SafeDomain(d)
  {
    var j := |head|;
    assert d[j] == '.' && d[..j] == head && d[j + 1..] == tld;
    assert AllDomainChars(head) by {
      forall i | 0 <= i < |head|
        ensures IsDomainChar(head[i])
      {
        assert head[i] == d[i];
      }
    }
  }

  lemma JoinFirst(parts: seq<string>, c: char)
    requires |parts| >= 1
    ensures |Join(parts, c)| >= |parts[0]|
  {
  }

  // ---------------------------------------------------------------------
  // The check accepts exactly the dot-atom addresses

  lemma ValidMeansDotAtom(s: string)
    requires ValidateEmail(Text(s))
    ensures DotAtomAddress(s)
  {
    var parts := Split(s, '@');
    assert |parts| == 2 && LocalPartOk(parts[0]) && DomainPartOk(parts[1]) && SafePattern(s);
    SplitTwo(s, '@');
    assert '@' !in parts[0];
    var k :| 0 < k < |s| && s[k] == '@' && AllLocalChars(s[..k]) && SafeDomain(s[k + 1..]);
    DotAtomAt(s, parts[0], parts[1], k);
  }

  /** The split's pieces, checked as lines 18-25 check them, and the
      pattern's `@` make a dot-atom address. */
  lemma DotAtomAt(s: string, local: string, domain: string, k: int)
    requires s == local + ['@'] + domain && '@' !in local
    requires LocalPartOk(local) && NoneEmpty(Split(domain, '.'))
    requires 0 < k < |s| && s[k] == '@' && AllLocalChars(s[..k]) && SafeDomain(s[k + 1..])
    ensures s[k] == '@' && DotAtom(s[..k]) && HostName(s[k + 1..])
    ensures DotAtomAddress(s)
  {
    AtPosition(s, local, domain, k);
    assert s[..k] == local && s[k + 1..] == domain;
    LocalChecks(local);
    DomainFromPattern(domain);
  }

  lemma DotAtomNoWhite(s: string, k: int)
    requires 0 <= k < |s| && s[k] == '@' && DotAtom(s[..k]) && HostName(s[k + 1..])
    ensures NoWhite(s) && '@' !in s[..k] && '@' !in s[k + 1..]
    ensures AllLocalChars(s[..k])
  {
    var local, domain := s[..k], s[k + 1..];
    assert forall i | 0 <= i < |domain| :: IsDomainChar(domain[i]);
    assert NoWhite(s) by {
      forall i | 0 <= i < |s|
        ensures !IsWhite(s[i])
      {
        if i < k {
          assert s[i] == local[i];
        } else if i > k {
          assert s[i] == domain[i - k - 1];
        }
      }
    }
    assert '@' !in local;
    assert '@' !in domain;
  }

  lemma HostChecks(domain: string)
    requires HostName(domain)
    ensures DomainPartOk(domain)
  {
    SplitNoEmptyPiece(domain, '.');
    EdgeChecks(domain);
  }

  /** The source's checks, each already known to pass, accept the string. */
  lemma ValidFromChecks(s: string, local: string, domain: string)
    requires Trim(s) == s && Split(s, '@') == [local, domain]
    requires LocalPartOk(local) && DomainPartOk(domain) && SafePattern(s)
    ensures ValidateEmail(Text(s))
  {
    PatternHolds(s);
  }

  lemma PatternHolds(s: string)
    requires SafePattern(s)
    ensures PatternMatch(s)
  {
  }

  lemma DotAtomMeansValid(s: string)
    requires DotAtomAddress(s)
    ensures ValidateEmail(Text(s))
  {
    var k :| 0 <= k < |s| && s[k] == '@' && DotAtom(s[..k]) && HostName(s[k + 1..]);
    DotAtomNoWhite(s, k);
    Around(s, k);
    DotAtomPartsValid(s, s[..k], s[k + 1..]);
  }

  lemma DotAtomPartsValid(s: string, local: string, domain: string)
    requires s == local + ['@'] + domain
    requires AllLocalChars(local) && '@' !in local && '@' !in domain
    requires DotAtom(local) && HostName(domain)
    ensures ValidateEmail(Text(s))
  {
    PartsNoWhite(s, local, domain);
    TrimOfNoWhite(s);
    SplitWhole(local, domain, '@');
    PartChecks(local, domain);
    PatternOfParts(s, local, domain);
    ValidFromChecks(s, local, domain);
  }

  lemma PartsNoWhite(s: string, local: string, domain: string)
    requires s == local + ['@'] + domain
    requires AllLocalChars(local) && AllDomainChars(domain)
    ensures NoWhite(s)
  {
    forall i | 0 <= i < |s|
      ensures !IsWhite(s[i])
    {
      if i < |local| {
        assert s[i] == local[i] && IsLocalChar(local[i]);
      } else if i > |local| {
        assert s[i] == domain[i - |local| - 1] && IsDomainChar(domain[i - |local| - 1]);
      }
    }
  }

  lemma PartChecks(local: string, domain: string)
    requires DotAtom(local) && HostName(domain)
    ensures LocalPartOk(local) && DomainPartOk(domain)
  {
    LocalChecks(local);
    HostChecks(domain);
  }

  lemma PatternOfParts(s: string, local: string, domain: string)
    requires s == local + ['@'] + domain
    requires AllLocalChars(local) && DotAtom(local) && HostName(domain)
    ensures SafePattern(s)
  {
    PatternFromDomain(domain);
    PatternFromParts(s, local, domain);
  }

  lemma PatternFromParts(s: string, local: string, domain: string)
    requires s == local + ['@'] + domain
    requires local != [] && AllLocalChars(local) && SafeDomain(domain)
    ensures SafePattern(s)
  {
    var k := |local|;
    assert s[..k] == local && s[k + 1..] == domain && s[k] == '@';
  }

  /** `validateEmail` accepts a string exactly when it is a dot-atom address:
      a non-empty dot-atom local part of `atext`, one `@`, and a host of two
      or more non-empty labels whose last label is at least two letters. */
  lemma ValidIffDotAtom(s: string)
    ensures ValidateEmail(Text(s)) <==> DotAtomAddress(s)
  {
    if ValidateEmail(Text(s)) {
      ValidMeansDotAtom(s);
    }
    if DotAtomAddress(s) {
      DotAtomMeansValid(s);
    }
  }

  /** Values that are not strings are refused. */
  lemma NonStringRefused(email: Field)
    requires !email.Text?
    ensures !ValidateEmail(email)
  {
  }

  // ---------------------------------------------------------------------
  // The documented examples

  lemma ExampleAccepted(s: string)
    requires s == "user@example.com"
    ensures ValidateEmail(Text(s))
  {
    var local, domain := "user", "example.com";
    assert s == local + ['@'] + domain;
    ExampleHost(domain);
    ExampleLocal(local);
    DotAtomPartsValid(s, local, domain);
  }

  lemma ExampleHost(domain: string)
    requires domain == "example.com"
    ensures HostName(domain) && '@' !in domain
  {
    var a, b := "example", "com";
    assert domain == a + ['.'] + b;
    assert AllAlnum(a) && AlphaLabel(b);
    TwoLabelHost(a, b);
  }

  /** A letters-and-digits label, a dot and a label of two or more letters
      make a host name. */
  lemma TwoLabelHost(a: string, b: string)
    requires a != [] && AllAlnum(a) && AlphaLabel(b)
    ensures HostName(a + ['.'] + b) && '@' !in a + ['.'] + b
  {
    var d := a + ['.'] + b;
    assert '.' !in a && '.' !in b;
    SplitWhole(a, b, '.');
    forall i | 0 <= i < |d|
      ensures IsDomainChar(d[i]) && d[i] != '@'
    {
      if i < |a| {
        assert d[i] == a[i];
      } else if i > |a| {
        assert d[i] == b[i - |a| - 1];
      }
    }
  }

  lemma ExampleLocal(local: string)
    requires local == "user"
    ensures DotAtom(local) && AllLocalChars(local) && '@' !in local
  {
  }

  lemma RejectedWithoutAt(s: string)
    requires s == "invalid-email" || s == ""
    ensures !ValidateEmail(Text(s))
  {
    assert '@' !in s;
    NoAtRefused(s);
  }

  /** A string without `@` holds no `@` to count, so it is refused. */
  lemma NoAtRefused(s: string)
    requires '@' !in s
    ensures !ValidateEmail(Text(s))
  {
    CountAbsent(s, '@');
  }

  /** A local part with a doubled, leading or trailing dot is refused. */
  lemma RejectedLocalParts(s: string, local: string)
    requires local == "user..name" || local == ".user" || local == "user."
    requires s == local + ['@'] + "example.com"
    ensures !ValidateEmail(Text(s))
  {
    assert '@' !in local && '@' !in "example.com";
    EdgeChecks(local);
    if local == "user..name" {
      IncludesDoubleDot(local);
      assert local[4] == '.' && local[5] == '.';
    }
    BadLocalRefused(local, "example.com");
  }

  /** An address split at its one `@` whose local part fails a check of
      lines 18-19 is refused. */
  lemma BadLocalRefused(local: string, domain: string)
    requires '@' !in local && '@' !in domain && !LocalPartOk(local)
    ensures !ValidateEmail(Text(local + ['@'] + domain))
  {
    SplitWhole(local, domain, '@');
  }
}
