/**
 * The one email rule of the system, the regular expression `^[^@\s]+@[^@\s]+\.[^@\s]+$`
 * (written `[^\s@]` in the contact controller, the same class). It is used by the admin
 * user update, the registration form, both admin user dialogs and the contact form.
 */
module Email {
  import opened Text

  /** One character of the class `[^@\s]`. */
  predicate EmailChar(c: char) {
    c != '@' && !IsSpace(c)
  }

  predicate Run(t: string) {
    forall k | 0 <= k < |t| :: EmailChar(t[k])
  }

  /** The regular expression read literally: s splits at an '@' (index i) and a '.' (index j)
      into three non-empty runs of `[^@\s]`. */
  ghost predicate MatchesPattern(s: string) {
    exists i, j | 0 < i && i + 1 < j && j + 1 < |s| ::
      s[i] == '@' && s[j] == '.' && Run(s[..i]) && Run(s[i + 1..j]) && Run(s[j + 1..])
  }

  /** The rule as a checker: no whitespace, exactly one '@' and not at the start, and after
      it a domain holding a '.' that is neither its first nor its last character. */
  predicate IsValidEmail(s: string) {
    var at := IndexOf(s, '@');
    && NoSpace(s)
    && 0 < at < |s|
    && '@' !in s[at + 1..]
    && HasInnerDot(s[at + 1..])
  }

  predicate HasInnerDot(d: string) {
    |d| >= 3 && '.' in d[1..|d| - 1]
  }

  /** A slice of a whitespace-free string with no '@' in it is a run of `[^@\s]`. */
  lemma RunOfSlice(s: string, a: int, b: int)
    requires 0 <= a <= b <= |s| && NoSpace(s)
    requires forall k | a <= k < b :: s[k] != '@'
    ensures Run(s[a..b])
  {
    forall k | 0 <= k < b - a ensures EmailChar(s[a..b][k]) {
      assert s[a..b][k] == s[a + k];
    }
  }

  /** A character inside one of the runs of a match is of the class `[^@\s]`. */
  lemma RunChar(s: string, a: int, b: int, k: int)
    requires 0 <= a <= k < b <= |s| && Run(s[a..b])
    ensures EmailChar(s[k])
  {
    assert s[k] == s[a..b][k - a];
  }

  /** Every string the checker accepts matches the regular expression. */
  lemma ValidEmailMatches(s: string)
    requires IsValidEmail(s)
    ensures MatchesPattern(s)
  {
    var i := IndexOf(s, '@');
    var d := s[i + 1..];
    var m :| 0 <= m < |d[1..|d| - 1]| && d[1..|d| - 1][m] == '.';
    var j := i + 2 + m;
    assert d[1..|d| - 1][m] == d[m + 1] == s[j];
    forall k | i < k < |s| ensures s[k] != '@' {
      assert s[k] == d[k - i - 1];
    }
    RunOfSlice(s, 0, i);
    assert s[..i] == s[0..i];
    RunOfSlice(s, i + 1, j);
    RunOfSlice(s, j + 1, |s|);
    assert s[j + 1..] == s[j + 1..|s|];
  }

  /** The characters of a match other than its '@' and its '.' are all of `[^@\s]`. */
  lemma MatchChars(s: string, i: int, j: int)
    requires 0 < i && i + 1 < j && j + 1 < |s|
    requires Run(s[..i]) && Run(s[i + 1..j]) && Run(s[j + 1..])
    ensures forall k | 0 <= k < |s| && k != i && k != j :: EmailChar(s[k])
  {
    assert s[..i] == s[0..i];
    assert s[j + 1..] == s[j + 1..|s|];
    forall k | 0 <= k < |s| && k != i && k != j ensures EmailChar(s[k]) {
      if k < i { RunChar(s, 0, i, k); }
      else if k < j { RunChar(s, i + 1, j, k); }
      else { RunChar(s, j + 1, |s|, k); }
    }
  }

  /** Every string the regular expression matches is accepted by the checker. */
  lemma MatchesIsValidEmail(s: string)
    requires MatchesPattern(s)
    ensures IsValidEmail(s)
  {
    var i, j :| 0 < i && i + 1 < j && j + 1 < |s| && s[i] == '@' && s[j] == '.'
      && Run(s[..i]) && Run(s[i + 1..j]) && Run(s[j + 1..]);
    MatchChars(s, i, j);
    MatchNoSpace(s, i, j);
    MatchFirstAt(s, i, j);
    MatchDomain(s, i, j);
    ValidEmailOf(s, i);
  }

  /** The characters a match holds, as `MatchChars` gives them. */
  predicate MatchShape(s: string, i: int, j: int) {
    && 0 < i && i + 1 < j && j + 1 < |s| && s[i] == '@' && s[j] == '.'
    && forall k | 0 <= k < |s| && k != i && k != j :: EmailChar(s[k])
  }

  lemma MatchNoSpace(s: string, i: int, j: int)
    requires MatchShape(s, i, j)
    ensures NoSpace(s)
  {
    forall k | 0 <= k < |s| ensures !IsSpace(s[k]) {
      if k != i && k != j { assert EmailChar(s[k]); }
    }
  }

  lemma MatchFirstAt(s: string, i: int, j: int)
    requires MatchShape(s, i, j)
    ensures IndexOf(s, '@') == i
  {
    assert forall k | 0 <= k < i :: EmailChar(s[k]);
  }

  lemma MatchDomain(s: string, i: int, j: int)
    requires MatchShape(s, i, j)
    ensures '@' !in s[i + 1..] && HasInnerDot(s[i + 1..])
  {
    var d := s[i + 1..];
    assert d[1..|d| - 1][j - i - 2] == '.';
    forall k | 0 <= k < |d| ensures d[k] != '@' {
      assert d[k] == s[i + 1 + k];
      if i + 1 + k != j { assert EmailChar(s[i + 1 + k]); }
    }
  }

  /** The checker's four conditions, with the first '@' at index i. */
  lemma ValidEmailOf(s: string, i: nat)
    requires NoSpace(s) && IndexOf(s, '@') == i && 0 < i < |s|
    requires '@' !in s[i + 1..] && HasInnerDot(s[i + 1..])
    ensures IsValidEmail(s)
  {
  }

  /** The checker accepts exactly the strings the regular expression matches. */
  lemma IsValidEmailIffMatches(s: string)
    ensures IsValidEmail(s) <==> MatchesPattern(s)
  {
    if IsValidEmail(s) { ValidEmailMatches(s); }
    if MatchesPattern(s) { MatchesIsValidEmail(s); }
  }

  /** A valid address has no whitespace at all, so trimming it changes nothing and it is not blank. */
  lemma ValidEmailIsTrimmed(s: string)
    requires IsValidEmail(s)
    ensures Trim(s) == s && !IsBlank(s)
  {
    TrimOfNoSpace(s);
  }
}
