/**
  The e-mail shape test shared by the contact-form hook and the footer
  newsletter: the regular expression `^[^\s@]+@[^\s@]+\.[^\s@]+$`.
 */
module EmailPattern {
  import opened Text

  /** A character of the class `[^\s@]`. */
  predicate IsAddressChar(c: char) {
    !IsWhitespace(c) && c != '@'
  }

  /** Every character of `s` is of the class `[^\s@]`. */
  predicate AllAddressChars(s: string) {
    s == [] || (IsAddressChar(s[0]) && AllAddressChars(s[1..]))
  }

  /** `AllAddressChars` read index by index. */
  lemma {:induction false} AllAddressCharsAt(s: string)
    ensures AllAddressChars(s) <==> forall i | 0 <= i < |s| :: IsAddressChar(s[i])
    decreases |s|
  {
    if s != [] {
      AllAddressCharsAt(s[1..]);
      if forall i | 0 <= i < |s| :: IsAddressChar(s[i]) {
        forall i | 0 <= i < |s| - 1 ensures IsAddressChar(s[1..][i]) {
          assert s[1..][i] == s[i + 1];
        }
      }
      if AllAddressChars(s) {
        forall i | 0 < i < |s| ensures IsAddressChar(s[i]) {
          assert s[i] == s[1..][i - 1];
        }
      }
    }
  }

  /** `s` is `local@host.tld` with the `@` at index `at` and the chosen `.` at
      index `dot`, each of the three parts a non-empty run of `[^\s@]`. */
  predicate SplitsAsEmail(s: string, at: int, dot: int) {
    && 0 < at && at + 1 < dot && dot + 1 < |s|
    && s[at] == '@' && s[dot] == '.'
    && AllAddressChars(s[..at])
    && AllAddressChars(s[at + 1..dot])
    && AllAddressChars(s[dot + 1..])
  }

  /** The regular expression read literally: some choice of `@` and `.`
      positions matches the whole string. */
  predicate MatchesEmailPattern(s: string) {
    exists at, dot | 0 <= at < |s| && 0 <= dot < |s| :: SplitsAsEmail(s, at, dot)
  }

  /** The domain has a `.` that is neither its first nor its last character. */
  predicate HasInnerDot(domain: string) {
    exists k | 0 < k < |domain| - 1 :: domain[k] == '.'
  }

  /** The same test stated as properties of the address: no white space,
      exactly one `@`, a non-empty local part, and a domain with an inner `.`. */
  predicate HasEmailShape(s: string) {
    && (forall i | 0 <= i < |s| :: !IsWhitespace(s[i]))
    && '@' in s
    && var at := IndexOf(s, '@');
       && at > 0
       && '@' !in s[at + 1..]
       && HasInnerDot(s[at + 1..])
  }

  /** A match of the pattern at the given positions has the explicit shape. */
  lemma PatternImpliesShape(s: string, at: int, dot: int)
    requires SplitsAsEmail(s, at, dot)
    ensures HasEmailShape(s)
  {
    AllAddressCharsAt(s[..at]);
    AllAddressCharsAt(s[at + 1..dot]);
    AllAddressCharsAt(s[dot + 1..]);
    forall i | 0 <= i < at ensures IsAddressChar(s[i]) {
      assert s[i] == s[..at][i];
    }
    forall i | at < i < dot ensures IsAddressChar(s[i]) {
      assert s[i] == s[at + 1..dot][i - at - 1];
    }
    forall i | dot < i < |s| ensures IsAddressChar(s[i]) {
      assert s[i] == s[dot + 1..][i - dot - 1];
    }
    assert IndexOf(s, '@') == at;
    var domain := s[at + 1..];
    assert domain[dot - at - 1] == '.';
    forall j | 0 <= j < |domain| ensures domain[j] != '@' {
      assert domain[j] == s[at + 1 + j];
    }
  }

  /** An address of the explicit shape matches the pattern. */
  lemma ShapeImpliesPattern(s: string)
    requires HasEmailShape(s)
    ensures MatchesEmailPattern(s)
  {
    var at := IndexOf(s, '@');
    var domain := s[at + 1..];
    var k :| 0 < k < |domain| - 1 && domain[k] == '.';
    var dot := at + 1 + k;
    assert s[dot] == '.';
    forall j | at < j < |s| ensures s[j] != '@' {
      assert s[j] == domain[j - at - 1];
    }
    var local, host, tld := s[..at], s[at + 1..dot], s[dot + 1..];
    forall i | 0 <= i < |local| ensures IsAddressChar(local[i]) {
      assert local[i] == s[i];
    }
    forall i | 0 <= i < |host| ensures IsAddressChar(host[i]) {
      assert host[i] == s[at + 1 + i];
    }
    forall i | 0 <= i < |tld| ensures IsAddressChar(tld[i]) {
      assert tld[i] == s[dot + 1 + i];
    }
    AllAddressCharsAt(local);
    AllAddressCharsAt(host);
    AllAddressCharsAt(tld);
    assert SplitsAsEmail(s, at, dot);
  }

  /** The explicit shape and the literal reading of the pattern agree on every string. */
  lemma ShapeMatchesPattern(s: string)
    ensures HasEmailShape(s) <==> MatchesEmailPattern(s)
  {
    if MatchesEmailPattern(s) {
      var at, dot :| 0 <= at < |s| && 0 <= dot < |s| && SplitsAsEmail(s, at, dot);
      PatternImpliesShape(s, at, dot);
    }
    if HasEmailShape(s) {
      ShapeImpliesPattern(s);
    }
  }

  /** An address with surrounding white space never has the shape: the test
      is applied to the untrimmed value. */
  lemma SurroundingSpaceFails(s: string)
    ensures !HasEmailShape(" " + s) && !HasEmailShape(s + " ")
  {
    assert (" " + s)[0] == ' ';
    assert (s + " ")[|s|] == ' ';
  }

  /** Two examples: `a@b.co` has the shape, `not-an-email` does not. */
  lemma Examples()
    ensures HasEmailShape("a@b.co")
    ensures !HasEmailShape("not-an-email")
    ensures !HasEmailShape("a@b.")
  {
    assert IndexOf("a@b.co", '@') == 1;
    assert "a@b.co"[2..][1] == '.';
    assert forall i | 0 <= i < |"not-an-email"| :: "not-an-email"[i] != '@';
    assert IndexOf("a@b.", '@') == 1;
  }
}
