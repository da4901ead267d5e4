/** The address pattern `^[^\s@]+@[^\s@]+\.[^\s@]+$` of the contact form's
    email check, as an explicit predicate and as the regular expression's own
    reading, proved to agree. */
module EmailPattern {
  import opened Sequences
  import opened JsText

  /** A code unit the class `[^\s@]` accepts. */
  predicate IsAddressUnit(c: CodeUnit) {
    !IsWhitespace(c) && c != AT
  }

  /** Every code unit of `t` is accepted by `[^\s@]`. */
  predicate AddressUnits(t: JsString) {
    forall k :: 0 <= k < |t| ==> IsAddressUnit(t[k])
  }

  /** `d` has a '.' with at least one code unit before it and one after it. */
  predicate HasInnerDot(d: JsString) {
    exists k :: 0 < k < |d| - 1 && d[k] == DOT
  }

  /** The explicit reading of the pattern: split at the first '@'; the local part
      is non-empty, neither side holds '@' or whitespace, and the domain has an
      inner '.'. */
  predicate IsEmailAddress(s: JsString) {
    match FirstIndex(s, AT)
    case None => false
    case Some(i) =>
      var local, domain := s[..i], s[i + 1..];
      local != [] && AddressUnits(local) && AddressUnits(domain) && HasInnerDot(domain)
  }

  /** What the regular expression itself says: `s` is the concatenation of a
      non-empty run of `[^\s@]`, '@', a non-empty run of `[^\s@]`, '.', and a
      non-empty run of `[^\s@]`, with nothing before or after (the anchors). */
  ghost predicate MatchesEmailRegex(s: JsString) {
    exists i, j :: 0 < i && i + 1 < j && j + 1 < |s| && s[i] == AT && s[j] == DOT &&
      AddressUnits(s[..i]) && AddressUnits(s[i + 1..j]) && AddressUnits(s[j + 1..])
  }

  /** The explicit predicate accepts exactly what the regular expression matches. */
  lemma EmailPatternAgreement(s: JsString)
    ensures IsEmailAddress(s) <==> MatchesEmailRegex(s)
  {
    if IsEmailAddress(s) {
      AcceptedMatchesRegex(s);
    }
    if MatchesEmailRegex(s) {
      var i, j :| 0 < i && i + 1 < j && j + 1 < |s| && s[i] == AT && s[j] == DOT &&
        AddressUnits(s[..i]) && AddressUnits(s[i + 1..j]) && AddressUnits(s[j + 1..]);
      RegexMatchAccepted(s, i, j);
    }
  }

  lemma AcceptedMatchesRegex(s: JsString)
    requires IsEmailAddress(s)
    ensures MatchesEmailRegex(s)
  {
    var i := FirstIndex(s, AT).value;
    var domain := s[i + 1..];
    var k :| 0 < k < |domain| - 1 && domain[k] == DOT;
    var j := i + 1 + k;
    assert s[i + 1..j] == domain[..k];
    assert s[j + 1..] == domain[k + 1..];
    assert s[j] == DOT;
  }

  lemma RegexMatchAccepted(s: JsString, i: nat, j: nat)
    requires 0 < i && i + 1 < j && j + 1 < |s| && s[i] == AT && s[j] == DOT
    requires AddressUnits(s[..i]) && AddressUnits(s[i + 1..j]) && AddressUnits(s[j + 1..])
    ensures IsEmailAddress(s)
  {
    assert AT !in s[..i] by {
      forall k | 0 <= k < i ensures s[..i][k] != AT {
        assert IsAddressUnit(s[..i][k]);
      }
    }
    FirstIndexUnique(s, AT, i);
    var domain := s[i + 1..];
    forall k | 0 <= k < |domain| ensures IsAddressUnit(domain[k]) {
      if i + 1 + k < j {
        assert domain[k] == s[i + 1..j][k];
      } else if i + 1 + k > j {
        assert domain[k] == s[j + 1..][k - (j - i)];
      }
    }
    assert domain[j - i - 1] == DOT;
  }

  /** An accepted address holds exactly one '@'. */
  lemma AcceptedAddressSingleAt(s: JsString)
    requires IsEmailAddress(s)
    ensures Count(s, AT) == 1
  {
    var i := FirstIndex(s, AT).value;
    var local, domain := s[..i], s[i + 1..];
    assert s == local + ([AT] + domain);
    assert AT !in domain by {
      forall k | 0 <= k < |domain| ensures domain[k] != AT {
        assert IsAddressUnit(domain[k]);
      }
    }
    CountAppend(local, [AT] + domain, AT);
    CountAppend([AT], domain, AT);
    CountZero(local, AT);
    CountZero(domain, AT);
  }

  /** An accepted address holds no whitespace and does not start with '@'. */
  lemma AcceptedAddressNoWhitespace(s: JsString)
    requires IsEmailAddress(s)
    ensures forall k :: 0 <= k < |s| ==> !IsWhitespace(s[k])
    ensures s[0] != AT
  {
    var i := FirstIndex(s, AT).value;
    var local, domain := s[..i], s[i + 1..];
    forall k | 0 <= k < |s| ensures !IsWhitespace(s[k]) {
      if k < i {
        assert s[k] == local[k];
      } else if k > i {
        assert s[k] == domain[k - i - 1];
      }
    }
  }

  /** "a@b.c" is accepted. */
  lemma AcceptsShortAddress()
    ensures IsEmailAddress([LETTER_A, AT, LETTER_B, DOT, LETTER_C])
  {
    var s := [LETTER_A, AT, LETTER_B, DOT, LETTER_C];
    FirstIndexUnique(s, AT, 1);
    assert s[2..][1] == DOT;
  }

  /** "a@b" (no dot after the '@'), "@b.c" (empty local part), "a b@c.d"
      (whitespace) and "a@b@c.d" (a second '@') are rejected. */
  lemma RejectsMalformedAddresses()
    ensures !IsEmailAddress([LETTER_A, AT, LETTER_B])
    ensures !IsEmailAddress([AT, LETTER_B, DOT, LETTER_C])
    ensures !IsEmailAddress([LETTER_A, SPACE, LETTER_B, AT, LETTER_C, DOT, LETTER_D])
    ensures !IsEmailAddress([LETTER_A, AT, LETTER_B, AT, LETTER_C, DOT, LETTER_D])
  {
    FirstIndexUnique([LETTER_A, AT, LETTER_B], AT, 1);
    FirstIndexUnique([AT, LETTER_B, DOT, LETTER_C], AT, 0);
    var spaced := [LETTER_A, SPACE, LETTER_B, AT, LETTER_C, DOT, LETTER_D];
    FirstIndexUnique(spaced, AT, 3);
    assert !IsAddressUnit(spaced[..3][1]);
    var twoAts := [LETTER_A, AT, LETTER_B, AT, LETTER_C, DOT, LETTER_D];
    FirstIndexUnique(twoAts, AT, 1);
    assert !IsAddressUnit(twoAts[2..][1]);
  }
}
