/** The externality test of the send hook (`isExternalDomain` in src/commands/commands.ts):
    an address is external unless its lower-cased form ends with the organisation's
    suffix "@kairos.com". */
module Addresses {

  /** The organisation's address suffix, compared after lower-casing. */
  const OrgSuffix: string := "@kairos.com"

  /** KELVIN SIGN, the one character outside ASCII that `toLowerCase` maps onto a
      letter of `OrgSuffix` (it becomes 'k'). */
  const KelvinSign: char := '\U{212A}'

  /** `String.prototype.toLowerCase` on one character, for ASCII and KELVIN SIGN. */
  function LowerChar(c: char): (r: char)
    ensures 'A' <= c <= 'Z' ==> r as int == c as int + 32
    ensures r != c ==> ('A' <= c <= 'Z' || c == KelvinSign)
    ensures c == KelvinSign ==> r == 'k'
  {
    if 'A' <= c <= 'Z' then (c as int + 32) as char
    else if c == KelvinSign then 'k'
    else c
  }

  /** `String.prototype.toLowerCase`, character by character. */
  function Lower(s: string): (r: string)
    ensures |r| == |s|
    ensures forall i :: 0 <= i < |s| ==> r[i] == LowerChar(s[i])
  {
    seq(|s|, i requires 0 <= i < |s| => LowerChar(s[i]))
  }

  /** `String.prototype.endsWith`. */
  function EndsWith(s: string, suffix: string): (b: bool)
    ensures b ==> |suffix| <= |s| && s == s[..|s| - |suffix|] + suffix
  {
    |suffix| <= |s| && s[|s| - |suffix|..] == suffix
  }

  /** Every string ends with itself appended to any prefix. */
  lemma EndsWithConverse(p: string, suffix: string)
    ensures EndsWith(p + suffix, suffix)
  {
    assert (p + suffix)[|p|..] == suffix;
  }

  /** `isExternalDomain`: the address does not end with the organisation's suffix,
      whatever the letter case. */
  function IsExternalDomain(email: string): (b: bool)
    ensures |email| < |OrgSuffix| ==> b
    ensures EndsWith(email, OrgSuffix) ==> !b
  {
    !EndsWith(Lower(email), OrgSuffix)
  }

  /** Two strings that lower-case alike, such as "Bob@Kairos.COM" and "bob@kairos.com". */
  predicate SameIgnoringCase(a: string, b: string) {
    |a| == |b| && forall i :: 0 <= i < |a| ==> LowerChar(a[i]) == LowerChar(b[i])
  }

  lemma LowerCharIdempotent(c: char)
    ensures LowerChar(LowerChar(c)) == LowerChar(c)
  {
  }

  /** Lower-casing twice is lower-casing once. */
  lemma LowerIdempotent(s: string)
    ensures Lower(Lower(s)) == Lower(s)
  {
    forall i | 0 <= i < |s|
      ensures Lower(Lower(s))[i] == Lower(s)[i]
    {
      LowerCharIdempotent(s[i]);
    }
  }

  /** Changing the letter case of an address never changes the verdict. */
  lemma CaseNeverChangesVerdict(a: string, b: string)
    requires SameIgnoringCase(a, b)
    ensures IsExternalDomain(a) <==> IsExternalDomain(b)
  {
    assert Lower(a) == Lower(b);
  }

  /** A string and its lower-cased form get the same verdict. */
  lemma LowerKeepsVerdict(email: string)
    ensures IsExternalDomain(Lower(email)) <==> IsExternalDomain(email)
  {
    LowerIdempotent(email);
  }

  /** Lower-casing commutes with taking a suffix. */
  lemma LowerSuffix(s: string, k: nat)
    requires k <= |s|
    ensures Lower(s)[k..] == Lower(s[k..])
  {
  }

  /** The organisation's suffix is already in lower case. */
  lemma LowerOrgSuffix()
    ensures Lower(OrgSuffix) == OrgSuffix
  {
  }

  /** Two strings of one length agree ignoring case exactly when they lower-case alike. */
  lemma SameIgnoringCaseIff(a: string, b: string)
    requires |a| == |b|
    ensures SameIgnoringCase(a, b) <==> Lower(a) == Lower(b)
  {
    if Lower(a) == Lower(b) {
      assert forall i :: 0 <= i < |a| ==> LowerChar(a[i]) == Lower(a)[i];
    }
  }

  /** An address is internal exactly when its last eleven characters spell
      "@kairos.com" in some mix of letter cases. */
  lemma InternalIffCasedSuffix(email: string)
    ensures !IsExternalDomain(email) <==>
              (|OrgSuffix| <= |email| && SameIgnoringCase(email[|email| - |OrgSuffix|..], OrgSuffix))
  {
    if |OrgSuffix| <= |email| {
      var tail := email[|email| - |OrgSuffix|..];
      LowerSuffix(email, |email| - |OrgSuffix|);
      LowerOrgSuffix();
      SameIgnoringCaseIff(tail, OrgSuffix);
    }
  }

  lemma OrgAddressIsInternal()
    ensures !IsExternalDomain("alice@kairos.com")
  {
    assert Lower("alice@kairos.com") == "alice@kairos.com";
  }

  lemma UpperCaseOrgAddressIsInternal()
    ensures !IsExternalDomain("Alice@KAIROS.COM")
  {
    assert Lower("Alice@KAIROS.COM") == "alice@kairos.com";
  }

  lemma OtherDomainIsExternal()
    ensures IsExternalDomain("b@external.com")
  {
    assert Lower("b@external.com")[3] == 'x';
  }

  /** The suffix must end the address: a longer domain is external. */
  lemma LongerDomainIsExternal()
    ensures IsExternalDomain("eve@kairos.com.evil.org")
  {
    assert Lower("eve@kairos.com.evil.org")[12] == 'o';
  }

  /** The suffix includes the '@': a bare domain is external. */
  lemma BareDomainIsExternal()
    ensures IsExternalDomain("kairos.com")
  {
  }
}
