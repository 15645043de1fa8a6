/**
 * A supplier's contact person and its validation attributes: [Required] on
 * all three fields, the Philippine mobile pattern on Phone and the email
 * pattern on Email, both written out as predicates over ASCII \w and \d.
 */
module ContactPersonModel {
  import opened Wrappers
  import opened Text
  import opened Common

  datatype ContactPerson = ContactPerson(name: Option<string>, email: Option<string>, phone: Option<string>)

  predicate IsDigit(c: char) {
    '0' <= c <= '9'
  }

  /** s has the layout of shape, where '#' stands for one digit (\d) and
      every other character of shape stands for itself. */
  predicate FitsShape(s: string, shape: string) {
    |s| == |shape| &&
    forall i | 0 <= i < |s| :: if shape[i] == '#' then IsDigit(s[i]) else s[i] == shape[i]
  }

  /** ^(\+63|0)9\d{9}$ */
  predicate IsMobileNumber(s: string) {
    FitsShape(s, "09#########") || FitsShape(s, "+639#########")
  }

  /** Every accepted phone number has 11 or 13 characters. */
  lemma MobileNumberLength(s: string)
    requires IsMobileNumber(s)
    ensures |s| == 11 || |s| == 13
  {
  }

  /** A mobile number has no white space at either end, so trimming keeps it. */
  lemma MobileNumberIsTrimmed(s: string)
    requires IsMobileNumber(s)
    ensures IsTrimmed(s)
  {
  }

  /** \w, over ASCII. */
  predicate IsWordChar(c: char) {
    ('a' <= c <= 'z') || ('A' <= c <= 'Z') || IsDigit(c) || c == '_'
  }

  /** [\w-\.] */
  predicate IsLocalChar(c: char) {
    IsWordChar(c) || c == '-' || c == '.'
  }

  /** [\w-] */
  predicate IsLabelChar(c: char) {
    IsWordChar(c) || c == '-'
  }

  predicate AllLabelChars(s: string) {
    forall i | 0 <= i < |s| :: IsLabelChar(s[i])
  }

  /** [\w-\.]+ */
  predicate IsLocalPart(s: string) {
    |s| > 0 && forall i | 0 <= i < |s| :: IsLocalChar(s[i])
  }

  /** [\w-]{2,4} */
  predicate IsTopLevel(s: string) {
    2 <= |s| <= 4 && AllLabelChars(s)
  }

  /** The position of the first c in s, or |s| when there is none. */
  function IndexOf(s: string, c: char): (r: nat)
    ensures r <= |s|
    ensures forall j | 0 <= j < r :: s[j] != c
    ensures r < |s| ==> s[r] == c
  {
    if s == [] then 0 else if s[0] == c then 0 else 1 + IndexOf(s[1..], c)
  }

  /** ([\w-]+\.)+[\w-]{2,4}: a non-empty label and a dot, followed either by
      the final segment or by more of the same. A label holds no dot, so it
      ends at the first one. */
  predicate IsDomain(d: string)
    decreases |d|
  {
    var k := IndexOf(d, '.');
    0 < k < |d| && AllLabelChars(d[..k]) && (IsTopLevel(d[k + 1..]) || IsDomain(d[k + 1..]))
  }

  /** ^[\w-\.]+@([\w-]+\.)+[\w-]{2,4}$. The local part holds no '@', so it
      ends at the first one. */
  predicate IsEmail(s: string) {
    var i := IndexOf(s, '@');
    i < |s| && IsLocalPart(s[..i]) && IsDomain(s[i + 1..])
  }

  /** The domain pattern accepts label characters and dots only. */
  lemma {:induction false} DomainChars(d: string)
    requires IsDomain(d)
    ensures forall i | 0 <= i < |d| :: IsLabelChar(d[i]) || d[i] == '.'
    decreases |d|
  {
    var k := IndexOf(d, '.');
    var rest := d[k + 1..];
    if !IsTopLevel(rest) {
      DomainChars(rest);
    }
    forall i | 0 <= i < |d| ensures IsLabelChar(d[i]) || d[i] == '.' {
      if i < k {
        assert d[i] == d[..k][i];
      } else if i > k {
        assert d[i] == rest[i - k - 1];
      }
    }
  }

  /** Positions i and i + 1 of s both hold a dot. */
  predicate DoubleDotAt(s: string, i: nat)
    requires i + 1 < |s|
  {
    s[i] == '.' && s[i + 1] == '.'
  }

  /** No domain the pattern accepts starts or ends with a dot, or has two
      dots in a row. */
  lemma {:induction false} DomainDots(d: string)
    requires IsDomain(d)
    ensures d[0] != '.' && d[|d| - 1] != '.'
    ensures forall i | 0 <= i < |d| - 1 :: !DoubleDotAt(d, i)
    decreases |d|
  {
    var k := IndexOf(d, '.');
    var head, rest := d[..k], d[k + 1..];
    assert d[0] == head[0];
    assert d[|d| - 1] == rest[|rest| - 1];
    if !IsTopLevel(rest) {
      DomainDots(rest);
    }
    forall i | 0 <= i < |d| - 1 ensures !DoubleDotAt(d, i) {
      if i < k {
        assert d[i] == head[i];
      } else if i == k {
        assert d[i + 1] == rest[0];
      } else {
        assert !DoubleDotAt(rest, i - k - 1);
        assert d[i] == rest[i - k - 1] && d[i + 1] == rest[i - k];
      }
    }
  }

  /** A valid email holds exactly one '@'. */
  lemma EmailHasOneAt(s: string)
    requires IsEmail(s)
    ensures multiset(s)['@'] == 1
  {
    var i := IndexOf(s, '@');
    var local, domain := s[..i], s[i + 1..];
    DomainChars(domain);
    assert s == local + ['@'] + domain;
    NoAtIn(local);
    NoAtIn(domain);
  }

  /** Around the '@' of a valid email: before it a non-empty run of word
      characters, '-' and '.'; after it a domain that does not start or end
      with a dot and never has two dots in a row. */
  lemma EmailParts(s: string, i: nat)
    requires IsEmail(s) && i == IndexOf(s, '@')
    ensures 0 < i < |s| - 1 && s[i] == '@' && IsLocalPart(s[..i])
    ensures s[i + 1] != '.' && s[|s| - 1] != '.'
    ensures forall j | i < j < |s| - 1 :: !DoubleDotAt(s, j)
  {
    var domain := s[i + 1..];
    assert IsLocalPart(s[..i]) && IsDomain(domain);
    DomainDots(domain);
    assert 2 <= |domain| && s[i + 1] == domain[0] && s[|s| - 1] == domain[|domain| - 1];
    NoDoubleDotAfter(s, i + 1);
  }

  /** A suffix of s without a doubled dot leaves none from its start on. */
  lemma NoDoubleDotAfter(s: string, start: nat)
    requires start <= |s|
    requires forall i | 0 <= i < |s[start..]| - 1 :: !DoubleDotAt(s[start..], i)
    ensures forall j | start <= j < |s| - 1 :: !DoubleDotAt(s, j)
  {
    var d := s[start..];
    forall j | start <= j < |s| - 1 ensures !DoubleDotAt(s, j) {
      assert !DoubleDotAt(d, j - start);
      assert s[j] == d[j - start] && s[j + 1] == d[j - start + 1];
    }
  }

  /** Neither half of an email can hold an '@'. */
  lemma NoAtIn(s: string)
    requires forall i | 0 <= i < |s| :: IsLocalChar(s[i])
    ensures multiset(s)['@'] == 0
  {
    assert '@' !in s;
  }

  /** An email the pattern accepts has no white space at either end. */
  lemma EmailIsTrimmed(s: string)
    requires IsEmail(s)
    ensures IsTrimmed(s)
  {
    var i := IndexOf(s, '@');
    DomainDots(s[i + 1..]);
    DomainChars(s[i + 1..]);
    assert s[0] == s[..i][0];
    assert s[|s| - 1] == s[i + 1..][|s| - i - 2];
  }

  /** The ModelState errors of one contact person. The keys are those of the
      contact at position index of the form's list, or the bare keys when the
      contact is validated on its own (index None). */
  function ContactErrors(c: ContactPerson, index: Option<nat>): (r: set<Error>)
    ensures r == {} <==> IsValidContact(c)
  {
    var nameKey := if index.Some? then ContactName(index.value) else Name;
    var emailKey := if index.Some? then ContactEmail(index.value) else Email;
    var phoneKey := if index.Some? then ContactPhone(index.value) else Phone;
    Check(Required(c.name), Invalid(nameKey))
    + Check(Required(c.email) && MatchesIfPresent(c.email, IsEmail), Invalid(emailKey))
    + Check(Required(c.phone) && MatchesIfPresent(c.phone, IsMobileNumber), Invalid(phoneKey))
  }

  /** All three attributes of ContactPerson accept c. */
  predicate IsValidContact(c: ContactPerson) {
    && Required(c.name)
    && Required(c.email) && MatchesIfPresent(c.email, IsEmail)
    && Required(c.phone) && MatchesIfPresent(c.phone, IsMobileNumber)
  }

  /** Required and the pattern together: the value is present and matches. */
  lemma ValidContactFields(c: ContactPerson)
    ensures IsValidContact(c) <==>
      Required(c.name) && c.email.Some? && IsEmail(c.email.value) &&
      c.phone.Some? && IsMobileNumber(c.phone.value)
  {
    if c.email.Some? && IsEmail(c.email.value) {
      assert !IsWhiteSpace(c.email.value[IndexOf(c.email.value, '@')]);
    }
    if c.phone.Some? && IsMobileNumber(c.phone.value) {
      assert !IsWhiteSpace(c.phone.value[1]);
    }
  }

  /** The Suppliers controller trims Name, Email and Phone of every contact. */
  function TrimContact(c: ContactPerson): (t: ContactPerson)
    ensures t.name == TrimOpt(c.name) && t.email == TrimOpt(c.email) && t.phone == TrimOpt(c.phone)
  {
    ContactPerson(TrimOpt(c.name), TrimOpt(c.email), TrimOpt(c.phone))
  }

  /** Trimming a value [Required] accepts leaves one it still accepts. */
  lemma TrimKeepsRequired(s: Option<string>)
    requires Required(s)
    ensures Required(TrimOpt(s))
  {
    RequiredIffTrimmedNonEmpty(s);
    var n := TrimOpt(s).value;
    assert !IsWhiteSpace(n[0]);
  }

  /** A contact the binder accepted untrimmed is accepted again after
      trimming, and trimming leaves its email and phone as they were. */
  lemma TrimKeepsValidContact(c: ContactPerson)
    requires IsValidContact(c)
    ensures IsValidContact(TrimContact(c))
    ensures TrimContact(c).email == c.email && TrimContact(c).phone == c.phone
  {
    ValidContactFields(c);
    EmailIsTrimmed(c.email.value);
    TrimOfTrimmed(c.email.value);
    MobileNumberIsTrimmed(c.phone.value);
    TrimOfTrimmed(c.phone.value);
    TrimKeepsRequired(c.name);
  }
}
