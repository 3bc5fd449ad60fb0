/**
 * The registration and authentication validators of
 * lib/validation/security-schemas.ts. Every check of a field runs and every
 * failure is listed; an object's own refinement (the confirmation fields) runs
 * after its keys, even when a key already failed.
 *
 * Three things the validators consult are parameters here: the email check
 * (`isEmail`), the current instant in milliseconds (`now`) and the current
 * calendar year (`currentYear`).
 */
module SecuritySchemas {
  import opened Wrappers
  import opened Text
  import opened Issues
  import Calendar
  import Schemas

  // ---------------------------------------------------------------------
  // passwordSchema

  predicate HasUpper(s: string) { exists i :: 0 <= i < |s| && IsUpper(s[i]) }
  predicate HasLower(s: string) { exists i :: 0 <= i < |s| && IsLower(s[i]) }
  predicate HasDigit(s: string) { exists i :: 0 <= i < |s| && IsDigit(s[i]) }
  /** `[^A-Za-z0-9]`: any character that is not an ASCII letter or digit. */
  predicate HasSpecial(s: string) { exists i :: 0 <= i < |s| && !IsAlnum(s[i]) }

  /** The deny-list: the digit run 123456 as written, four words in any letter case. */
  predicate HasCommonPattern(pw: string)
  {
    Contains(pw, "123456")
      || Contains(Lower(pw), "password")
      || Contains(Lower(pw), "qwerty")
      || Contains(Lower(pw), "admin")
      || Contains(Lower(pw), "letmein")
  }

  const PasswordTooShort := "Password must be at least 12 characters"
  const PasswordTooLong := "Password must be less than 128 characters"
  const PasswordNoUpper := "Password must contain at least one uppercase letter"
  const PasswordNoLower := "Password must contain at least one lowercase letter"
  const PasswordNoDigit := "Password must contain at least one number"
  const PasswordNoSpecial := "Password must contain at least one special character"
  const PasswordCommon := "Password contains common patterns and is not secure"

  function PasswordIssues(pw: string): seq<Issue>
  {
    Check(|pw| >= 12, PasswordTooShort)
      + Check(|pw| <= 128, PasswordTooLong)
      + Check(HasUpper(pw), PasswordNoUpper)
      + Check(HasLower(pw), PasswordNoLower)
      + Check(HasDigit(pw), PasswordNoDigit)
      + Check(HasSpecial(pw), PasswordNoSpecial)
      + Check(!HasCommonPattern(pw), PasswordCommon)
  }

  /** The password policy: 12 to 128 characters, all four character classes, nothing from the deny-list. */
  lemma PasswordAcceptance(pw: string)
    ensures PasswordIssues(pw) == [] <==>
      12 <= |pw| <= 128 && HasUpper(pw) && HasLower(pw) && HasDigit(pw) && HasSpecial(pw) && !HasCommonPattern(pw)
  {
  }

  /** Every password issue is about the password itself, so an object reports it at the password's key. */
  lemma PasswordIssuesAtRoot(pw: string)
    ensures forall x :: x in PasswordIssues(pw) ==> x.path == []
  {
  }

  lemma UpperDigitRun(s: string, i: int)
    requires 0 <= i
    ensures OccursAt(Upper(s), "123456", i) <==> OccursAt(s, "123456", i)
  {
    if 0 <= i && i + 6 <= |s| {
      if OccursAt(s, "123456", i) {
        assert Upper(s)[i..i + 6] == "123456" by {
          forall k | 0 <= k < 6 ensures Upper(s)[i..i + 6][k] == "123456"[k] {
            assert s[i..i + 6][k] == "123456"[k];
          }
        }
      }
      if OccursAt(Upper(s), "123456", i) {
        assert s[i..i + 6] == "123456" by {
          forall k | 0 <= k < 6 ensures s[i..i + 6][k] == "123456"[k] {
            assert Upper(s)[i..i + 6][k] == "123456"[k];
          }
        }
      }
    }
  }

  lemma LowerUpper(s: string)
    ensures Lower(Upper(s)) == Lower(s)
  {
  }

  /** The deny-list does not care about letter case: capitalising a password changes nothing. */
  lemma CommonPatternIgnoresCase(pw: string)
    ensures HasCommonPattern(Upper(pw)) <==> HasCommonPattern(pw)
  {
    LowerUpper(pw);
    ContainsIff(Upper(pw), "123456");
    ContainsIff(pw, "123456");
    forall i | 0 <= i ensures OccursAt(Upper(pw), "123456", i) <==> OccursAt(pw, "123456", i) {
      UpperDigitRun(pw, i);
    }
  }

  /** A word of the deny-list with a letter the password lacks in both cases cannot occur in it. */
  lemma WordAbsent(pw: string, word: string, c: char)
    requires IsLower(c) && c in word && c !in pw && UpperChar(c) !in pw
    ensures !Contains(Lower(pw), word)
  {
    LowerLacks(pw, c);
    AbsentCharExcludes(Lower(pw), word, c);
  }

  /**
   * A password that lacks one digit of 123456 and, in both cases, one letter of
   * each word is clear of the deny-list.
   */
  lemma NotCommonByLetters(pw: string, d: char, p: char, q: char, a: char, l: char)
    requires d in "123456" && p in "password" && q in "qwerty" && a in "admin" && l in "letmein"
    requires IsLower(p) && IsLower(q) && IsLower(a) && IsLower(l)
    requires forall i :: 0 <= i < |pw| ==>
      pw[i] != d && pw[i] != p && pw[i] != UpperChar(p) && pw[i] != q && pw[i] != UpperChar(q)
      && pw[i] != a && pw[i] != UpperChar(a) && pw[i] != l && pw[i] != UpperChar(l)
    ensures !HasCommonPattern(pw)
  {
    AbsentCharExcludes(pw, "123456", d);
    WordAbsent(pw, "password", p);
    WordAbsent(pw, "qwerty", q);
    WordAbsent(pw, "admin", a);
    WordAbsent(pw, "letmein", l);
  }

  /** With the letter and digit classes present and no common pattern, only the length and the special character can fail. */
  lemma ClassesPass(pw: string)
    requires |pw| <= 128 && HasUpper(pw) && HasLower(pw) && HasDigit(pw) && !HasCommonPattern(pw)
    ensures PasswordIssues(pw) == Check(|pw| >= 12, PasswordTooShort) + Check(HasSpecial(pw), PasswordNoSpecial)
  {
  }

  /** "Sh0rt!" meets every rule but the length. */
  lemma ShortPasswordReport()
    ensures PasswordIssues("Sh0rt!") == [Issue([], PasswordTooShort)]
  {
    var pw := "Sh0rt!";
    assert HasUpper(pw) && HasLower(pw) && HasDigit(pw) && HasSpecial(pw) by {
      assert IsUpper(pw[0]) && IsLower(pw[1]) && IsDigit(pw[2]) && !IsAlnum(pw[5]);
    }
    assert !HasCommonPattern(pw) by { ShortPasswordNotCommon(); }
    ClassesPass(pw);
  }

  lemma ShortPasswordNotCommon()
    ensures !HasCommonPattern("Sh0rt!")
  {
    NotCommonByLetters("Sh0rt!", '1', 'p', 'q', 'a', 'l');
  }

  /** "NoSpecialChar123" is long enough and mixed but has no special character. */
  lemma NoSpecialPasswordReport()
    ensures PasswordIssues("NoSpecialChar123") == [Issue([], PasswordNoSpecial)]
  {
    var pw := "NoSpecialChar123";
    assert HasUpper(pw) && HasLower(pw) && HasDigit(pw) by {
      assert IsUpper(pw[0]) && IsLower(pw[1]) && IsDigit(pw[13]);
    }
    assert !HasSpecial(pw) by { NoSpecialPasswordIsAlnum(); }
    assert !HasCommonPattern(pw) by { NoSpecialPasswordNotCommon(); }
    ClassesPass(pw);
  }

  lemma NoSpecialPasswordNotCommon()
    ensures !HasCommonPattern("NoSpecialChar123")
  {
    NotCommonByLetters("NoSpecialChar123", '4', 'w', 'q', 'd', 't');
  }

  lemma NoSpecialPasswordIsAlnum()
    ensures !HasSpecial("NoSpecialChar123")
  {
    var pw := "NoSpecialChar123";
    assert forall i :: 0 <= i < |pw| ==> IsAlnum(pw[i]);
  }

  /** "Str0ng&Secure#Pass1" is accepted. */
  lemma StrongPasswordAccepted()
    ensures PasswordIssues("Str0ng&Secure#Pass1") == []
  {
    var pw := "Str0ng&Secure#Pass1";
    assert HasUpper(pw) && HasLower(pw) && HasDigit(pw) && HasSpecial(pw) by {
      assert IsUpper(pw[0]) && IsLower(pw[1]) && IsDigit(pw[3]) && !IsAlnum(pw[6]);
    }
    assert !HasCommonPattern(pw) by { StrongPasswordNotCommon(); }
    ClassesPass(pw);
  }

  lemma StrongPasswordNotCommon()
    ensures !HasCommonPattern("Str0ng&Secure#Pass1")
  {
    NotCommonByLetters("Str0ng&Secure#Pass1", '2', 'w', 'q', 'd', 'l');
  }

  /** "Password123!" meets every class and length rule and is refused for its first word alone. */
  lemma CommonPasswordReport()
    ensures PasswordIssues("Password123!") == [Issue([], PasswordCommon)]
  {
    var pw := "Password123!";
    assert IsUpper(pw[0]) && IsLower(pw[1]) && IsDigit(pw[8]) && !IsAlnum(pw[11]);
    CommonPasswordFound();
  }

  lemma CommonPasswordFound()
    ensures HasCommonPattern("Password123!")
  {
    var pw := "Password123!";
    assert OccursAt(Lower(pw), "password", 0) by {
      assert Lower(pw)[0..8] == "password";
    }
    OccursAtWitness(Lower(pw), "password", 0);
  }

  // ---------------------------------------------------------------------
  // usernameSchema

  const UsernameTooShort := "Username must be at least 8 characters"
  const UsernameTooLong := "Username must be less than 30 characters"
  const UsernameBadChars := "Username can only contain letters, numbers, and underscores"
  const UsernameLeadingDigit := "Username cannot start with a number"

  /** `^[a-zA-Z0-9_]+$`. */
  predicate IsWordString(s: string)
  {
    |s| >= 1 && forall i :: 0 <= i < |s| ==> IsWordChar(s[i])
  }

  /** `^[0-9]`. */
  predicate StartsWithDigit(s: string)
  {
    |s| >= 1 && IsDigit(s[0])
  }

  function UsernameIssues(u: string): seq<Issue>
  {
    Check(|u| >= 8, UsernameTooShort)
      + Check(|u| <= 30, UsernameTooLong)
      + Check(IsWordString(u), UsernameBadChars)
      + Check(!StartsWithDigit(u), UsernameLeadingDigit)
  }

  /**
   * A username is 8 to 30 letters, digits and underscores starting with a letter
   * or an underscore. The limit 30 itself is allowed, whatever the message says.
   */
  lemma UsernameAcceptance(u: string)
    ensures UsernameIssues(u) == [] <==>
      8 <= |u| <= 30 && (forall i :: 0 <= i < |u| ==> IsWordChar(u[i])) && (IsUpper(u[0]) || IsLower(u[0]) || u[0] == '_')
  {
  }

  /** "9startswithdigit" fails only the first-character rule. */
  lemma LeadingDigitUsernameReport()
    ensures UsernameIssues("9startswithdigit") == [Issue([], UsernameLeadingDigit)]
  {
    var u := "9startswithdigit";
    assert forall i :: 0 <= i < |u| ==> IsWordChar(u[i]);
  }

  /** "valid_user1" is accepted. */
  lemma ValidUsernameAccepted()
    ensures UsernameIssues("valid_user1") == []
  {
    var u := "valid_user1";
    assert forall i :: 0 <= i < |u| ==> IsWordChar(u[i]);
  }

  /** "short" fails only the length rule. */
  lemma ShortUsernameReport()
    ensures UsernameIssues("short") == [Issue([], UsernameTooShort)]
  {
    var u := "short";
    assert forall i :: 0 <= i < |u| ==> IsWordChar(u[i]);
  }

  // ---------------------------------------------------------------------
  // governmentIdSchema

  /** `type` is the field named type in the form. */
  datatype GovernmentId = GovernmentId(kind: string, number: string, expiryDate: string)

  const IdTypes: seq<string> := ["passport", "drivers_license", "national_id"]
  const ExpiryBadFormat := "Invalid date format (YYYY-MM-DD)"
  const ExpiryPassed := "ID must not be expired"

  /** `new Date(date) > new Date()`: false for an Invalid Date. */
  predicate NotExpired(date: string, now: int)
  {
    match Calendar.IsoDateInstant(date)
    case Some(t) => t > now
    case None => false
  }

  function ExpiryDateIssues(date: string, now: int): seq<Issue>
  {
    Check(Calendar.IsIsoDateShape(date), ExpiryBadFormat) + Check(NotExpired(date, now), ExpiryPassed)
  }

  function GovernmentIdIssues(g: GovernmentId, now: int): seq<Issue>
  {
    At("type", EnumCheck(IdTypes, g.kind))
      + At("number", Check(|g.number| >= 6, "ID number must be at least 6 characters"))
      + At("expiryDate", ExpiryDateIssues(g.expiryDate, now))
  }

  /** An ID is accepted exactly for a known type, a number of six or more characters and a well-formed expiry still ahead of `now`. */
  lemma GovernmentIdAcceptance(g: GovernmentId, now: int)
    ensures GovernmentIdIssues(g, now) == [] <==>
      g.kind in IdTypes && |g.number| >= 6 && Calendar.IsIsoDateShape(g.expiryDate) && NotExpired(g.expiryDate, now)
  {
  }

  /** The year, month and day written in a `YYYY-MM-DD` string. */
  function IsoFields(date: string): (int, int, int)
    requires Calendar.IsIsoDateShape(date)
  {
    (DecimalValue(date[..4]), DecimalValue(date[5..7]), DecimalValue(date[8..]))
  }

  /** A well-formed expiry date is accepted exactly while the current instant is before its UTC midnight. */
  lemma ExpiryAccepted(date: string, now: int)
    requires Calendar.IsIsoDateShape(date)
    requires var (y, m, d) := IsoFields(date); Calendar.IsCalendarDate(y, m, d)
    ensures var (y, m, d) := IsoFields(date);
      ExpiryDateIssues(date, now) == [] <==> now < Calendar.DayNumber(y, m, d) * Calendar.MsPerDay
  {
  }

  /** A string that is not `YYYY-MM-DD` draws both the format issue and the expiry issue. */
  lemma MalformedExpiryReport(date: string, now: int)
    requires !Calendar.IsIsoDateShape(date)
    ensures ExpiryDateIssues(date, now) == [Issue([], ExpiryBadFormat), Issue([], ExpiryPassed)]
  {
  }

  /** An ID valid now stays valid for any later expiry date. */
  lemma LaterExpiryStillValid(a: string, b: string, now: int)
    requires Calendar.IsIsoDateShape(a) && Calendar.IsIsoDateShape(b)
    requires var (y, m, d) := IsoFields(a); Calendar.IsCalendarDate(y, m, d)
    requires var (y, m, d) := IsoFields(b); Calendar.IsCalendarDate(y, m, d)
    requires var (y1, m1, d1) := IsoFields(a); var (y2, m2, d2) := IsoFields(b);
      Calendar.DateBefore(y1, m1, d1, y2, m2, d2)
    requires ExpiryDateIssues(a, now) == []
    ensures ExpiryDateIssues(b, now) == []
  {
    var (y1, m1, d1) := IsoFields(a);
    var (y2, m2, d2) := IsoFields(b);
    ExpiryAccepted(a, now);
    ExpiryAccepted(b, now);
    Calendar.DayNumberIncreasing(y1, m1, d1, y2, m2, d2);
  }

  /** February 30 is read as March 1, not refused. */
  lemma February30RollsOver()
    ensures Calendar.IsoDateInstant("2026-02-30") == Calendar.IsoDateInstant("2026-03-02")
  {
    var feb, mar := "2026-02-30", "2026-03-02";
    assert Calendar.IsIsoDateShape(feb) && IsoFields(feb) == (2026, 2, 30) by {
      IsoShapeOfDigits(feb);
      IsoLiteral(feb);
    }
    assert Calendar.IsIsoDateShape(mar) && IsoFields(mar) == (2026, 3, 2) by {
      IsoShapeOfDigits(mar);
      IsoLiteral(mar);
    }
    IsoInstantOfFields(feb);
    IsoInstantOfFields(mar);
    assert Calendar.DayNumber(2026, 2, 30) == Calendar.DayNumber(2026, 3, 2);
  }

  /** A `YYYY-MM-DD` string with month 01-12 and day 01-31 denotes UTC midnight of the day its fields count to. */
  lemma IsoInstantOfFields(date: string)
    requires Calendar.IsIsoDateShape(date)
    requires var (_, m, d) := IsoFields(date); 1 <= m <= 12 && 1 <= d <= 31
    ensures var (y, m, d) := IsoFields(date);
      Calendar.IsoDateInstant(date) == Some(Calendar.DayNumber(y, m, d) * Calendar.MsPerDay)
  {
  }

  lemma IsoShapeOfDigits(date: string)
    requires |date| == 10 && date[4] == '-' && date[7] == '-'
    requires IsDigit(date[0]) && IsDigit(date[1]) && IsDigit(date[2]) && IsDigit(date[3])
    requires IsDigit(date[5]) && IsDigit(date[6]) && IsDigit(date[8]) && IsDigit(date[9])
    ensures Calendar.IsIsoDateShape(date)
  {
  }

  /** The fields of a `YYYY-MM-DD` string, digit by digit. */
  lemma IsoLiteral(date: string)
    requires Calendar.IsIsoDateShape(date)
    ensures IsoFields(date) == (
      1000 * DigitValue(date[0]) + 100 * DigitValue(date[1]) + 10 * DigitValue(date[2]) + DigitValue(date[3]),
      10 * DigitValue(date[5]) + DigitValue(date[6]),
      10 * DigitValue(date[8]) + DigitValue(date[9]))
  {
    DecimalValue4(date[..4]);
    DecimalValue2(date[5..7]);
    DecimalValue2(date[8..]);
  }

  // ---------------------------------------------------------------------
  // addressSchema

  /** The proof-of-residence upload is not part of this record. */
  datatype Address = Address(street: string, city: string, state: string, zipCode: string, country: string)

  /** `^\d{5}(-\d{4})?$`. */
  predicate IsZipCode(z: string)
  {
    (|z| == 5 && AllDigits(z)) || (|z| == 10 && AllDigits(z[..5]) && z[5] == '-' && AllDigits(z[6..]))
  }

  function AddressIssues(a: Address): seq<Issue>
  {
    At("street", Check(|a.street| >= 5, "Street address must be at least 5 characters"))
      + At("city", Check(|a.city| >= 2, "City must be at least 2 characters"))
      + At("state", Check(|a.state| >= 2, "State must be at least 2 characters"))
      + At("zipCode", Check(IsZipCode(a.zipCode), "Invalid ZIP code format"))
      + At("country", Check(|a.country| >= 2, "Country must be at least 2 characters"))
  }

  /** An address is accepted exactly when each text field is long enough and the ZIP code has one of its two forms. */
  lemma AddressAcceptance(a: Address)
    ensures AddressIssues(a) == [] <==>
      |a.street| >= 5 && |a.city| >= 2 && |a.state| >= 2 && IsZipCode(a.zipCode) && |a.country| >= 2
  {
  }

  /** `z` is five digits `head` followed by `tail`, which is empty or a hyphen and four digits. */
  predicate ZipParts(z: string, head: string, tail: string)
  {
    z == head + tail && |head| == 5 && AllDigits(head)
      && (tail == [] || (|tail| == 5 && tail[0] == '-' && AllDigits(tail[1..])))
  }

  /** A ZIP code is five digits, optionally followed by a hyphen and four more. */
  lemma ZipCodeForms(z: string)
    ensures IsZipCode(z) <==> (exists head, tail :: ZipParts(z, head, tail))
  {
    if IsZipCode(z) {
      assert z == z[..5] + z[5..];
      if |z| == 10 {
        assert z[5..][1..] == z[6..];
      }
      assert ZipParts(z, z[..5], z[5..]);
    }
    if exists head, tail :: ZipParts(z, head, tail) {
      var head, tail :| ZipParts(z, head, tail);
      assert z[..5] == head && z[5..] == tail;
      if tail != [] {
        assert z[6..] == tail[1..];
      }
    }
  }

  // ---------------------------------------------------------------------
  // registrationSchema

  datatype PersonalInfo = PersonalInfo(
    firstName: string, middleName: Option<string>, lastName: string,
    dateOfBirth: string, governmentId: GovernmentId)

  datatype ContactInfo = ContactInfo(email: string, phone: string, address: Address)

  datatype Credentials = Credentials(username: string, password: string, confirmPassword: string)

  datatype Registration = Registration(
    personalInfo: PersonalInfo, contactInfo: ContactInfo, credentials: Credentials,
    twoFactorMethod: string, agreeToTerms: bool)

  const DateOfBirthBadFormat := "Date must be in MM/DD/YYYY format"
  const AgeOutOfRange := "Must be between 18 and 120 years old"
  const PasswordsDontMatch := "Passwords don't match"
  const MustAgree := "You must agree to the terms and conditions"
  const TwoFactorMethods: seq<string> := ["sms", "email", "authenticator"]

  /** `^\d{2}\/\d{2}\/\d{4}$`. */
  predicate IsUsDateShape(s: string)
  {
    |s| == 10 && AllDigits(s[..2]) && s[2] == '/' && AllDigits(s[3..5]) && s[5] == '/' && AllDigits(s[6..])
  }

  /** Number() of a piece of the split: a run of digits is its value, "" is 0; any other piece is NaN. */
  function PieceNumber(piece: string): Option<int>
  {
    if AllDigits(piece) then Some(DecimalValue(piece)) else None
  }

  /**
   * getFullYear() of `new Date(year, month - 1, day)` for the first three pieces
   * of the date split at '/', or None when it is NaN (a missing or non-numeric piece).
   */
  function BirthYear(dob: string): Option<int>
  {
    var pieces := Split(dob, '/');
    if |pieces| < 3 then None
    else
      match (PieceNumber(pieces[0]), PieceNumber(pieces[1]), PieceNumber(pieces[2]))
      case (Some(month), Some(day), Some(year)) => Some(Calendar.DateYear(year, month, day))
      case _ => None
  }

  /** The age is the difference of calendar years; NaN fails the comparison. */
  predicate AgeInRange(dob: string, currentYear: int)
  {
    match BirthYear(dob)
    case Some(y) => 18 <= currentYear - y <= 120
    case None => false
  }

  function DateOfBirthIssues(dob: string, currentYear: int): seq<Issue>
  {
    Check(IsUsDateShape(dob), DateOfBirthBadFormat) + Check(AgeInRange(dob, currentYear), AgeOutOfRange)
  }

  /** A date of the form MM/DD/YYYY splits into its month, day and year. */
  lemma UsDateSplit(s: string)
    requires IsUsDateShape(s)
    ensures Split(s, '/') == [s[..2], s[3..5], s[6..]]
  {
    assert IsDigit(s[..2][0]) && IsDigit(s[..2][1]);
    IndexOfAt(s, '/', 2);
    var rest := s[3..];
    assert IsDigit(s[3..5][0]) && IsDigit(s[3..5][1]);
    IndexOfAt(rest, '/', 2);
    assert rest[..2] == s[3..5] && rest[3..] == s[6..];
    var last := s[6..];
    assert '/' !in last by {
      forall k | 0 <= k < |last| ensures last[k] != '/' {
        assert IsDigit(last[k]);
      }
    }
    assert Split(last, '/') == [last];
    assert Split(rest, '/') == [s[3..5]] + [last];
    assert Split(s, '/') == [s[..2]] + Split(rest, '/');
  }

  /** The day, month and year a well-formed birth date names. */
  function UsFields(dob: string): (int, int, int)
    requires IsUsDateShape(dob)
  {
    (DecimalValue(dob[6..]), DecimalValue(dob[..2]), DecimalValue(dob[3..5]))
  }

  /** A well-formed birth date is read through the Date constructor's year rule: 00 to 99 become 1900 to 1999. */
  lemma UsDateBirthYear(dob: string)
    requires IsUsDateShape(dob)
    ensures var (y, m, d) := UsFields(dob); BirthYear(dob) == Some(Calendar.DateYear(y, m, d))
  {
    UsDateSplit(dob);
  }

  /** For a real calendar date from year 100 on, the date of birth is accepted exactly for ages 18 to 120 by year. */
  lemma DateOfBirthAcceptance(dob: string, currentYear: int)
    requires IsUsDateShape(dob)
    requires var (y, m, d) := UsFields(dob); y >= 100 && Calendar.IsCalendarDate(y, m, d)
    ensures var (y, m, d) := UsFields(dob);
      DateOfBirthIssues(dob, currentYear) == [] <==> 18 <= currentYear - y <= 120
  {
    UsDateBirthYear(dob);
    var (y, m, d) := UsFields(dob);
    Calendar.DateYearOfCalendarDate(y, m, d);
  }

  /** The fields of an MM/DD/YYYY string, digit by digit. */
  lemma UsLiteral(dob: string)
    requires IsUsDateShape(dob)
    ensures UsFields(dob) == (
      1000 * DigitValue(dob[6]) + 100 * DigitValue(dob[7]) + 10 * DigitValue(dob[8]) + DigitValue(dob[9]),
      10 * DigitValue(dob[0]) + DigitValue(dob[1]),
      10 * DigitValue(dob[3]) + DigitValue(dob[4]))
  {
    DecimalValue4(dob[6..]);
    DecimalValue2(dob[..2]);
    DecimalValue2(dob[3..5]);
  }

  /** In 2026, someone born on the last day of 2008 counts as 18 and is accepted. */
  lemma AgeEighteenAccepted()
    ensures DateOfBirthIssues("12/31/2008", 2026) == []
  {
    var dob := "12/31/2008";
    assert IsUsDateShape(dob) by { UsShapeOfDigits(dob); }
    UsLiteral(dob);
    DateOfBirthAcceptance(dob, 2026);
  }

  /** In 2026, someone born on the first day of 2009 counts as 17 and is refused. */
  lemma AgeSeventeenRefused()
    ensures DateOfBirthIssues("01/01/2009", 2026) == [Issue([], AgeOutOfRange)]
  {
    var dob := "01/01/2009";
    assert IsUsDateShape(dob) by { UsShapeOfDigits(dob); }
    UsLiteral(dob);
    DateOfBirthAcceptance(dob, 2026);
  }

  /** In 2026, someone born in 1906 counts as 120 and is accepted. */
  lemma AgeHundredTwentyAccepted()
    ensures DateOfBirthIssues("01/01/1906", 2026) == []
  {
    var dob := "01/01/1906";
    assert IsUsDateShape(dob) by { UsShapeOfDigits(dob); }
    UsLiteral(dob);
    DateOfBirthAcceptance(dob, 2026);
  }

  /** In 2026, someone born in 1905 counts as 121 and is refused. */
  lemma AgeHundredTwentyOneRefused()
    ensures DateOfBirthIssues("12/31/1905", 2026) == [Issue([], AgeOutOfRange)]
  {
    var dob := "12/31/1905";
    assert IsUsDateShape(dob) by { UsShapeOfDigits(dob); }
    UsLiteral(dob);
    DateOfBirthAcceptance(dob, 2026);
  }

  lemma UsShapeOfDigits(dob: string)
    requires |dob| == 10 && dob[2] == '/' && dob[5] == '/'
    requires IsDigit(dob[0]) && IsDigit(dob[1]) && IsDigit(dob[3]) && IsDigit(dob[4])
    requires IsDigit(dob[6]) && IsDigit(dob[7]) && IsDigit(dob[8]) && IsDigit(dob[9])
    ensures IsUsDateShape(dob)
  {
  }

  /** A four-digit year below 0100 is read as a twentieth-century year: 0050 is 1950. */
  lemma SmallYearQuirk()
    ensures BirthYear("06/15/0050") == Some(1950)
  {
    var dob := "06/15/0050";
    assert IsUsDateShape(dob) by { UsShapeOfDigits(dob); }
    assert UsFields(dob) == (50, 6, 15) by { UsLiteral(dob); }
    assert Calendar.DateYear(50, 6, 15) == 1950 by { Calendar.DateYearOfCalendarDate(50, 6, 15); }
    UsDateBirthYear(dob);
  }

  function PersonalInfoIssues(p: PersonalInfo, now: int, currentYear: int): seq<Issue>
  {
    At("firstName", Check(|p.firstName| >= 2, "First name must be at least 2 characters"))
      + At("lastName", Check(|p.lastName| >= 2, "Last name must be at least 2 characters"))
      + At("dateOfBirth", DateOfBirthIssues(p.dateOfBirth, currentYear))
      + At("governmentId", GovernmentIdIssues(p.governmentId, now))
  }

  function ContactInfoIssues(c: ContactInfo, isEmail: string -> bool): seq<Issue>
  {
    At("email", Check(isEmail(c.email), "Invalid email address"))
      + At("phone", Check(Schemas.IsPhoneNumber(c.phone), "Invalid phone number"))
      + At("address", AddressIssues(c.address))
  }

  /** The contact block is accepted exactly for an email, a number matching the phone pattern and a valid address. */
  lemma ContactInfoAcceptance(c: ContactInfo, isEmail: string -> bool)
    ensures ContactInfoIssues(c, isEmail) == [] <==>
      isEmail(c.email) && Schemas.IsPhoneNumber(c.phone) && AddressIssues(c.address) == []
  {
  }

  /** Registration checks the phone pattern only: "12" passes it, though the phone login schema refuses it as too short. */
  lemma ShortPhoneAtRegistration()
    ensures Schemas.IsPhoneNumber("12")
    ensures Schemas.PhoneIssues("12") == [Issue([], Schemas.PhoneTooShort)]
  {
    assert IsDigit("12"[0]) && IsDigit("12"[1]);
  }

  /** The keys first, then the equality of the two passwords, reported at `confirmPassword`. */
  function CredentialsIssues(c: Credentials): seq<Issue>
  {
    At("username", UsernameIssues(c.username))
      + At("password", PasswordIssues(c.password))
      + At("confirmPassword", Check(c.password == c.confirmPassword, PasswordsDontMatch))
  }

  function RegistrationIssues(r: Registration, isEmail: string -> bool, now: int, currentYear: int): seq<Issue>
  {
    At("personalInfo", PersonalInfoIssues(r.personalInfo, now, currentYear))
      + At("contactInfo", ContactInfoIssues(r.contactInfo, isEmail))
      + At("credentials", CredentialsIssues(r.credentials))
      + At("twoFactorMethod", EnumCheck(TwoFactorMethods, r.twoFactorMethod))
      + At("agreeToTerms", Check(r.agreeToTerms, MustAgree))
  }

  /** A registration is accepted exactly when every block and field passes its own schema and the password is typed twice. */
  lemma RegistrationAcceptance(r: Registration, isEmail: string -> bool, now: int, currentYear: int)
    ensures RegistrationIssues(r, isEmail, now, currentYear) == [] <==>
      |r.personalInfo.firstName| >= 2 && |r.personalInfo.lastName| >= 2
      && DateOfBirthIssues(r.personalInfo.dateOfBirth, currentYear) == []
      && GovernmentIdIssues(r.personalInfo.governmentId, now) == []
      && isEmail(r.contactInfo.email) && Schemas.IsPhoneNumber(r.contactInfo.phone)
      && AddressIssues(r.contactInfo.address) == []
      && UsernameIssues(r.credentials.username) == [] && PasswordIssues(r.credentials.password) == []
      && r.credentials.confirmPassword == r.credentials.password
      && r.twoFactorMethod in TwoFactorMethods && r.agreeToTerms
  {
  }

  /** An accepted registration has a policy-abiding password typed twice and the terms agreed to. */
  lemma RegistrationAccepted(r: Registration, isEmail: string -> bool, now: int, currentYear: int)
    requires RegistrationIssues(r, isEmail, now, currentYear) == []
    ensures PasswordIssues(r.credentials.password) == []
    ensures r.credentials.confirmPassword == r.credentials.password
    ensures UsernameIssues(r.credentials.username) == []
    ensures r.agreeToTerms
    ensures r.twoFactorMethod in TwoFactorMethods
    ensures isEmail(r.contactInfo.email) && Schemas.IsPhoneNumber(r.contactInfo.phone)
    ensures NotExpired(r.personalInfo.governmentId.expiryDate, now)
    ensures AgeInRange(r.personalInfo.dateOfBirth, currentYear)
  {
  }

  /**
   * Differing passwords are reported at credentials.confirmPassword even when the
   * password itself fails, and the mismatch is never reported anywhere else.
   */
  lemma PasswordMismatchReported(r: Registration, isEmail: string -> bool, now: int, currentYear: int)
    requires r.credentials.password != r.credentials.confirmPassword
    ensures Issue(["credentials", "confirmPassword"], PasswordsDontMatch) in RegistrationIssues(r, isEmail, now, currentYear)
    ensures OnlyAt(RegistrationIssues(r, isEmail, now, currentYear), PasswordsDontMatch, ["credentials", "confirmPassword"])
  {
    MismatchOnlyAtConfirm(r, isEmail, now, currentYear);
    AtCheck("confirmPassword", false, PasswordsDontMatch);
    var inner := Issue(["confirmPassword"], PasswordsDontMatch);
    assert inner in CredentialsIssues(r.credentials);
    AtKeeps("credentials", CredentialsIssues(r.credentials), inner);
    assert ["credentials"] + ["confirmPassword"] == ["credentials", "confirmPassword"];
  }

  /** The mismatch message is reported at credentials.confirmPassword or nowhere. */
  lemma MismatchOnlyAtConfirm(r: Registration, isEmail: string -> bool, now: int, currentYear: int)
    ensures OnlyAt(RegistrationIssues(r, isEmail, now, currentYear), PasswordsDontMatch, ["credentials", "confirmPassword"])
  {
    PersonalBlockLacksMismatch(r.personalInfo, now, currentYear);
    ContactBlockLacksMismatch(r.contactInfo, isEmail);
    CredentialsBlockMismatchOnlyAtConfirm(r.credentials);
    LastBlocksLackMismatch(r.twoFactorMethod, r.agreeToTerms);
    MiddleOnlyAt(At("personalInfo", PersonalInfoIssues(r.personalInfo, now, currentYear)),
      At("contactInfo", ContactInfoIssues(r.contactInfo, isEmail)),
      At("credentials", CredentialsIssues(r.credentials)),
      At("twoFactorMethod", EnumCheck(TwoFactorMethods, r.twoFactorMethod)),
      At("agreeToTerms", Check(r.agreeToTerms, MustAgree)), PasswordsDontMatch, ["credentials", "confirmPassword"]);
  }

  lemma PersonalBlockLacksMismatch(p: PersonalInfo, now: int, currentYear: int)
    ensures Lacks(At("personalInfo", PersonalInfoIssues(p, now, currentYear)), PasswordsDontMatch)
  {
    PersonalInfoLacksMismatch(p, now, currentYear);
    AtLacks("personalInfo", PersonalInfoIssues(p, now, currentYear), PasswordsDontMatch);
  }

  lemma ContactBlockLacksMismatch(c: ContactInfo, isEmail: string -> bool)
    ensures Lacks(At("contactInfo", ContactInfoIssues(c, isEmail)), PasswordsDontMatch)
  {
    ContactInfoLacksMismatch(c, isEmail);
    AtLacks("contactInfo", ContactInfoIssues(c, isEmail), PasswordsDontMatch);
  }

  lemma CredentialsBlockMismatchOnlyAtConfirm(c: Credentials)
    ensures OnlyAt(At("credentials", CredentialsIssues(c)), PasswordsDontMatch, ["credentials", "confirmPassword"])
  {
    CredentialsMismatchOnlyAtConfirm(c);
    AtOnlyAt("credentials", CredentialsIssues(c), PasswordsDontMatch, ["confirmPassword"]);
    assert ["credentials"] + ["confirmPassword"] == ["credentials", "confirmPassword"];
  }

  lemma LastBlocksLackMismatch(twoFactorMethod: string, agreeToTerms: bool)
    ensures Lacks(At("twoFactorMethod", EnumCheck(TwoFactorMethods, twoFactorMethod)), PasswordsDontMatch)
    ensures Lacks(At("agreeToTerms", Check(agreeToTerms, MustAgree)), PasswordsDontMatch)
  {
    EnumLacks(TwoFactorMethods, twoFactorMethod, PasswordsDontMatch);
    AtLacks("twoFactorMethod", EnumCheck(TwoFactorMethods, twoFactorMethod), PasswordsDontMatch);
    AtLacks("agreeToTerms", Check(agreeToTerms, MustAgree), PasswordsDontMatch);
  }

  /** Of five blocks, only the middle one carries the message, and only at `path`. */
  lemma MiddleOnlyAt(a: seq<Issue>, b: seq<Issue>, c: seq<Issue>, d: seq<Issue>, e: seq<Issue>, m: string, path: seq<string>)
    requires Lacks(a, m) && Lacks(b, m) && OnlyAt(c, m, path) && Lacks(d, m) && Lacks(e, m)
    ensures OnlyAt(a + b + c + d + e, m, path)
  {
    LacksConcat(a, b, m);
    LacksOnlyAt(a + b, m, path);
    OnlyAtConcat(a + b, c, m, path);
    LacksOnlyAt(d, m, path);
    OnlyAtConcat(a + b + c, d, m, path);
    LacksOnlyAt(e, m, path);
    OnlyAtConcat(a + b + c + d, e, m, path);
  }

  /** The password rules never speak of the confirmation. */
  lemma PasswordLacksMismatch(pw: string)
    ensures Lacks(PasswordIssues(pw), PasswordsDontMatch)
  {
  }

  lemma CredentialsMismatchOnlyAtConfirm(c: Credentials)
    ensures OnlyAt(CredentialsIssues(c), PasswordsDontMatch, ["confirmPassword"])
  {
    var m := PasswordsDontMatch;
    assert Lacks(UsernameIssues(c.username), m);
    AtLacks("username", UsernameIssues(c.username), m);
    PasswordLacksMismatch(c.password);
    AtLacks("password", PasswordIssues(c.password), m);
    AtCheck("confirmPassword", c.password == c.confirmPassword, m);
  }

  lemma GovernmentIdLacksMismatch(g: GovernmentId, now: int)
    ensures Lacks(GovernmentIdIssues(g, now), PasswordsDontMatch)
  {
    var m := PasswordsDontMatch;
    EnumLacks(IdTypes, g.kind, m);
    AtLacks("type", EnumCheck(IdTypes, g.kind), m);
    AtLacks("number", Check(|g.number| >= 6, "ID number must be at least 6 characters"), m);
    AtLacks("expiryDate", ExpiryDateIssues(g.expiryDate, now), m);
  }

  lemma PersonalInfoLacksMismatch(p: PersonalInfo, now: int, currentYear: int)
    ensures Lacks(PersonalInfoIssues(p, now, currentYear), PasswordsDontMatch)
  {
    var m := PasswordsDontMatch;
    AtLacks("firstName", Check(|p.firstName| >= 2, "First name must be at least 2 characters"), m);
    AtLacks("lastName", Check(|p.lastName| >= 2, "Last name must be at least 2 characters"), m);
    AtLacks("dateOfBirth", DateOfBirthIssues(p.dateOfBirth, currentYear), m);
    GovernmentIdLacksMismatch(p.governmentId, now);
    AtLacks("governmentId", GovernmentIdIssues(p.governmentId, now), m);
  }

  lemma ContactInfoLacksMismatch(c: ContactInfo, isEmail: string -> bool)
    ensures Lacks(ContactInfoIssues(c, isEmail), PasswordsDontMatch)
  {
    var m := PasswordsDontMatch;
    var email := At("email", Check(isEmail(c.email), "Invalid email address"));
    var phone := At("phone", Check(Schemas.IsPhoneNumber(c.phone), "Invalid phone number"));
    AtLacks("email", Check(isEmail(c.email), "Invalid email address"), m);
    AtLacks("phone", Check(Schemas.IsPhoneNumber(c.phone), "Invalid phone number"), m);
    AddressLacksMismatch(c.address);
    AtLacks("address", AddressIssues(c.address), m);
    LacksConcat(email, phone, m);
    LacksConcat(email + phone, At("address", AddressIssues(c.address)), m);
  }

  lemma AddressLacksMismatch(a: Address)
    ensures Lacks(AddressIssues(a), PasswordsDontMatch)
  {
    var m := PasswordsDontMatch;
    var street := At("street", Check(|a.street| >= 5, "Street address must be at least 5 characters"));
    var city := At("city", Check(|a.city| >= 2, "City must be at least 2 characters"));
    var state := At("state", Check(|a.state| >= 2, "State must be at least 2 characters"));
    var zip := At("zipCode", Check(IsZipCode(a.zipCode), "Invalid ZIP code format"));
    var country := At("country", Check(|a.country| >= 2, "Country must be at least 2 characters"));
    AtLacks("street", Check(|a.street| >= 5, "Street address must be at least 5 characters"), m);
    AtLacks("city", Check(|a.city| >= 2, "City must be at least 2 characters"), m);
    AtLacks("state", Check(|a.state| >= 2, "State must be at least 2 characters"), m);
    AtLacks("zipCode", Check(IsZipCode(a.zipCode), "Invalid ZIP code format"), m);
    AtLacks("country", Check(|a.country| >= 2, "Country must be at least 2 characters"), m);
    LacksConcat(street, city, m);
    LacksConcat(street + city, state, m);
    LacksConcat(street + city + state, zip, m);
    LacksConcat(street + city + state + zip, country, m);
  }

  /** Not agreeing to the terms is always reported at agreeToTerms. */
  lemma TermsRefusalReported(r: Registration, isEmail: string -> bool, now: int, currentYear: int)
    requires !r.agreeToTerms
    ensures Issue(["agreeToTerms"], MustAgree) in RegistrationIssues(r, isEmail, now, currentYear)
  {
    AtCheck("agreeToTerms", false, MustAgree);
  }

  /** A two-factor method outside sms, email and authenticator is always reported at twoFactorMethod. */
  lemma TwoFactorRefusalReported(r: Registration, isEmail: string -> bool, now: int, currentYear: int)
    requires r.twoFactorMethod !in TwoFactorMethods
    ensures exists x :: x in RegistrationIssues(r, isEmail, now, currentYear) && x.path == ["twoFactorMethod"]
  {
    var msg := "Invalid enum value. Expected " + QuotedOptions(TwoFactorMethods) + ", received '" + r.twoFactorMethod + "'";
    AtCheck("twoFactorMethod", false, msg);
    var x := Issue(["twoFactorMethod"], msg);
    assert x in At("twoFactorMethod", EnumCheck(TwoFactorMethods, r.twoFactorMethod));
    assert x in RegistrationIssues(r, isEmail, now, currentYear);
  }

  // ---------------------------------------------------------------------
  // loginSchema, transactionAuthSchema, passwordResetSchema

  datatype Login = Login(identifier: string, password: string, captcha: Option<string>, twoFactorCode: Option<string>)

  function LoginIssues(l: Login): seq<Issue>
  {
    At("identifier", Check(|l.identifier| >= 1, "Username or account number is required"))
      + At("password", Check(|l.password| >= 1, "Password is required"))
  }

  /** Signing in needs only a non-empty identifier and password; the password policy is not applied. */
  lemma LoginAcceptance(l: Login)
    ensures LoginIssues(l) == [] <==> l.identifier != [] && l.password != []
  {
  }

  datatype TransactionAuth = TransactionAuth(transactionId: string, authMethod: string, authCode: string, deviceFingerprint: string)

  const AuthMethods: seq<string> := ["2fa", "biometric", "pin"]

  function TransactionAuthIssues(t: TransactionAuth): seq<Issue>
  {
    At("authMethod", EnumCheck(AuthMethods, t.authMethod))
      + At("authCode", Check(|t.authCode| >= 6, "Authorization code must be at least 6 characters"))
  }

  /** A transaction is authorised with one of the three methods and a code of six or more characters. */
  lemma TransactionAuthAcceptance(t: TransactionAuth)
    ensures TransactionAuthIssues(t) == [] <==> t.authMethod in AuthMethods && |t.authCode| >= 6
  {
  }

  datatype PasswordReset = PasswordReset(
    identifier: string, newPassword: string, confirmPassword: string,
    resetToken: string, twoFactorCode: string)

  function PasswordResetIssues(r: PasswordReset): seq<Issue>
  {
    At("identifier", Check(|r.identifier| >= 1, "Email or phone number is required"))
      + At("newPassword", PasswordIssues(r.newPassword))
      + At("twoFactorCode", Check(|r.twoFactorCode| >= 6, "2FA code is required"))
      + At("confirmPassword", Check(r.newPassword == r.confirmPassword, PasswordsDontMatch))
  }

  /** A reset is accepted exactly when the new password abides by the policy and is confirmed, with an identifier and a code. */
  lemma PasswordResetAcceptance(r: PasswordReset)
    ensures PasswordResetIssues(r) == [] <==>
      r.identifier != [] && PasswordIssues(r.newPassword) == [] && |r.twoFactorCode| >= 6
      && r.confirmPassword == r.newPassword
  {
  }

  /** Differing passwords are reported at confirmPassword, last, and the mismatch is never reported anywhere else. */
  lemma ResetMismatchReported(r: PasswordReset)
    requires r.newPassword != r.confirmPassword
    ensures |PasswordResetIssues(r)| >= 1
    ensures PasswordResetIssues(r)[|PasswordResetIssues(r)| - 1] == Issue(["confirmPassword"], PasswordsDontMatch)
    ensures OnlyAt(PasswordResetIssues(r), PasswordsDontMatch, ["confirmPassword"])
  {
    AtCheck("confirmPassword", false, PasswordsDontMatch);
    ResetMismatchOnlyAtConfirm(r);
  }

  /** In a reset the mismatch message is reported at confirmPassword or nowhere. */
  lemma ResetMismatchOnlyAtConfirm(r: PasswordReset)
    ensures OnlyAt(PasswordResetIssues(r), PasswordsDontMatch, ["confirmPassword"])
  {
    var m := PasswordsDontMatch;
    AtLacks("identifier", Check(|r.identifier| >= 1, "Email or phone number is required"), m);
    PasswordLacksMismatch(r.newPassword);
    AtLacks("newPassword", PasswordIssues(r.newPassword), m);
    AtLacks("twoFactorCode", Check(|r.twoFactorCode| >= 6, "2FA code is required"), m);
    AtCheck("confirmPassword", r.newPassword == r.confirmPassword, m);
  }
}
