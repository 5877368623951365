/** The form schemas (validators/auth.schemas.ts, validators/profile.schemas.ts,
    validators/internship.schemas.ts) as predicates. Zod's own `.email()`
    format check is a parameter `isEmail`; lengths count characters. */
module Validators {
  import opened Strings
  import InternshipContext
  import FormatUtils

  // ---- `^\+\d{8,15}$` ----

  /** A "+" followed by eight to fifteen decimal digits and nothing else. */
  predicate IsPhoneE164(s: string) {
    |s| >= 1 && s[0] == '+' && 8 <= |s| - 1 <= 15 && AllDigits(s[1..])
  }

  /** The anchored phone pattern tested character by character, as a regex
      engine runs it. */
  method MatchPhone(s: string) returns (ok: bool)
    ensures ok <==> IsPhoneE164(s)
  {
    if |s| < 9 || |s| > 16 || s[0] != '+' {
      return false;
    }
    var i := 1;
    while i < |s|
      invariant 1 <= i <= |s|
      invariant forall k :: 1 <= k < i ==> IsDigit(s[k])
    {
      if !IsDigit(s[i]) {
        assert !IsDigit(s[1..][i - 1]);
        return false;
      }
      i := i + 1;
    }
    assert forall k :: 0 <= k < |s[1..]| ==> s[1..][k] == s[k + 1];
    return true;
  }

  /** A normalised number passes the phone pattern exactly when it already
      did, or when it is eight to fifteen bare digits. */
  lemma FormattedPhoneAccepted(phone: string)
    ensures IsPhoneE164(FormatUtils.FormatPhoneE164(phone)) <==>
      IsPhoneE164(phone) || (8 <= |phone| <= 15 && AllDigits(phone))
  {
    var r := FormatUtils.FormatPhoneE164(phone);
    if !StartsWith(phone, "+") {
      assert r[1..] == phone;
      if |phone| > 0 {
        assert !IsDigit('+');
      }
    }
  }

  // ---- unanchored fixed-shape patterns ----

  /** One position of a fixed-shape pattern: `\d` or a literal character. */
  datatype ShapeChar = AnyDigit | Lit(c: char)

  /** `\d{4}-\d{2}-\d{2}`. */
  const DateShape: seq<ShapeChar> :=
    [AnyDigit, AnyDigit, AnyDigit, AnyDigit, Lit('-'), AnyDigit, AnyDigit, Lit('-'), AnyDigit, AnyDigit]

  /** `\d{4}-\d{2}-\d{2}T\d{2}:\d{2}:\d{2}Z`. */
  const DateTimeShape: seq<ShapeChar> :=
    DateShape + [Lit('T'), AnyDigit, AnyDigit, Lit(':'), AnyDigit, AnyDigit, Lit(':'), AnyDigit, AnyDigit, Lit('Z')]

  predicate Fits(c: char, p: ShapeChar) {
    match p
    case AnyDigit => IsDigit(c)
    case Lit(l) => c == l
  }

  predicate ShapeAt(s: string, i: nat, shape: seq<ShapeChar>) {
    i + |shape| <= |s| && forall k :: 0 <= k < |shape| ==> Fits(s[i + k], shape[k])
  }

  /** `regex.test(s)` for an unanchored pattern: the shape occurs somewhere. */
  predicate ContainsShape(s: string, shape: seq<ShapeChar>) {
    exists i: nat :: i <= |s| && ShapeAt(s, i, shape)
  }

  /** The unanchored search, trying each start position from the left. */
  method FindShape(s: string, shape: seq<ShapeChar>) returns (found: bool)
    ensures found <==> ContainsShape(s, shape)
  {
    if |shape| > |s| {
      return false;
    }
    var i := 0;
    while i + |shape| <= |s|
      invariant 0 <= i <= |s| - |shape| + 1
      invariant forall j: nat :: j < i ==> !ShapeAt(s, j, shape)
    {
      var k := 0;
      while k < |shape| && Fits(s[i + k], shape[k])
        invariant 0 <= k <= |shape|
        invariant forall m :: 0 <= m < k ==> Fits(s[i + m], shape[m])
      {
        k := k + 1;
      }
      if k == |shape| {
        assert ShapeAt(s, i, shape);
        return true;
      }
      i := i + 1;
    }
    forall j: nat ensures !ShapeAt(s, j, shape) {
      if j >= i {
        assert j + |shape| > |s|;
      }
    }
    return false;
  }

  /** The date pattern is unanchored and checks no ranges: text around an
      impossible date is accepted. */
  lemma DateOfBirthUnanchored()
    ensures ContainsShape("born 9999-99-99?", DateShape)
    ensures !ContainsShape("1999-1-011", DateShape)
  {
    var s := "born 9999-99-99?";
    assert ShapeAt(s, 5, DateShape);
    var t := "1999-1-011";
    forall i: nat ensures !ShapeAt(t, i, DateShape) {
      if i == 0 {
        assert !Fits(t[6], DateShape[6]);
      }
    }
  }

  /** The commencement pattern is unanchored: a trailing offset after the "Z"
      is accepted too. */
  lemma CommencementUnanchored()
    ensures ContainsShape("2025-01-31T08:00:00Z+99", DateTimeShape)
  {
    var s := "2025-01-31T08:00:00Z+99";
    assert ShapeAt(s, 0, DateTimeShape);
  }

  // ---- auth.schemas.ts ----

  datatype RegisterForm = RegisterForm(email: string, password: string, firstName: string, lastName: string)
  datatype LoginForm = LoginForm(email: string, password: string)
  datatype OtpForm = OtpForm(email: string, otp: string)

  const TtuDomain := "@ttu.edu.gh"

  predicate RegisterValid(f: RegisterForm, isEmail: string -> bool) {
    && isEmail(f.email) && EndsWith(f.email, TtuDomain)
    && |f.password| >= 8
    && |f.firstName| >= 1 && |f.lastName| >= 1
  }

  predicate LoginValid(f: LoginForm, isEmail: string -> bool) {
    isEmail(f.email) && |f.password| >= 1
  }

  predicate OtpValid(f: OtpForm, isEmail: string -> bool) {
    isEmail(f.email) && |f.otp| == 6
  }

  /** A registration is accepted exactly when the generic email check passes,
      the address is some local part followed by "@ttu.edu.gh", the password
      has at least eight characters and both names are non-empty. */
  lemma RegisterRequiresTtuAddress(f: RegisterForm, isEmail: string -> bool)
    ensures RegisterValid(f, isEmail) <==>
      && isEmail(f.email) && (exists local :: f.email == local + TtuDomain)
      && |f.password| >= 8 && f.firstName != "" && f.lastName != ""
  {
    if EndsWith(f.email, TtuDomain) {
      var local := f.email[..|f.email| - |TtuDomain|];
      assert f.email == local + TtuDomain;
    }
    if exists local :: f.email == local + TtuDomain {
      var local :| f.email == local + TtuDomain;
      assert f.email[|f.email| - |TtuDomain|..] == TtuDomain;
    }
  }

  /** Login asks only for a well-formed address and a non-empty password: the
      empty password is rejected, and which non-empty password or which
      well-formed address is given never changes the verdict. */
  lemma LoginNeedsPasswordOnly(email: string, other: string, p: string, q: string, isEmail: string -> bool)
    requires isEmail(email) && isEmail(other)
    ensures !LoginValid(LoginForm(email, ""), isEmail)
    ensures p != "" && q != "" ==>
      LoginValid(LoginForm(email, p), isEmail) && LoginValid(LoginForm(other, q), isEmail)
  {
  }

  /** The OTP rule checks length only: any six characters pass, digits or
      not, and two codes of the same length always get the same verdict. */
  lemma OtpDigitsNotChecked(email: string, otp: string, same: string, isEmail: string -> bool)
    ensures OtpValid(OtpForm(email, otp), isEmail) <==> isEmail(email) && |otp| == 6
    ensures |otp| == |same| ==> OtpValid(OtpForm(email, otp), isEmail) == OtpValid(OtpForm(email, same), isEmail)
    ensures isEmail(email) ==> exists code :: !AllDigits(code) && OtpValid(OtpForm(email, code), isEmail)
  {
    var code := "abcdef";
    assert !IsDigit(code[0]);
    assert isEmail(email) ==> OtpValid(OtpForm(email, code), isEmail);
  }

  // ---- profile.schemas.ts ----

  datatype ProfileForm = ProfileForm(
    indexNumber: string, faculty: string, department: string, programme: string, level: string,
    session: string, certificateType: string, gender: string, dateOfBirth: string, phoneNumber: string)

  const Sessions := {"Regular", "Weekend", "Evening"}
  const CertificateTypes := {"BACHELOR of TECHNOLOGY", "HND", "DIPLOMA", "CERTIFICATE"}
  const Genders := {"MALE", "FEMALE", "OTHER"}

  predicate ProfileValid(f: ProfileForm) {
    && f.indexNumber != "" && f.faculty != "" && f.department != "" && f.programme != "" && f.level != ""
    && f.session in Sessions && f.certificateType in CertificateTypes && f.gender in Genders
    && ContainsShape(f.dateOfBirth, DateShape)
    && IsPhoneE164(f.phoneNumber)
  }

  /** An accepted profile has a phone number the normaliser leaves alone. */
  lemma AcceptedProfilePhoneIsNormal(f: ProfileForm)
    requires ProfileValid(f)
    ensures FormatUtils.FormatPhoneE164(f.phoneNumber) == f.phoneNumber
    ensures 9 <= |f.phoneNumber| <= 16
  {
    assert StartsWith(f.phoneNumber, "+");
  }

  /** The enumerations match exactly: in an otherwise accepted profile, a
      session, certificate type or gender is accepted exactly when it is one of
      the listed spellings, so a lower-case or re-cased one is rejected. */
  lemma ProfileEnumsExact(f: ProfileForm, v: string)
    requires ProfileValid(f)
    ensures ProfileValid(f.(session := v)) <==> v == "Regular" || v == "Weekend" || v == "Evening"
    ensures ProfileValid(f.(gender := v)) <==> v == "MALE" || v == "FEMALE" || v == "OTHER"
    ensures ProfileValid(f.(certificateType := v)) <==>
      v == "BACHELOR of TECHNOLOGY" || v == "HND" || v == "DIPLOMA" || v == "CERTIFICATE"
    ensures !ProfileValid(f.(session := "regular")) && !ProfileValid(f.(gender := "male"))
    ensures !ProfileValid(f.(certificateType := "Bachelor of Technology"))
  {
    assert "regular" != "Regular" && "regular" != "Weekend" && "regular" != "Evening";
    assert "male" != "MALE" && "male" != "FEMALE" && "male" != "OTHER";
    assert "Bachelor of Technology"[1] != "BACHELOR of TECHNOLOGY"[1];
  }

  // ---- internship.schemas.ts ----

  predicate RegistrationValid(f: InternshipContext.RegistrationFields, isEmail: string -> bool) {
    && f.companyName != ""
    && IsPhoneE164(f.companyPhone)
    && isEmail(f.companyEmail)
    && f.companyAddress != ""
    && f.companySupervisor != ""
    && IsPhoneE164(f.supervisorPhone)
    && f.companyCity != ""
    && ContainsShape(f.commencementDate, DateTimeShape)
  }

  /** Both phone numbers of an accepted registration are nine to sixteen
      characters, and a commencement date is at least twenty. */
  lemma AcceptedRegistrationLengths(f: InternshipContext.RegistrationFields, isEmail: string -> bool)
    requires RegistrationValid(f, isEmail)
    ensures 9 <= |f.companyPhone| <= 16 && 9 <= |f.supervisorPhone| <= 16
    ensures |f.commencementDate| >= 20
  {
    var i: nat :| ShapeAt(f.commencementDate, i, DateTimeShape);
  }
}
