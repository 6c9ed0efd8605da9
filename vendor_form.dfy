/**
 * The vendor create/edit form: the per-field character filters applied on
 * every keystroke, the validation run before saving, and the shaping of the
 * request body.
 */
module VendorForm {
  import opened Wrappers
  import opened Text
  import Seqs

  datatype Field = Name | CompanyName | CompanyType | Gstin | ContactNumber | Email | Password | Address | Pincode

  /** The form state: field name to current text. */
  type Form = map<Field, string>

  /** The value of a field, "" when the key is absent (JavaScript's falsy `undefined`). */
  function Value(form: Form, f: Field): string
  {
    if f in form then form[f] else ""
  }

  /** The form is editing an existing vendor: `editingUserId` is truthy (set, and not 0). */
  predicate IsEditing(editingUserId: Option<int>)
  {
    editingUserId.Some? && editingUserId.value != 0
  }

  // ---------------------------------------------------------------------------
  // Character filters of the input handler

  /** The character classes the input handler's deleting regular expressions keep. */
  datatype CharClass = LettersAndSpaces | EmailChars | Alphanumerics | Digits

  predicate InClass(k: CharClass, c: char)
  {
    match k
    case LettersAndSpaces => IsAsciiLetter(c) || IsJsSpace(c)
    case EmailChars => IsAlphanumeric(c) || c == '@' || c == '.' || c == '_' || c == '-'
    case Alphanumerics => IsAlphanumeric(c)
    case Digits => IsDigit(c)
  }

  function ClassTest(k: CharClass): char -> bool
  {
    c => InClass(k, c)
  }

  /** `value.replace(/[^class]/g, "")`: delete every character outside the class. */
  function Keep(k: CharClass, s: string): string
  {
    Seqs.Filter(ClassTest(k), s)
  }

  /** The text stored for a field after the user types `value` into it. */
  function Sanitize(f: Field, value: string): string
  {
    match f
    case Name | CompanyName | CompanyType => Keep(LettersAndSpaces, value)
    case Email => Keep(EmailChars, value)
    case Gstin => UpperAscii(Keep(Alphanumerics, value))
    case Pincode => Keep(Digits, value)
    case Address | Password | ContactNumber => value
  }

  /** Keep leaves only characters of its class. */
  lemma KeepInClass(k: CharClass, s: string)
    ensures forall i :: 0 <= i < |Keep(k, s)| ==> InClass(k, Keep(k, s)[i])
  {
    var r := Keep(k, s);
    forall i | 0 <= i < |r|
      ensures InClass(k, r[i])
    {
      assert ClassTest(k)(r[i]);
    }
  }

  /** A string made only of class characters survives Keep unchanged. */
  lemma KeepFixes(k: CharClass, s: string)
    requires forall i :: 0 <= i < |s| ==> InClass(k, s[i])
    ensures Keep(k, s) == s
  {
    forall i | 0 <= i < |s|
      ensures ClassTest(k)(s[i])
    {
    }
    Seqs.FilterFixesSatisfying(ClassTest(k), s);
  }

  /** Upper-casing and then keeping the alphanumerics equals keeping them and then upper-casing. */
  lemma {:induction false} KeepAlphanumericsCommutesWithUpper(s: string)
    ensures Keep(Alphanumerics, UpperAscii(s)) == UpperAscii(Keep(Alphanumerics, s))
  {
    if s != [] {
      KeepAlphanumericsCommutesWithUpper(s[1..]);
      var c := s[0];
      assert UpperAscii(s) == [UpperChar(c)] + UpperAscii(s[1..]);
      assert UpperAscii(s)[1..] == UpperAscii(s[1..]);
      assert InClass(Alphanumerics, UpperChar(c)) == InClass(Alphanumerics, c);
      if InClass(Alphanumerics, c) {
        assert Keep(Alphanumerics, s) == [c] + Keep(Alphanumerics, s[1..]);
        assert UpperAscii([c] + Keep(Alphanumerics, s[1..]))[1..] == UpperAscii(Keep(Alphanumerics, s[1..]));
      } else {
        assert Keep(Alphanumerics, s) == Keep(Alphanumerics, s[1..]);
      }
    }
  }

  /** Upper-casing a string twice is upper-casing it once. */
  lemma UpperAsciiIdempotent(s: string)
    ensures UpperAscii(UpperAscii(s)) == UpperAscii(s)
  {
    forall i | 0 <= i < |s|
      ensures !IsLower(UpperAscii(s)[i])
    {
      UpperAsciiAt(s, i);
    }
    UpperAsciiFixes(UpperAscii(s));
  }

  /**
   * The input handler only deletes characters (the GSTIN filter after
   * upper-casing), and filtering what it already filtered changes nothing.
   */
  lemma SanitizeOnlyDeletes(f: Field, value: string)
    ensures f != Gstin ==> Seqs.IsSubsequence(Sanitize(f, value), value)
    ensures f == Gstin ==> Seqs.IsSubsequence(Sanitize(f, value), UpperAscii(value))
    ensures f == Address || f == Password || f == ContactNumber ==> Sanitize(f, value) == value
    ensures Sanitize(f, Sanitize(f, value)) == Sanitize(f, value)
  {
    match f
    case Name | CompanyName | CompanyType =>
      Seqs.FilterIsSubsequence(ClassTest(LettersAndSpaces), value);
      Seqs.FilterIdempotent(ClassTest(LettersAndSpaces), value);
    case Email =>
      Seqs.FilterIsSubsequence(ClassTest(EmailChars), value);
      Seqs.FilterIdempotent(ClassTest(EmailChars), value);
    case Pincode =>
      Seqs.FilterIsSubsequence(ClassTest(Digits), value);
      Seqs.FilterIdempotent(ClassTest(Digits), value);
    case Gstin =>
      KeepAlphanumericsCommutesWithUpper(value);
      Seqs.FilterIsSubsequence(ClassTest(Alphanumerics), UpperAscii(value));
      var w := Keep(Alphanumerics, value);
      KeepInClass(Alphanumerics, w);
      KeepInClass(Alphanumerics, value);
      forall i | 0 <= i < |w|
        ensures InClass(Alphanumerics, UpperAscii(w)[i])
      {
        UpperAsciiAt(w, i);
      }
      KeepFixes(Alphanumerics, UpperAscii(w));
      UpperAsciiIdempotent(w);
    case Address | Password | ContactNumber =>
      Seqs.SubsequenceReflexive(value);
  }

  /** The characters each filtered field can hold after typing. */
  lemma SanitizedCharacters(f: Field, value: string)
    ensures f == Name || f == CompanyName || f == CompanyType ==>
      forall i :: 0 <= i < |Sanitize(f, value)| ==> IsAsciiLetter(Sanitize(f, value)[i]) || IsJsSpace(Sanitize(f, value)[i])
    ensures f == Email ==>
      forall i :: 0 <= i < |Sanitize(f, value)| ==> InClass(EmailChars, Sanitize(f, value)[i])
    ensures f == Gstin ==>
      forall i :: 0 <= i < |Sanitize(f, value)| ==> IsUpper(Sanitize(f, value)[i]) || IsDigit(Sanitize(f, value)[i])
    ensures f == Pincode ==>
      forall i :: 0 <= i < |Sanitize(f, value)| ==> IsDigit(Sanitize(f, value)[i])
  {
    match f
    case Name | CompanyName | CompanyType => KeepInClass(LettersAndSpaces, value);
    case Email => KeepInClass(EmailChars, value);
    case Pincode => KeepInClass(Digits, value);
    case Gstin =>
      var w := Keep(Alphanumerics, value);
      KeepInClass(Alphanumerics, value);
      forall i | 0 <= i < |w|
        ensures IsUpper(UpperAscii(w)[i]) || IsDigit(UpperAscii(w)[i])
      {
        UpperAsciiAt(w, i);
      }
    case Address | Password | ContactNumber =>
  }

  // ---------------------------------------------------------------------------
  // Postal code lengths

  /** Postal code length by lower-case ISO country code. */
  const PincodeLengths: map<string, nat> := map[
    "in" := 6, "us" := 5, "ca" := 6, "au" := 4, "gb" := 5, "de" := 5, "fr" := 5, "it" := 5,
    "es" := 5, "br" := 8, "ru" := 6, "cn" := 6, "jp" := 7, "kr" := 5, "mx" := 5, "id" := 5,
    "pk" := 5, "bd" := 4, "np" := 5, "lk" := 5, "my" := 5, "sg" := 6, "za" := 4, "nz" := 4,
    "tr" := 5, "ph" := 4, "th" := 5, "vn" := 6]

  /** The expected postal code length for a country code in any case; 5 for unlisted codes. */
  function PincodeLengthByCountry(code: string): (n: nat)
    ensures 4 <= n <= 8
  {
    var key := LowerAscii(code);
    if key in PincodeLengths && PincodeLengths[key] != 0 then PincodeLengths[key] else 5
  }

  /** The lookup does not depend on the case the code is written in. */
  lemma PincodeLengthIgnoresCase(code: string)
    ensures PincodeLengthByCountry(UpperAscii(code)) == PincodeLengthByCountry(code)
    ensures PincodeLengthByCountry(LowerAscii(code)) == PincodeLengthByCountry(code)
  {
    LowerAsciiIgnoresCase(code);
  }

  /** Some table entries, and the fallback for an unlisted code. */
  lemma PincodeLengthExamples()
    ensures PincodeLengthByCountry("IN") == 6
    ensures PincodeLengthByCountry("br") == 8
    ensures PincodeLengthByCountry("Jp") == 7
    ensures PincodeLengthByCountry("zz") == 5
  {
    assert LowerAscii("IN") == "in";
    assert LowerAscii("br") == "br";
    assert LowerAscii("Jp") == "jp";
    assert LowerAscii("zz") == "zz";
  }

  // ---------------------------------------------------------------------------
  // Field formats checked before saving

  /** `^[A-Za-z\s]+$` */
  predicate IsNameText(s: string)
  {
    |s| > 0 && forall i :: 0 <= i < |s| ==> IsAsciiLetter(s[i]) || IsJsSpace(s[i])
  }

  predicate IsEmailLocalChar(c: char)
  {
    IsAlphanumeric(c) || c == '.' || c == '_' || c == '%' || c == '+' || c == '-'
  }

  predicate IsEmailDomainChar(c: char)
  {
    IsAlphanumeric(c) || c == '.' || c == '-'
  }

  /**
   * `s` splits at `at` and `dot` into a non-empty local part, `@`, a non-empty
   * domain, `.` and a top-level domain of at least two letters.
   */
  predicate EmailShapeAt(s: string, at: nat, dot: nat)
  {
    && 0 < at && at + 1 < dot && dot + 2 < |s|
    && s[at] == '@' && s[dot] == '.'
    && (forall i :: 0 <= i < at ==> IsEmailLocalChar(s[i]))
    && (forall i :: at < i < dot ==> IsEmailDomainChar(s[i]))
    && (forall i :: dot < i < |s| ==> IsAsciiLetter(s[i]))
  }

  /** `^[a-zA-Z0-9._%+-]+@[a-zA-Z0-9.-]+\.[a-zA-Z]{2,}$` */
  predicate IsEmailAddress(s: string)
  {
    exists at: nat, dot: nat | at < dot < |s| :: EmailShapeAt(s, at, dot)
  }

  predicate IsPasswordSpecial(c: char)
  {
    c == '@' || c == '$' || c == '!' || c == '%' || c == '*' || c == '?' || c == '&'
  }

  /** `^(?=.*[a-z])(?=.*[A-Z])(?=.*\d)(?=.*[@$!%*?&])[A-Za-z\d@$!%*?&]{8,}$` */
  predicate IsStrongPassword(s: string)
  {
    && |s| >= 8
    && (forall i :: 0 <= i < |s| ==> IsAlphanumeric(s[i]) || IsPasswordSpecial(s[i]))
    && (exists i :: 0 <= i < |s| && IsLower(s[i]))
    && (exists i :: 0 <= i < |s| && IsUpper(s[i]))
    && (exists i :: 0 <= i < |s| && IsDigit(s[i]))
    && (exists i :: 0 <= i < |s| && IsPasswordSpecial(s[i]))
  }

  /** `^[0-9]{2}[A-Z0-9]{10}[0-9][A-Z][0-9]$` */
  predicate IsGstin(s: string)
  {
    && |s| == 15
    && (forall i :: 0 <= i < 2 ==> IsDigit(s[i]))
    && (forall i :: 2 <= i < 12 ==> IsUpper(s[i]) || IsDigit(s[i]))
    && IsDigit(s[12]) && IsUpper(s[13]) && IsDigit(s[14])
  }

  const CompanyTypes: seq<string> := ["LLP", "PVT", "OPC", "PROP", "OTHER"]

  /** The error recorded against a field; the user-facing message is not modelled. */
  datatype Problem =
    | Required
    | NameChars
    | EmailFormat
    | PasswordRule
    | GstinFormat
    | ContactLength
    | PincodeLength(expected: nat)
    | UnknownCompanyType

  /** The fields that must be non-empty; the password only when creating. */
  function RequiredFields(editingUserId: Option<int>): (fs: seq<Field>)
    ensures Password in fs <==> !IsEditing(editingUserId)
  {
    [Name, Email, CompanyName, CompanyType, Gstin, ContactNumber, Address, Pincode]
      + (if !IsEditing(editingUserId) then [Password] else [])
  }

  /** Every field but the password is required both when creating and when editing. */
  lemma RequiredFieldsCover(editingUserId: Option<int>, f: Field)
    ensures f in RequiredFields(editingUserId) <==> f != Password || !IsEditing(editingUserId)
  {
    var fs := RequiredFields(editingUserId);
    match f
    case Name => assert fs[0] == Name;
    case Email => assert fs[1] == Email;
    case CompanyName => assert fs[2] == CompanyName;
    case CompanyType => assert fs[3] == CompanyType;
    case Gstin => assert fs[4] == Gstin;
    case ContactNumber => assert fs[5] == ContactNumber;
    case Address => assert fs[6] == Address;
    case Pincode => assert fs[7] == Pincode;
    case Password =>
  }

  /** The format problem of a non-empty field value, if its format check fails. */
  function FormatProblem(f: Field, v: string, countryCode: string): Option<Problem>
  {
    match f
    case Name => if IsNameText(v) then None else Some(NameChars)
    case Email => if IsEmailAddress(v) then None else Some(EmailFormat)
    case Password => if IsStrongPassword(v) then None else Some(PasswordRule)
    case Gstin => if IsGstin(v) then None else Some(GstinFormat)
    case ContactNumber => if 10 <= |v| <= 15 then None else Some(ContactLength)
    case Pincode =>
      var n := PincodeLengthByCountry(countryCode);
      if |v| == n then None else Some(PincodeLength(n))
    case CompanyType => if v in CompanyTypes then None else Some(UnknownCompanyType)
    case CompanyName | Address => None
  }

  /**
   * The error a field ends up with, field by field: a non-empty value is
   * judged by its format alone, an empty one only by whether it is required.
   */
  function FieldProblem(form: Form, editingUserId: Option<int>, countryCode: string, f: Field): Option<Problem>
  {
    var v := Value(form, f);
    if v == "" then (if f in RequiredFields(editingUserId) then Some(Required) else None)
    else FormatProblem(f, v, countryCode)
  }

  /** The error map after the required-field pass over `fields`, in order. */
  function RequiredPass(form: Form, fields: seq<Field>): map<Field, Problem>
  {
    if fields == [] then map[]
    else
      var errors := RequiredPass(form, fields[..|fields| - 1]);
      var f := fields[|fields| - 1];
      if Value(form, f) == "" then errors[f := Required] else errors
  }

  /** The required-field pass marks exactly the empty fields of the list, each as required. */
  lemma {:induction false} RequiredPassMarks(form: Form, fields: seq<Field>, f: Field)
    ensures f in RequiredPass(form, fields) <==> f in fields && Value(form, f) == ""
    ensures f in RequiredPass(form, fields) ==> RequiredPass(form, fields)[f] == Required
    decreases |fields|
  {
    if fields != [] {
      var init := fields[..|fields| - 1];
      RequiredPassMarks(form, init, f);
      assert fields == init + [fields[|fields| - 1]];
    }
  }

  /** The fields with a format rule, in the order the rules run. */
  const FormatOrder: seq<Field> := [Name, Email, Password, Gstin, ContactNumber, Pincode, CompanyType]

  /** The error map after the format check of field `g`: a non-empty, malformed value overrides the entry. */
  function Override(errors: map<Field, Problem>, form: Form, countryCode: string, g: Field): map<Field, Problem>
  {
    var v := Value(form, g);
    var p := FormatProblem(g, v, countryCode);
    if v != "" && p.Some? then errors[g := p.value] else errors
  }

  /** The error map after the format checks of `fields`, in order, starting from `errors`. */
  function FormatPass(errors: map<Field, Problem>, form: Form, countryCode: string, fields: seq<Field>): map<Field, Problem>
  {
    if fields == [] then errors
    else Override(FormatPass(errors, form, countryCode, fields[..|fields| - 1]), form, countryCode, fields[|fields| - 1])
  }

  /** The entry of `f` in an error map, absent as `None`. */
  function Entry(errors: map<Field, Problem>, f: Field): Option<Problem>
  {
    if f in errors then Some(errors[f]) else None
  }

  /**
   * A format check replaces the entry of a non-empty, malformed field by its
   * format problem and leaves every other entry as the earlier pass left it.
   */
  lemma {:induction false} FormatPassMarks(errors: map<Field, Problem>, form: Form, countryCode: string,
                                           fields: seq<Field>, f: Field)
    ensures Entry(FormatPass(errors, form, countryCode, fields), f) ==
            if f in fields && Value(form, f) != "" && FormatProblem(f, Value(form, f), countryCode).Some?
            then FormatProblem(f, Value(form, f), countryCode)
            else Entry(errors, f)
    decreases |fields|
  {
    if fields != [] {
      var init := fields[..|fields| - 1];
      FormatPassMarks(errors, form, countryCode, init, f);
      assert fields == init + [fields[|fields| - 1]];
    }
  }

  /** Both passes together leave against each field exactly its problem. */
  lemma ValidationVerdict(form: Form, editingUserId: Option<int>, countryCode: string, f: Field)
    ensures var errors := FormatPass(RequiredPass(form, RequiredFields(editingUserId)), form, countryCode, FormatOrder);
            Entry(errors, f) == FieldProblem(form, editingUserId, countryCode, f)
  {
    RequiredPassMarks(form, RequiredFields(editingUserId), f);
    FormatPassMarks(RequiredPass(form, RequiredFields(editingUserId)), form, countryCode, FormatOrder, f);
    RequiredFieldsCover(editingUserId, f);
  }

  /** Builds the error map: the required-field pass, then the format checks in order. */
  method ValidateFields(form: Form, editingUserId: Option<int>, countryCode: string)
    returns (errors: map<Field, Problem>, ok: bool)
    ensures forall f :: f in errors <==> FieldProblem(form, editingUserId, countryCode, f).Some?
    ensures forall f :: f in errors ==> FieldProblem(form, editingUserId, countryCode, f) == Some(errors[f])
    ensures ok <==> errors == map[]
  {
    var required := RequiredFields(editingUserId);
    errors := map[];
    var i := 0;
    while i < |required|
      invariant 0 <= i <= |required|
      invariant errors == RequiredPass(form, required[..i])
    {
      var f := required[i];
      if Value(form, f) == "" {
        errors := errors[f := Required];
      }
      assert required[..i + 1][..i] == required[..i];
      i := i + 1;
    }
    assert required[..i] == required;
    ghost var afterRequired := errors;
    i := 0;
    while i < |FormatOrder|
      invariant 0 <= i <= |FormatOrder|
      invariant errors == FormatPass(afterRequired, form, countryCode, FormatOrder[..i])
    {
      var g := FormatOrder[i];
      var v := Value(form, g);
      var problem := FormatProblem(g, v, countryCode);
      if v != "" && problem.Some? {
        errors := errors[g := problem.value];
      }
      assert FormatOrder[..i + 1][..i] == FormatOrder[..i];
      i := i + 1;
    }
    assert FormatOrder[..i] == FormatOrder;
    forall f
      ensures Entry(errors, f) == FieldProblem(form, editingUserId, countryCode, f)
    {
      ValidationVerdict(form, editingUserId, countryCode, f);
    }
    ok := |errors| == 0;
    assert ok <==> errors.Keys == {};
  }

  /**
   * The form passes exactly when every required field is filled in and every
   * filled-in field has its format; an empty field is never charged with a
   * format error.
   */
  lemma FormPassesIff(form: Form, editingUserId: Option<int>, countryCode: string)
    ensures (forall f :: FieldProblem(form, editingUserId, countryCode, f) == None) <==>
      && (forall f :: f in RequiredFields(editingUserId) ==> Value(form, f) != "")
      && (forall f :: Value(form, f) != "" ==> FormatProblem(f, Value(form, f), countryCode) == None)
    ensures forall f :: Value(form, f) == "" ==>
      FieldProblem(form, editingUserId, countryCode, f) == (if f in RequiredFields(editingUserId) then Some(Required) else None)
  {
    if forall f :: FieldProblem(form, editingUserId, countryCode, f) == None {
      forall f | f in RequiredFields(editingUserId)
        ensures Value(form, f) != ""
      {
        assert FieldProblem(form, editingUserId, countryCode, f) == None;
      }
      forall f | Value(form, f) != ""
        ensures FormatProblem(f, Value(form, f), countryCode) == None
      {
        assert FieldProblem(form, editingUserId, countryCode, f) == None;
      }
    }
  }

  /** A well-formed GSTIN is left as it is by the GSTIN input filter. */
  lemma ValidGstinSurvivesFilter(s: string)
    requires IsGstin(s)
    ensures Sanitize(Gstin, s) == s
  {
    KeepFixes(Alphanumerics, s);
    UpperAsciiFixes(s);
  }

  /** A well-formed name is left as it is by the name input filter. */
  lemma ValidNameSurvivesFilter(s: string)
    requires IsNameText(s)
    ensures Sanitize(Name, s) == s
  {
    KeepFixes(LettersAndSpaces, s);
  }

  /** Whatever is typed into the GSTIN field, only upper-case letters and digits remain to be checked. */
  lemma FilteredGstinFailsOnlyOnShape(value: string)
    ensures var g := Sanitize(Gstin, value);
      IsGstin(g) <==> (|g| == 15 && (forall i :: 0 <= i < 2 ==> IsDigit(g[i]))
        && IsDigit(g[12]) && IsUpper(g[13]) && IsDigit(g[14]))
  {
    SanitizedCharacters(Gstin, value);
  }

  /** Sample values the formats accept and reject. */
  lemma FormatExamples()
    ensures IsGstin("22ABCDE1234F1Z5")
    ensures !IsGstin("22ABCDE1234F1Z")
    ensures IsStrongPassword("Passw0rd!")
    ensures !IsStrongPassword("password1!")
    ensures IsEmailAddress("a@b.io")
    ensures !IsEmailAddress("a@b.c")
  {
    assert IsLower("Passw0rd!"[1]) && IsUpper("Passw0rd!"[0]) && IsDigit("Passw0rd!"[5])
      && IsPasswordSpecial("Passw0rd!"[8]);
    assert EmailShapeAt("a@b.io", 1, 3);
    var p := "password1!";
    assert forall i :: 0 <= i < |p| ==> !IsUpper(p[i]);
  }

  // ---------------------------------------------------------------------------
  // Request body

  /** The body sent on save: a copy of the form, without the password when editing with it left empty. */
  function RequestPayload(form: Form, editingUserId: Option<int>): (payload: Form)
    ensures Password in payload <==> Password in form && !(IsEditing(editingUserId) && Value(form, Password) == "")
    ensures forall f :: f != Password ==> (f in payload <==> f in form)
    ensures forall f :: f in payload ==> f in form && payload[f] == form[f]
  {
    if IsEditing(editingUserId) && Value(form, Password) == "" then form - {Password} else form
  }
}
