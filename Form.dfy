/**
 * The wizard's form as the handlers read it (a snapshot of the field values),
 * and the three validators: validateStep1, requiredIfNoPesel, validateStep2.
 */
module Form {
  import opened Wrappers
  import opened Text
  import opened FileEncoding

  /**
   * The packages field as its numeric conversion sees it: the empty string, a
   * whole number, or text that is not a number.
   */
  datatype PackagesField = Blank | Numeric(n: int) | NotANumber

  /** A JavaScript number restricted to what the packages field can produce. */
  datatype Number = Finite(value: int) | NaN

  /**
   * The field values of the page. A radio group is None when nothing in it is
   * checked (the value read is then undefined).
   */
  datatype Snapshot = Snapshot(
    medMode: Option<string>,
    drugName: string,
    drugId: string,
    packages: PackagesField,
    symptoms: string,
    allergies: Option<string>,
    allergiesText: string,
    chronic: Option<string>,
    chronicText: string,
    firstName: string,
    lastName: string,
    phone: string,
    email: string,
    consent: bool,
    noPesel: bool,
    pesel: string,
    passport: string,
    dob: string,
    country: string,
    street: string,
    streetNo: string,
    postal: string,
    city: string,
    files: seq<File>)

  const SelfMode: string := "self"

  /** The number of packages read from the field: an empty field counts as one package. */
  function PackageCount(p: PackagesField): (r: Number)
    ensures r.NaN? <==> p.NotANumber?
    ensures p.Blank? ==> r == Finite(1)
    ensures p.Numeric? ==> r == Finite(p.n)
  {
    match p
    case Blank => Finite(1)
    case Numeric(n) => Finite(n)
    case NotANumber => NaN
  }

  /** `x < k` and `x > k` on numbers: every comparison with NaN is false. */
  predicate Below(x: Number, k: int) { x.Finite? && x.value < k }
  predicate Above(x: Number, k: int) { x.Finite? && x.value > k }

  /** validateStep1: the package count check, then the drug id check in "self" mode. */
  predicate ValidateStep1(f: Snapshot)
    ensures ValidateStep1(f) ==> PackagesPass(f.packages)
    ensures f.medMode != Some(SelfMode) ==> (ValidateStep1(f) <==> PackagesPass(f.packages))
  {
    var packages := PackageCount(f.packages);
    if Below(packages, 1) || Above(packages, 3) then false
    else if f.medMode == Some(SelfMode) then Trim(f.drugId) != []
    else true
  }

  /**
   * requiredIfNoPesel: with the box unchecked nothing is required. The
   * country's length is counted in UTF-16 units, so a passing country is one
   * or two characters long.
   */
  predicate RequiredIfNoPesel(f: Snapshot)
    ensures !f.noPesel ==> RequiredIfNoPesel(f)
    ensures f.noPesel && RequiredIfNoPesel(f) ==> f.dob != [] && 1 <= |Trim(f.country)| <= 2
    ensures f.noPesel ==>
      (RequiredIfNoPesel(f) <==> HasText(f.passport) && f.dob != [] && Utf16Length(Trim(f.country)) == 2)
  {
    TrimEmptyIff(f.passport);
    if !f.noPesel then true
    else Trim(f.passport) != [] && f.dob != [] && Utf16Length(Trim(f.country)) == 2
  }

  /** validateStep2, branch for branch. */
  predicate ValidateStep2(f: Snapshot)
    ensures ValidateStep2(f) ==> f.consent && RequiredIfNoPesel(f)
    ensures ValidateStep2(f) ==> Trim(f.firstName) != [] && Trim(f.lastName) != []
  {
    if Trim(f.firstName) == [] then false
    else if Trim(f.lastName) == [] then false
    else if !f.consent then false
    else if !f.noPesel && |Trim(f.pesel)| == 0 then true
    else if f.noPesel && !RequiredIfNoPesel(f) then false
    else true
  }

  /** The range the package check lets through: 1..3, an empty field, or NaN. */
  predicate PackagesPass(p: PackagesField) {
    match p
    case Blank => true
    case Numeric(n) => 1 <= n <= 3
    case NotANumber => true
  }

  /**
   * Step 1 fails exactly when the count is below 1 or above 3, or when the
   * mode is "self" and the drug id is blank; any other mode (none checked
   * included) needs no drug id.
   */
  lemma Step1Exactly(f: Snapshot)
    ensures ValidateStep1(f) <==> PackagesPass(f.packages) && (f.medMode == Some(SelfMode) ==> HasText(f.drugId))
  {
    TrimEmptyIff(f.drugId);
  }

  /**
   * Step 2 needs a first name, a last name and consent; then, with the
   * no-PESEL box checked, a passport, a date of birth and a two-letter
   * country. The PESEL itself is never checked.
   */
  lemma Step2Exactly(f: Snapshot)
    ensures ValidateStep2(f) <==>
      HasText(f.firstName) && HasText(f.lastName) && f.consent
      && (f.noPesel ==> HasText(f.passport) && f.dob != [] && Utf16Length(Trim(f.country)) == 2)
  {
    TrimEmptyIff(f.firstName);
    TrimEmptyIff(f.lastName);
    TrimEmptyIff(f.passport);
  }

  /** With the no-PESEL box unchecked, any PESEL, including an empty one, passes. */
  lemma Step2IgnoresPesel(f: Snapshot, pesel: string)
    ensures ValidateStep2(f.(pesel := pesel)) == ValidateStep2(f)
  {
  }

  /** The no-PESEL box checked with an empty passport never passes step 2. */
  lemma NoPeselNeedsPassport(f: Snapshot)
    requires f.noPesel && Trim(f.passport) == []
    ensures !ValidateStep2(f)
  {
  }

  /** A flag is two characters but four UTF-16 units, so it fails as a country code. */
  lemma FlagIsNoCountryCode(f: Snapshot)
    requires f.noPesel && f.country == "\U{1F1F5}\U{1F1F1}"
    ensures !ValidateStep2(f)
  {
    var c := f.country;
    assert !IsWhitespace(c[0]) && !IsWhitespace(c[1]);
    assert TrimStart(c) == c;
    assert TrimEnd(c) == c;
    assert c[..1][..0] == [];
    assert Utf16Length(c[..1]) == 2;
    assert Utf16Length(Trim(c)) == 4;
    assert !RequiredIfNoPesel(f);
  }
}
