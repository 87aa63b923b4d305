/** The JSON body submitCheckout posts, built from the form snapshot. */
module Payload {
  import opened Wrappers
  import opened Text
  import opened FileEncoding
  import opened Form

  /** The drug object: the raw drugId (Number() conversion is not modelled) and the trimmed JSON `label`, here `caption`. */
  datatype Drug = Drug(id: string, caption: string)
  datatype Condition = Condition(has: bool, text: string)
  datatype Address = Address(country: string, street: string, streetNumber: string, postalCode: string, city: string)
  datatype Medical = Medical(
    mode: Option<string>, drug: Option<Drug>, packages: Number,
    symptoms: string, allergies: Condition, chronic: Condition)
  datatype Personal = Personal(
    name: string, surname: string, telephone: string, email: string,
    pesel: string, noPesel: bool, passport: string, dateOfBirth: Option<string>,
    country: string, address: Address)
  datatype Payload = Payload(language: string, medical: Medical, personal: Personal, files: seq<FileRecord>)

  const DefaultCountry: string := "PL"

  /** The country code sent: the trimmed field, or "PL" when it is blank, in upper case. */
  function CountryCode(raw: string): (r: string)
    ensures r != [] && forall k :: 0 <= k < |r| ==> !IsLowerAscii(r[k])
    ensures Trim(raw) == [] ==> r == DefaultCountry
    ensures var t := Trim(raw);
      t != [] ==> |r| == |t| && forall k :: 0 <= k < |t| ==>
        if IsLowerAscii(t[k]) then r[k] as int == t[k] as int - 32 else r[k] == t[k]
  {
    Upper(if Trim(raw) == [] then DefaultCountry else Trim(raw))
  }

  /** The payload literal of submitCheckout, with the encoded files supplied. */
  function Build(f: Snapshot, language: string, files: seq<FileRecord>): (r: Payload)
    ensures r.language == language && r.files == files
    ensures r.medical.mode == f.medMode && r.personal.noPesel == f.noPesel
    ensures r.medical.packages == PackageCount(f.packages)
    ensures r.personal.country == CountryCode(f.country) && r.personal.address.country == CountryCode(f.country)
    ensures r.medical.symptoms == Trim(f.symptoms)
    ensures r.medical.allergies == Condition(f.allergies == Some("yes"), Trim(f.allergiesText))
    ensures r.medical.chronic == Condition(f.chronic == Some("yes"), Trim(f.chronicText))
    ensures var p := r.personal;
      p.name == Trim(f.firstName) && p.surname == Trim(f.lastName) && p.telephone == Trim(f.phone)
      && p.email == Trim(f.email) && p.passport == Trim(f.passport)
    ensures var a := r.personal.address;
      a.street == Trim(f.street) && a.streetNumber == Trim(f.streetNo)
      && a.postalCode == Trim(f.postal) && a.city == Trim(f.city)
  {
    var country := CountryCode(f.country);
    Payload(
      language,
      Medical(
        f.medMode,
        if f.medMode == Some(SelfMode) then Some(Drug(f.drugId, Trim(f.drugName))) else None,
        PackageCount(f.packages),
        Trim(f.symptoms),
        Condition(f.allergies == Some("yes"), Trim(f.allergiesText)),
        Condition(f.chronic == Some("yes"), Trim(f.chronicText))),
      Personal(
        Trim(f.firstName), Trim(f.lastName), Trim(f.phone), Trim(f.email),
        if f.noPesel then "" else Trim(f.pesel),
        f.noPesel,
        Trim(f.passport),
        if f.dob == [] then None else Some(f.dob),
        country,
        Address(country, Trim(f.street), Trim(f.streetNo), Trim(f.postal), Trim(f.city))),
      files)
  }

  /** The PESEL is withheld when the no-PESEL box is checked, and sent trimmed otherwise. */
  lemma PeselWithheld(f: Snapshot, language: string, files: seq<FileRecord>)
    ensures var p := Build(f, language, files).personal;
      p.noPesel == f.noPesel && (f.noPesel ==> p.pesel == []) && (!f.noPesel ==> p.pesel == Trim(f.pesel))
  {
  }

  /** Both country fields are the normalised code: they agree, carry no lower-case letter and default to "PL". */
  lemma CountryNormalised(f: Snapshot, language: string, files: seq<FileRecord>)
    ensures var p := Build(f, language, files).personal;
      p.country == p.address.country && p.country == CountryCode(f.country) && p.country != []
      && (forall k :: 0 <= k < |p.country| ==> !IsLowerAscii(p.country[k]))
      && (!HasText(f.country) ==> p.country == DefaultCountry)
  {
    TrimEmptyIff(f.country);
  }

  /** When step 2 passed with the no-PESEL box checked, the code sent is two UTF-16 units long. */
  lemma CountryTwoUnits(f: Snapshot, language: string, files: seq<FileRecord>)
    requires ValidateStep2(f) && f.noPesel
    ensures Utf16Length(Build(f, language, files).personal.country) == 2
  {
    assert Utf16Length(Trim(f.country)) == 2;
    CountryCodeUnits(f.country);
  }

  /** Upper-casing ASCII letters keeps the UTF-16 length of a non-blank field. */
  lemma CountryCodeUnits(raw: string)
    ensures Trim(raw) != [] ==> Utf16Length(CountryCode(raw)) == Utf16Length(Trim(raw))
  {
    var t := Trim(raw);
    if t != [] {
      var r := CountryCode(raw);
      assert forall k :: 0 <= k < |t| ==> (t[k] as int > 0xFFFF <==> r[k] as int > 0xFFFF);
      Utf16LengthByPlanes(t, r);
    }
  }

  /**
   * A drug is sent only in "self" mode, holding the raw id and the trimmed
   * name; when step 1 passed, its id is then not blank.
   */
  lemma DrugOnlyInSelfMode(f: Snapshot, language: string, files: seq<FileRecord>)
    ensures var m := Build(f, language, files).medical;
      (m.drug.Some? <==> f.medMode == Some(SelfMode))
      && (m.drug.Some? ==> m.drug.value == Drug(f.drugId, Trim(f.drugName)))
      && (m.drug.Some? && ValidateStep1(f) ==> HasText(m.drug.value.id))
  {
    TrimEmptyIff(f.drugId);
  }

  /**
   * After step 1 passed, the package count sent is 1..3 (1 for an empty
   * field) or NaN: a non-numeric field is not rejected.
   */
  lemma PackagesSent(f: Snapshot, language: string, files: seq<FileRecord>)
    requires ValidateStep1(f)
    ensures var n := Build(f, language, files).medical.packages;
      n == NaN || (n.Finite? && 1 <= n.value <= 3)
    ensures f.packages == Blank ==> Build(f, language, files).medical.packages == Finite(1)
    ensures f.packages.Numeric? ==> Build(f, language, files).medical.packages == Finite(f.packages.n)
  {
  }

  /** The date of birth is null exactly when the field is empty. */
  lemma DateOfBirthNull(f: Snapshot, language: string, files: seq<FileRecord>)
    ensures var d := Build(f, language, files).personal.dateOfBirth;
      (d == None <==> f.dob == []) && (d.Some? ==> d.value == f.dob)
  {
  }
}
