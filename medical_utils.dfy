/** Validation of the intake form's personal data, BMI categories, medication lists and emergency words. */
module MedicalUtils {
  import opened Wrappers
  import opened Text
  import opened JsNumber
  import opened Validation

  // ---------------------------------------------------------------------------
  // validatePersonalInfo / validateMedicalHistory

  /** The five personal-information fields, each absent (`undefined`) or a string. */
  datatype PersonalInfo = PersonalInfo(
    name: Option<string>,
    age: Option<string>,
    gender: Option<string>,
    weight: Option<string>,
    height: Option<string>)

  /** The keys of the `errors` object. */
  datatype Field = NameField | AgeField | GenderField | WeightField | HeightField

  /** A validation result: `isValid` and the `errors` object, field to message. */
  datatype Verdict = Verdict(isValid: bool, errors: map<Field, string>)

  const NameRequired := "Name is required"
  const AgeRequired := "Age is required"
  const AgeOutOfRange := "Please enter a valid age between 0 and 150"
  const GenderRequired := "Gender is required"
  const WeightRequired := "Weight is required"
  const HeightRequired := "Height is required"

  /** When `validatePersonalInfo` reports no error. */
  predicate PersonalInfoAcceptable(data: PersonalInfo) {
    && Filled(data.name)
    && Truthy(data.age) && ValidateAge(data.age.value)
    && Truthy(data.gender)
    && Filled(data.weight)
    && Filled(data.height)
  }

  /**
   * `validatePersonalInfo`: records one message per failing field; the age is first checked
   * for presence and only then parsed and range-checked. The gender is not trimmed.
   */
  method ValidatePersonalInfo(data: PersonalInfo) returns (r: Verdict)
    ensures NameField in r.errors <==> !Filled(data.name)
    ensures NameField in r.errors ==> r.errors[NameField] == NameRequired
    ensures AgeField in r.errors <==> !(Truthy(data.age) && ValidateAge(data.age.value))
    ensures AgeField in r.errors ==> r.errors[AgeField] == (if Truthy(data.age) then AgeOutOfRange else AgeRequired)
    ensures GenderField in r.errors <==> !Truthy(data.gender)
    ensures GenderField in r.errors ==> r.errors[GenderField] == GenderRequired
    ensures WeightField in r.errors <==> !Filled(data.weight)
    ensures WeightField in r.errors ==> r.errors[WeightField] == WeightRequired
    ensures HeightField in r.errors <==> !Filled(data.height)
    ensures HeightField in r.errors ==> r.errors[HeightField] == HeightRequired
    ensures r.isValid <==> r.errors == map[]
    ensures r.isValid <==> PersonalInfoAcceptable(data)
  {
    var errors: map<Field, string> := map[];
    if !Filled(data.name) {
      errors := errors[NameField := NameRequired];
    }
    if !Truthy(data.age) {
      errors := errors[AgeField := AgeRequired];
    } else {
      var age := ParseInt(data.age.value);
      if age.None? || age.value < 0 || age.value > 150 {
        errors := errors[AgeField := AgeOutOfRange];
      }
    }
    if !Truthy(data.gender) {
      errors := errors[GenderField := GenderRequired];
    }
    if !Filled(data.weight) {
      errors := errors[WeightField := WeightRequired];
    }
    if !Filled(data.height) {
      errors := errors[HeightField := HeightRequired];
    }
    if errors != map[] {
      var k :| k in errors;
    }
    r := Verdict(|errors| == 0, errors);
  }

  /** `validateMedicalHistory`: every medical-history field is optional, so any input is valid. */
  function ValidateMedicalHistory<T>(data: T): (r: Verdict)
    ensures r.isValid && r.errors == map[]
  {
    Verdict(true, map[])
  }

  // ---------------------------------------------------------------------------
  // getBMICategory

  datatype BmiCategory = Underweight | NormalWeight | Overweight | Obese

  function CategoryLabel(c: BmiCategory): string {
    match c
    case Underweight => "Underweight"
    case NormalWeight => "Normal weight"
    case Overweight => "Overweight"
    case Obese => "Obese"
  }

  function CategoryRank(c: BmiCategory): nat {
    match c
    case Underweight => 0
    case NormalWeight => 1
    case Overweight => 2
    case Obese => 3
  }

  /**
   * `getBMICategory`: no category for a missing or zero BMI; otherwise the band delimited by
   * 18.5, 25 and 30, each band closed below and open above.
   */
  function GetBMICategory(bmi: Option<real>): (r: Option<BmiCategory>)
    ensures r.None? <==> bmi.None? || bmi.value == 0.0
    ensures r == Some(Underweight) ==> bmi.value < 18.5
    ensures r == Some(NormalWeight) ==> 18.5 <= bmi.value < 25.0
    ensures r == Some(Overweight) ==> 25.0 <= bmi.value < 30.0
    ensures r == Some(Obese) ==> 30.0 <= bmi.value
  {
    match bmi
    case None => None
    case Some(v) =>
      if v == 0.0 then None
      else if v < 18.5 then Some(Underweight)
      else if v < 25.0 then Some(NormalWeight)
      else if v < 30.0 then Some(Overweight)
      else Some(Obese)
  }

  /** A larger BMI never falls into a lower category. */
  lemma BMICategoryMonotone(x: real, y: real)
    requires x != 0.0 && y != 0.0 && x <= y
    ensures CategoryRank(GetBMICategory(Some(x)).value) <= CategoryRank(GetBMICategory(Some(y)).value)
  {
  }

  // ---------------------------------------------------------------------------
  // validateMedicalImage

  /** The parts of an uploaded `File` that `validateMedicalImage` reads. */
  datatype MedicalImage = MedicalImage(mimeType: string, size: nat)

  const MedicalImageTypes: seq<string> := ["image/jpeg", "image/jpg", "image/png", "image/webp"]
  const MaxMedicalImageBytes: nat := 10 * 1024 * 1024
  const MedicalImageTypeError := "Only JPEG, PNG, and WebP images are allowed"
  const MedicalImageSizeError := "Image size must be less than 10MB"

  predicate MedicalImageAcceptable(file: MedicalImage) {
    file.mimeType in MedicalImageTypes && file.size <= MaxMedicalImageBytes
  }

  /**
   * `validateMedicalImage`: both checks always run, so both errors can be reported; the type
   * error comes first.
   */
  method ValidateMedicalImage(file: MedicalImage) returns (isValid: bool, errors: seq<string>)
    ensures MedicalImageTypeError in errors <==> file.mimeType !in MedicalImageTypes
    ensures MedicalImageSizeError in errors <==> file.size > MaxMedicalImageBytes
    ensures forall e :: e in errors ==> e == MedicalImageTypeError || e == MedicalImageSizeError
    ensures |errors| <= 2
    ensures |errors| == 2 ==> errors == [MedicalImageTypeError, MedicalImageSizeError]
    ensures isValid <==> errors == []
    ensures isValid <==> MedicalImageAcceptable(file)
  {
    errors := [];
    if file.mimeType !in MedicalImageTypes {
      errors := errors + [MedicalImageTypeError];
    }
    if file.size > MaxMedicalImageBytes {
      errors := errors + [MedicalImageSizeError];
    }
    isValid := |errors| == 0;
  }

  /** Every file `validateImageFile` accepts with its default 10 MB limit passes this check too. */
  lemma ImageFileAcceptedIsMedicalImage(name: Option<string>, mimeType: string, size: nat)
    requires ValidateImageFile(Some(UploadFile(name, mimeType, size)), DefaultMaxSizeMB) == Accepted
    ensures MedicalImageAcceptable(MedicalImage(mimeType, size))
  {
    assert mimeType in AllowedImageTypes;
  }

  /** The converse fails: `image/jpg` passes this check but is refused by `validateImageFile`. */
  lemma JpgAcceptedOnlyHere()
    ensures MedicalImageAcceptable(MedicalImage("image/jpg", 1))
    ensures ValidateImageFile(Some(UploadFile(Some("scan.jpg"), "image/jpg", 1)), DefaultMaxSizeMB)
      == Rejected(UnsupportedType)
  {
    assert "image/jpg" == MedicalImageTypes[1];
    assert "image/jpg" != AllowedImageTypes[0] && "image/jpg" != AllowedImageTypes[1]
      && "image/jpg" != AllowedImageTypes[2];
  }

  // ---------------------------------------------------------------------------
  // parseMedicationString

  datatype Medication = Medication(name: string, raw: string)

  /** Non-empty, with no white space at either end. */
  predicate IsTrimmedWord(s: string) {
    s != [] && !IsSpace(s[0]) && !IsSpace(s[|s| - 1])
  }

  const MedicationSeparators: set<char> := {',', '\n'}

  function Names(meds: seq<Medication>): (r: seq<string>)
    ensures |r| == |meds|
    ensures forall i :: 0 <= i < |meds| ==> r[i] == meds[i].name
  {
    seq(|meds|, i requires 0 <= i < |meds| => meds[i].name)
  }

  /** Trimming cannot introduce a separator. */
  lemma TrimNoneIn(s: string, seps: set<char>)
    ensures NoneIn(s, seps) ==> NoneIn(Trim(s), seps)
  {
    TrimIsInfix(s);
    var o := TrimOffset(s);
    if NoneIn(s, seps) {
      forall k | 0 <= k < |Trim(s)| ensures Trim(s)[k] !in seps {
        assert Trim(s)[k] == s[o + k];
      }
    }
  }

  /** The trimmed pieces that are not empty, each as a medication whose name is its raw text. */
  function MedicationsOf(pieces: seq<string>): (r: seq<Medication>)
    ensures |r| <= |pieces|
    decreases |pieces|
  {
    if |pieces| == 0 then []
    else PieceMedications(pieces[0]) + MedicationsOf(pieces[1..])
  }

  /** `.map(med => med.trim()).filter(med => med.length > 0)` on one piece. */
  function PieceMedications(p: string): (r: seq<Medication>)
    ensures |r| <= 1
  {
    var t := Trim(p);
    if t == [] then [] else [Medication(t, t)]
  }

  /** Every medication is named by its raw text, which is a non-empty trimmed word. */
  predicate AllTrimmedWords(meds: seq<Medication>) {
    forall i :: 0 <= i < |meds| ==> meds[i].name == meds[i].raw && IsTrimmedWord(meds[i].name)
  }

  lemma {:induction false} MedicationsOfTrimmed(pieces: seq<string>)
    ensures AllTrimmedWords(MedicationsOf(pieces))
    decreases |pieces|
  {
    if |pieces| > 0 {
      MedicationsOfTrimmed(pieces[1..]);
      var t := Trim(pieces[0]);
      if t != [] {
        AllTrimmedWordsCons(Medication(t, t), MedicationsOf(pieces[1..]));
      }
    }
  }

  lemma AllTrimmedWordsCons(m: Medication, rest: seq<Medication>)
    requires m.name == m.raw && IsTrimmedWord(m.name)
    requires AllTrimmedWords(rest)
    ensures AllTrimmedWords([m] + rest)
  {
    var r := [m] + rest;
    assert forall i :: 1 <= i < |r| ==> r[i] == rest[i - 1];
  }

  /** No medication name contains a separator when no piece does. */
  lemma {:induction false} MedicationsOfNoneIn(pieces: seq<string>)
    requires forall i :: 0 <= i < |pieces| ==> NoneIn(pieces[i], MedicationSeparators)
    ensures forall i :: 0 <= i < |MedicationsOf(pieces)| ==> NoneIn(MedicationsOf(pieces)[i].name, MedicationSeparators)
    decreases |pieces|
  {
    if |pieces| > 0 {
      MedicationsOfNoneIn(pieces[1..]);
      TrimNoneIn(pieces[0], MedicationSeparators);
    }
  }

  /**
   * `parseMedicationString`: nothing for a missing or blank string; otherwise the trimmed,
   * non-empty pieces between commas and line breaks, in order.
   */
  function ParseMedicationString(medications: Option<string>): (r: seq<Medication>)
    ensures !Filled(medications) ==> r == []
    ensures AllTrimmedWords(r)
    ensures forall i :: 0 <= i < |r| ==> NoneIn(r[i].name, MedicationSeparators)
  {
    if !Filled(medications) then []
    else
      var pieces := Split(medications.value, MedicationSeparators);
      MedicationsOfNoneIn(pieces);
      MedicationsOfTrimmed(pieces);
      MedicationsOf(pieces)
  }

  lemma {:induction false} MedicationsOfClean(pieces: seq<string>)
    requires forall i :: 0 <= i < |pieces| ==> IsTrimmedWord(pieces[i])
    ensures Names(MedicationsOf(pieces)) == pieces
    decreases |pieces|
  {
    if |pieces| > 0 {
      var rest := MedicationsOf(pieces[1..]);
      MedicationsOfClean(pieces[1..]);
      TrimOfTrimmed(pieces[0]);
      var r := [Medication(pieces[0], pieces[0])] + rest;
      assert MedicationsOf(pieces) == r;
      NamesCons(Medication(pieces[0], pieces[0]), rest);
      assert pieces == [pieces[0]] + pieces[1..];
    }
  }

  lemma NamesCons(m: Medication, rest: seq<Medication>)
    ensures Names([m] + rest) == [m.name] + Names(rest)
  {
    var r := [m] + rest;
    assert forall i :: 1 <= i < |r| ==> r[i] == rest[i - 1];
  }

  lemma JoinHead(parts: seq<string>, sep: string)
    requires |parts| >= 1 && parts[0] != []
    ensures |Join(parts, sep)| > 0 && Join(parts, sep)[0] == parts[0][0]
  {
  }

  /**
   * A list of clean names joined by commas parses back to those names, one medication each:
   * the parser and `join(',')` are inverse on lists whose names are non-empty, trimmed and
   * free of separators.
   */
  lemma ParseMedicationStringOfJoin(names: seq<string>)
    requires forall i :: 0 <= i < |names| ==> IsTrimmedWord(names[i])
    requires forall i :: 0 <= i < |names| ==> NoneIn(names[i], MedicationSeparators)
    ensures Names(ParseMedicationString(Some(Join(names, ",")))) == names
  {
    if |names| == 0 {
      assert Join(names, ",") == "";
    } else {
      var text := Join(names, ",");
      JoinHead(names, ",");
      assert !IsSpace(text[0]);
      BlankIffAllSpace(text);
      assert Filled(Some(text));
      SplitJoin(names, ',', MedicationSeparators);
      assert [','] == ",";
      MedicationsOfClean(names);
    }
  }

  /** The pieces are parsed one after another: the medications of two runs of pieces are concatenated. */
  lemma {:induction false} MedicationsOfConcat(a: seq<string>, b: seq<string>)
    ensures MedicationsOf(a + b) == MedicationsOf(a) + MedicationsOf(b)
    decreases |a|
  {
    if |a| > 0 {
      assert (a + b)[1..] == a[1..] + b;
      assert (a + b)[0] == a[0];
      MedicationsOfConcat(a[1..], b);
    } else {
      assert a + b == b;
    }
  }

  /** One piece gives its trim as a medication, or nothing when it is blank. */
  lemma MedicationsOfPiece(p: string)
    ensures MedicationsOf([p]) == if Trim(p) == [] then [] else [Medication(Trim(p), Trim(p))]
  {
    assert [p][1..] == [];
    assert MedicationsOf([p]) == PieceMedications(p) + [];
  }

  /** Each piece as the medication named by its trim. */
  function TrimmedMedications(pieces: seq<string>): seq<Medication>
    decreases |pieces|
  {
    if |pieces| == 0 then []
    else [Medication(Trim(pieces[0]), Trim(pieces[0]))] + TrimmedMedications(pieces[1..])
  }

  /** Pieces that are not blank are all kept, each as its trim, in order. */
  lemma {:induction false} MedicationsOfPadded(pieces: seq<string>)
    requires forall i :: 0 <= i < |pieces| ==> Trim(pieces[i]) != []
    ensures MedicationsOf(pieces) == TrimmedMedications(pieces)
    decreases |pieces|
  {
    if |pieces| > 0 {
      MedicationsOfPadded(pieces[1..]);
      var t := Trim(pieces[0]);
      assert PieceMedications(pieces[0]) == [Medication(t, t)];
    }
  }

  /** A joined list begins with its first part. */
  lemma JoinStartsWith(parts: seq<string>, sep: string)
    requires |parts| >= 1
    ensures |parts[0]| <= |Join(parts, sep)| && Join(parts, sep)[..|parts[0]|] == parts[0]
  {
    if |parts| > 1 {
      assert (parts[0] + sep + Join(parts[1..], sep))[..|parts[0]|] == parts[0];
    }
  }

  /**
   * Pieces joined by a comma or a line break, padded with white space as typed by hand and none
   * of them blank, parse to their trims in order: `"aspirin, ibuprofen"` gives `aspirin` and
   * `ibuprofen`.
   */
  lemma ParseMedicationStringOfPaddedJoin(pieces: seq<string>, c: char)
    requires |pieces| >= 1 && c in MedicationSeparators
    requires forall i :: 0 <= i < |pieces| ==> NoneIn(pieces[i], MedicationSeparators)
    requires forall i :: 0 <= i < |pieces| ==> Trim(pieces[i]) != []
    ensures ParseMedicationString(Some(Join(pieces, [c]))) == TrimmedMedications(pieces)
  {
    var text := Join(pieces, [c]);
    JoinFilled(pieces, [c]);
    SplitJoin(pieces, c, MedicationSeparators);
    MedicationsOfPadded(pieces);
    ParseOfFilled(text);
  }

  /** A joined list whose first part is not blank is not blank. */
  lemma JoinFilled(parts: seq<string>, sep: string)
    requires |parts| >= 1 && Trim(parts[0]) != []
    ensures Filled(Some(Join(parts, sep)))
  {
    JoinStartsWith(parts, sep);
    BlankIffAllSpace(parts[0]);
    var k :| 0 <= k < |parts[0]| && !IsSpace(parts[0][k]);
    assert Join(parts, sep)[k] == parts[0][k];
  }

  lemma ParseOfFilled(text: string)
    requires Filled(Some(text))
    ensures ParseMedicationString(Some(text)) == MedicationsOf(Split(text, MedicationSeparators))
  {
  }

  /** A list typed with a space after the comma parses to two medications, each trimmed. */
  lemma ParseMedicationStringExample()
    ensures ParseMedicationString(Some("aspirin, ibuprofen"))
      == [Medication("aspirin", "aspirin"), Medication("ibuprofen", "ibuprofen")]
  {
    var pieces := ["aspirin", " ibuprofen"];
    ExamplePieces();
    forall i | 0 <= i < |pieces| ensures NoneIn(pieces[i], MedicationSeparators) {
    }
    ParseMedicationStringOfPaddedJoin(pieces, ',');
    ExampleMedications();
  }

  lemma ExampleMedications()
    ensures TrimmedMedications(["aspirin", " ibuprofen"])
      == [Medication("aspirin", "aspirin"), Medication("ibuprofen", "ibuprofen")]
  {
    ExamplePieces();
  }

  lemma ExamplePieces()
    ensures Join(["aspirin", " ibuprofen"], [',']) == "aspirin, ibuprofen"
    ensures Trim("aspirin") == "aspirin" && Trim(" ibuprofen") == "ibuprofen"
  {
    ExampleTrim();
    ExampleJoin();
    TrimOfTrimmed("aspirin");
  }

  lemma ExampleJoin()
    ensures Join(["aspirin", " ibuprofen"], [',']) == "aspirin, ibuprofen"
  {
    var parts := ["aspirin", " ibuprofen"];
    assert parts[1..] == [" ibuprofen"];
    assert Join(parts, [',']) == "aspirin" + [','] + " ibuprofen";
  }

  lemma ExampleTrim()
    ensures Trim(" ibuprofen") == "ibuprofen"
  {
    var s := " ibuprofen";
    assert s[1..] == "ibuprofen";
    TrimOfTrimmed("ibuprofen");
    assert TrimStart("ibuprofen") == "ibuprofen";
  }

  // ---------------------------------------------------------------------------
  // detectEmergencyKeywords

  const EmergencyKeywords: seq<string> := [
    "chest pain", "heart attack", "stroke", "unconscious", "bleeding heavily",
    "difficulty breathing", "shortness of breath", "severe pain", "emergency",
    "urgent", "life threatening", "overdose", "poisoning", "severe allergic reaction",
    "anaphylaxis", "seizure", "suicidal", "suicide", "self harm"
  ]

  /** `keywords.some(k => text.includes(k))`. */
  function AnyKeywordIn(text: string, keywords: seq<string>): (r: bool)
    ensures r <==> exists k :: 0 <= k < |keywords| && Contains(text, keywords[k])
    decreases |keywords|
  {
    if |keywords| == 0 then false
    else if Contains(text, keywords[0]) then true
    else
      var r := AnyKeywordIn(text, keywords[1..]);
      assert forall k :: 1 <= k < |keywords| ==> keywords[1..][k - 1] == keywords[k];
      r
  }

  /** `detectEmergencyKeywords`: the lower-cased text contains one of the 19 emergency phrases. */
  function DetectEmergencyKeywords(text: string): (r: bool)
    ensures r <==> exists k :: 0 <= k < |EmergencyKeywords| && Contains(Lower(text), EmergencyKeywords[k])
  {
    AnyKeywordIn(Lower(text), EmergencyKeywords)
  }

  /** The detection ignores letter case. */
  lemma DetectionIgnoresCase(text: string)
    ensures DetectEmergencyKeywords(Lower(text)) == DetectEmergencyKeywords(text)
  {
    LowerIdempotent(text);
  }

  /** Text around an emergency phrase does not hide it. */
  lemma DetectionInContext(before: string, text: string, after: string)
    requires DetectEmergencyKeywords(text)
    ensures DetectEmergencyKeywords(before + text + after)
  {
    var k :| 0 <= k < |EmergencyKeywords| && Contains(Lower(text), EmergencyKeywords[k]);
    LowerConcat(before + text, after);
    LowerConcat(before, text);
    ContainsInContext(Lower(before), Lower(text), Lower(after), EmergencyKeywords[k]);
    assert Lower(before + text + after) == Lower(before) + Lower(text) + Lower(after);
  }

  /** An upper-case phrase is detected. */
  lemma ShoutedChestPainDetected()
    ensures DetectEmergencyKeywords("CHEST PAIN")
  {
    assert Lower("CHEST PAIN") == "chest pain";
    assert StartsWith(Lower("CHEST PAIN"), EmergencyKeywords[0]);
  }
}
