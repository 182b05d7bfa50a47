/**
 * The prompt assembler in front of the language model: the patient-information block built
 * from a medical form, the list of content parts (text first, then inline images decoded from
 * data URLs), and the fixed reply used when the model call fails. The model itself is a
 * `Provider` parameter.
 */
module Gemini {
  import opened Wrappers
  import opened Text
  import opened JsNumber
  import opened Records

  /** A content part: `{ text }` or `{ inlineData: { data, mimeType } }`; `None` is `undefined`. */
  datatype Part = TextPart(text: string) | InlineDataPart(data: Option<string>, mimeType: Option<string>)

  /** What a `generateContent` call gives back: the reply text, or an exception. */
  datatype ProviderOutcome = Generated(text: string) | ProviderFailed

  type Provider = seq<Part> -> ProviderOutcome

  /** The text sent when the user message is empty or missing. */
  const FallbackInstruction: string :=
    "Please analyze my medical information and provide personalized health recommendations and guidance."

  /** The reply returned instead of an error when the model call fails. */
  const FallbackResponse: string :=
    "I apologize, but I'm experiencing technical difficulties at the moment. Please try again in a few moments. \n"
    + "\n"
    + "In the meantime, if you're experiencing any urgent medical concerns, please:\n"
    + "- Contact your healthcare provider immediately\n"
    + "- Call 911 for emergencies\n"
    + "- Visit your nearest urgent care or emergency room\n"
    + "\n"
    + "I'll be back to help you with your health questions soon. Thank you for your patience."

  /** The user message of an initial assessment. */
  const InitialAssessmentInstruction: string :=
    "Please provide a comprehensive initial health assessment based on the medical information provided. Include:\n"
    + "\n"
    + "1. A summary of the patient's current health status\n"
    + "2. Analysis of any concerning symptoms or conditions\n"
    + "3. Personalized recommendations for diet, lifestyle, and health management\n"
    + "4. Important safety considerations and when to seek immediate medical attention\n"
    + "5. Questions the patient should discuss with their healthcare provider\n"
    + "\n"
    + "Please be thorough, empathetic, and focus on actionable advice while emphasizing the importance of professional medical care."

  const InfoHeader: string := "\n\n=== PATIENT MEDICAL INFORMATION ===\n"
  const InfoFooter: string := "\n=== END PATIENT INFORMATION ===\n\n"

  // ---------------------------------------------------------------------------
  // The patient-information block

  /**
   * The parts of the block before rendering: the opening and closing delimiters, and items
   * made of a heading (`"Name: "`, `"\nKnown Allergies:\n"`, ...), a value and a trailer.
   */
  datatype InfoEntry = Opening | Item(heading: string, value: string, trailer: string) | Closing

  function Render(e: InfoEntry): string {
    match e
    case Opening => InfoHeader
    case Item(heading, value, trailer) => heading + value + trailer
    case Closing => InfoFooter
  }

  /** The rendered entries, one after the other. */
  function Block(entries: seq<InfoEntry>): string
    decreases |entries|
  {
    if |entries| == 0 then "" else Block(entries[..|entries| - 1]) + Render(entries[|entries| - 1])
  }

  lemma BlockAppend(entries: seq<InfoEntry>, e: InfoEntry)
    ensures Block(entries + [e]) == Block(entries) + Render(e)
  {
    assert (entries + [e])[..|entries|] == entries;
  }

  /** Rendering distributes over concatenation of entry lists. */
  lemma {:induction false} BlockConcat(a: seq<InfoEntry>, b: seq<InfoEntry>)
    ensures Block(a + b) == Block(a) + Block(b)
    decreases |b|
  {
    if |b| > 0 {
      var last := b[|b| - 1];
      var b' := b[..|b| - 1];
      assert b == b' + [last];
      assert a + b == (a + b') + [last];
      BlockAppend(a + b', last);
      BlockConcat(a, b');
      BlockAppend(b', last);
      assert Block(a) + Block(b') + Render(last) == Block(a) + (Block(b') + Render(last));
    } else {
      assert a + b == a;
    }
  }

  /** An item closed by a line break. */
  function LineItem(heading: string, value: string): InfoEntry {
    Item(heading, value, "\n")
  }

  /** The five entries that every block holds. */
  function BasicEntries(f: MedicalForm): seq<InfoEntry> {
    [ LineItem("Name: ", f.name),
      Item("Age: ", IntToString(f.age), " years\n"),
      LineItem("Gender: ", f.gender),
      LineItem("Weight: ", f.weight),
      LineItem("Height: ", f.height) ]
  }

  /** An item present only for a truthy value. */
  function OptionalItem(heading: string, v: Option<string>): (r: seq<InfoEntry>)
    ensures r == [] <==> !Truthy(v)
  {
    if Truthy(v) then [LineItem(heading, v.value)] else []
  }

  /** The line of one meal, when it is given. */
  function MealLine(meal: string, v: Option<string>): seq<string> {
    if Truthy(v) then [meal + v.value] else []
  }

  /** The entries of `dietInfo`: the given meals in breakfast, lunch, dinner order. */
  function DietLines(f: MedicalForm): (r: seq<string>)
    ensures |r| <= 3
    ensures r == [] <==> !Truthy(f.breakfastDetails) && !Truthy(f.lunchDetails) && !Truthy(f.dinnerDetails)
  {
    MealLine("Breakfast: ", f.breakfastDetails) + MealLine("Lunch: ", f.lunchDetails)
      + MealLine("Dinner: ", f.dinnerDetails)
  }

  const DietHeading: string := "\nDiet Information:\n"

  /** The diet section, with one line per given meal, present only when some meal is given. */
  function DietSection(f: MedicalForm): seq<InfoEntry> {
    if |DietLines(f)| > 0 then [LineItem(DietHeading, Join(DietLines(f), "\n"))] else []
  }

  const BloodTypeHeading: string := "Blood Type: "
  const ComplicationsHeading: string := "\nCurrent Health Issues:\n"
  const ChronicHeading: string := "\nChronic Conditions:\n"
  const MedicationsHeading: string := "\nCurrent Medications:\n"
  const AllergiesHeading: string := "\nKnown Allergies:\n"

  /** The entries of the block of a form, in their fixed order. */
  function InfoEntries(f: MedicalForm): seq<InfoEntry> {
    [Opening] + BasicEntries(f)
    + OptionalItem(BloodTypeHeading, f.bloodType)
    + OptionalItem(ComplicationsHeading, f.currentComplications)
    + OptionalItem(ChronicHeading, f.chronicConditions)
    + OptionalItem(MedicationsHeading, f.medications)
    + OptionalItem(AllergiesHeading, f.allergies)
    + DietSection(f)
    + [Closing]
  }

  function PatientInformation(f: MedicalForm): string {
    Block(InfoEntries(f))
  }

  /** `contextMessage`: empty without a form. */
  function ContextMessage(medicalForm: Option<MedicalForm>): string {
    match medicalForm
    case None => ""
    case Some(f) => PatientInformation(f)
  }

  /** `userMessage || fallback`. */
  function MessageText(userMessage: Option<string>): string {
    if Truthy(userMessage) then userMessage.value else FallbackInstruction
  }

  /** `fullMessage`: the context block followed by the message text. */
  function FullMessage(userMessage: Option<string>, medicalForm: Option<MedicalForm>): string {
    ContextMessage(medicalForm) + MessageText(userMessage)
  }

  /** The `dietInfo` pushes: one line per given meal. */
  method CollectDietInfo(f: MedicalForm) returns (dietInfo: seq<string>)
    ensures dietInfo == DietLines(f)
  {
    dietInfo := [];
    if Truthy(f.breakfastDetails) {
      dietInfo := dietInfo + ["Breakfast: " + f.breakfastDetails.value];
    }
    if Truthy(f.lunchDetails) {
      dietInfo := dietInfo + ["Lunch: " + f.lunchDetails.value];
    }
    if Truthy(f.dinnerDetails) {
      dietInfo := dietInfo + ["Dinner: " + f.dinnerDetails.value];
    }
  }

  /** Appending three strings one by one is appending their concatenation. */
  lemma AppendThree(s: string, a: string, b: string, c: string)
    ensures s + a + b + c == s + (a + b + c)
  {
  }

  /** One step of `BuildContextMessage`: the text grew by the rendering of `e`. */
  ghost function Append(entries: seq<InfoEntry>, e: InfoEntry, text: string): (r: seq<InfoEntry>)
    requires text == Block(entries) + Render(e)
    ensures r == entries + [e] && text == Block(r)
  {
    BlockAppend(entries, e);
    entries + [e]
  }

  /** A step that appends an item, written as the source writes it: heading, value, trailer. */
  ghost function AppendItem(entries: seq<InfoEntry>, heading: string, value: string, trailer: string, text: string)
    : (r: seq<InfoEntry>)
    requires text == Block(entries) + heading + value + trailer
    ensures r == entries + [Item(heading, value, trailer)] && text == Block(r)
  {
    AppendThree(Block(entries), heading, value, trailer);
    Append(entries, Item(heading, value, trailer), text)
  }

  /** One conditional step of `BuildContextMessage`: the text grew by the optional item, if any. */
  ghost function AppendOptional(entries: seq<InfoEntry>, heading: string, v: Option<string>, text: string)
    : (r: seq<InfoEntry>)
    requires Truthy(v) ==> text == Block(entries) + heading + v.value + "\n"
    requires !Truthy(v) ==> text == Block(entries)
    ensures r == entries + OptionalItem(heading, v) && text == Block(r)
  {
    if Truthy(v) then
      AppendItem(entries, heading, v.value, "\n", text)
    else
      assert entries + [] == entries;
      entries + OptionalItem(heading, v)
  }

  /** The step that appends the diet section when `dietInfo` is not empty. */
  ghost function AppendDiet(entries: seq<InfoEntry>, f: MedicalForm, dietInfo: seq<string>, text: string)
    : (r: seq<InfoEntry>)
    requires dietInfo == DietLines(f)
    requires |dietInfo| > 0 ==> text == Block(entries) + DietHeading + Join(dietInfo, "\n") + "\n"
    requires |dietInfo| == 0 ==> text == Block(entries)
    ensures r == entries + DietSection(f) && text == Block(r)
  {
    if |dietInfo| > 0 then
      AppendItem(entries, DietHeading, Join(dietInfo, "\n"), "\n", text)
    else
      assert entries + [] == entries;
      entries + DietSection(f)
  }

  /** The header and the five basic lines, appended with `+=` as the source does. */
  method OpenBlock(f: MedicalForm) returns (contextMessage: string)
    ensures contextMessage == Block([Opening] + BasicEntries(f))
  {
    ghost var entries: seq<InfoEntry> := [];
    contextMessage := "";
    contextMessage := contextMessage + InfoHeader;
    entries := Append(entries, Opening, contextMessage);
    contextMessage := contextMessage + "Name: " + f.name + "\n";
    entries := AppendItem(entries, "Name: ", f.name, "\n", contextMessage);
    contextMessage := contextMessage + "Age: " + IntToString(f.age) + " years\n";
    entries := AppendItem(entries, "Age: ", IntToString(f.age), " years\n", contextMessage);
    contextMessage := contextMessage + "Gender: " + f.gender + "\n";
    entries := AppendItem(entries, "Gender: ", f.gender, "\n", contextMessage);
    contextMessage := contextMessage + "Weight: " + f.weight + "\n";
    entries := AppendItem(entries, "Weight: ", f.weight, "\n", contextMessage);
    contextMessage := contextMessage + "Height: " + f.height + "\n";
    entries := AppendItem(entries, "Height: ", f.height, "\n", contextMessage);
    SixEntries(Opening, LineItem("Name: ", f.name), Item("Age: ", IntToString(f.age), " years\n"),
      LineItem("Gender: ", f.gender), LineItem("Weight: ", f.weight), LineItem("Height: ", f.height));
  }

  lemma SixEntries(a: InfoEntry, b: InfoEntry, c: InfoEntry, d: InfoEntry, e: InfoEntry, g: InfoEntry)
    ensures [] + [a] + [b] + [c] + [d] + [e] + [g] == [a] + [b, c, d, e, g]
  {
  }

  /** One `if (field) contextMessage += heading + field + "\n"` step. */
  method AppendField(contextMessage: string, ghost entries: seq<InfoEntry>, heading: string, v: Option<string>)
    returns (r: string)
    requires contextMessage == Block(entries)
    ensures r == Block(entries + OptionalItem(heading, v))
  {
    r := contextMessage;
    if Truthy(v) {
      r := r + heading + v.value + "\n";
    }
    ghost var grown := AppendOptional(entries, heading, v, r);
  }

  /** The diet step: collect the given meals, then append the joined lines when there are any. */
  method AppendDietInfo(contextMessage: string, ghost entries: seq<InfoEntry>, f: MedicalForm)
    returns (r: string)
    requires contextMessage == Block(entries)
    ensures r == Block(entries + DietSection(f))
  {
    r := contextMessage;
    var dietInfo := CollectDietInfo(f);
    if |dietInfo| > 0 {
      r := r + DietHeading + Join(dietInfo, "\n") + "\n";
    }
    ghost var grown := AppendDiet(entries, f, dietInfo, r);
  }

  /**
   * The block as `generateMedicalResponse` builds it: `+=` step by step, the meals
   * collected with `push` into `dietInfo` before being joined.
   */
  method BuildContextMessage(medicalForm: Option<MedicalForm>) returns (contextMessage: string)
    ensures contextMessage == ContextMessage(medicalForm)
  {
    contextMessage := "";
    if medicalForm.Some? {
      var f := medicalForm.value;
      ghost var e0 := [Opening] + BasicEntries(f);
      contextMessage := OpenBlock(f);
      ghost var e1 := e0 + OptionalItem(BloodTypeHeading, f.bloodType);
      contextMessage := AppendField(contextMessage, e0, BloodTypeHeading, f.bloodType);
      ghost var e2 := e1 + OptionalItem(ComplicationsHeading, f.currentComplications);
      contextMessage := AppendField(contextMessage, e1, ComplicationsHeading, f.currentComplications);
      ghost var e3 := e2 + OptionalItem(ChronicHeading, f.chronicConditions);
      contextMessage := AppendField(contextMessage, e2, ChronicHeading, f.chronicConditions);
      ghost var e4 := e3 + OptionalItem(MedicationsHeading, f.medications);
      contextMessage := AppendField(contextMessage, e3, MedicationsHeading, f.medications);
      ghost var e5 := e4 + OptionalItem(AllergiesHeading, f.allergies);
      contextMessage := AppendField(contextMessage, e4, AllergiesHeading, f.allergies);
      ghost var e6 := e5 + DietSection(f);
      contextMessage := AppendDietInfo(contextMessage, e5, f);
      contextMessage := contextMessage + InfoFooter;
      ghost var e7 := Append(e6, Closing, contextMessage);
      assert e7 == InfoEntries(f);
    }
  }

  /** The entries between the basic lines and the closing delimiter. */
  function DetailEntries(f: MedicalForm): seq<InfoEntry> {
    OptionalItem(BloodTypeHeading, f.bloodType)
    + OptionalItem(ComplicationsHeading, f.currentComplications)
    + OptionalItem(ChronicHeading, f.chronicConditions)
    + OptionalItem(MedicationsHeading, f.medications)
    + OptionalItem(AllergiesHeading, f.allergies)
    + DietSection(f)
  }

  /**
   * With a form, the text part is the header, the five basic lines, the detail entries, the
   * footer, and then immediately the message text.
   */
  lemma FullMessageWithForm(userMessage: Option<string>, f: MedicalForm)
    ensures FullMessage(userMessage, Some(f))
      == InfoHeader + Block(BasicEntries(f)) + Block(DetailEntries(f)) + InfoFooter + MessageText(userMessage)
  {
    var b := BasicEntries(f);
    var d := DetailEntries(f);
    GroupDetails([Opening] + b, OptionalItem(BloodTypeHeading, f.bloodType),
      OptionalItem(ComplicationsHeading, f.currentComplications), OptionalItem(ChronicHeading, f.chronicConditions),
      OptionalItem(MedicationsHeading, f.medications), OptionalItem(AllergiesHeading, f.allergies),
      DietSection(f), [Closing]);
    DelimitedBlock(b, d);
    assert FullMessage(userMessage, Some(f)) == Block(InfoEntries(f)) + MessageText(userMessage);
  }

  lemma GroupDetails(h: seq<InfoEntry>, x1: seq<InfoEntry>, x2: seq<InfoEntry>, x3: seq<InfoEntry>,
    x4: seq<InfoEntry>, x5: seq<InfoEntry>, x6: seq<InfoEntry>, t: seq<InfoEntry>)
    ensures h + x1 + x2 + x3 + x4 + x5 + x6 + t == h + (x1 + x2 + x3 + x4 + x5 + x6) + t
  {
  }

  /** The block of delimited entries is the header, the two runs rendered, and the footer. */
  lemma DelimitedBlock(b: seq<InfoEntry>, d: seq<InfoEntry>)
    ensures Block([Opening] + b + d + [Closing]) == InfoHeader + Block(b) + Block(d) + InfoFooter
  {
    BlockConcat([Opening] + b + d, [Closing]);
    BlockConcat([Opening] + b, d);
    BlockConcat([Opening], b);
    assert Block([Opening]) == InfoHeader by { assert [Opening][..0] == []; }
    assert Block([Closing]) == InfoFooter by { assert [Closing][..0] == []; }
  }

  lemma BasicText(f: MedicalForm)
    ensures Block(BasicEntries(f)) == "Name: " + f.name + "\n" + "Age: " + IntToString(f.age) + " years\n"
      + "Gender: " + f.gender + "\n" + "Weight: " + f.weight + "\n" + "Height: " + f.height + "\n"
  {
    var b := BasicEntries(f);
    assert Block(b[..1]) == "Name: " + f.name + "\n" by {
      assert b[..1][..0] == [];
    }
    assert b[..2][..1] == b[..1];
    AppendThree(Block(b[..1]), "Age: ", IntToString(f.age), " years\n");
    assert b[..3][..2] == b[..2];
    AppendThree(Block(b[..2]), "Gender: ", f.gender, "\n");
    assert b[..4][..3] == b[..3];
    AppendThree(Block(b[..3]), "Weight: ", f.weight, "\n");
    assert b[..4] == b[..|b| - 1];
    AppendThree(Block(b[..4]), "Height: ", f.height, "\n");
  }

  /** Membership in the entry list of a form, part by part. */
  lemma InfoEntriesMembership(f: MedicalForm, e: InfoEntry)
    ensures e in InfoEntries(f) <==> (
      || e == Opening || e in BasicEntries(f) || e == Closing
      || e in OptionalItem(BloodTypeHeading, f.bloodType)
      || e in OptionalItem(ComplicationsHeading, f.currentComplications)
      || e in OptionalItem(ChronicHeading, f.chronicConditions)
      || e in OptionalItem(MedicationsHeading, f.medications)
      || e in OptionalItem(AllergiesHeading, f.allergies)
      || e in DietSection(f))
  {
  }

  const OptionalHeadings: seq<string> :=
    [BloodTypeHeading, ComplicationsHeading, ChronicHeading, MedicationsHeading, AllergiesHeading]

  /** The optional field shown under each optional heading. */
  function FieldUnder(f: MedicalForm, heading: string): Option<string> {
    if heading == BloodTypeHeading then f.bloodType
    else if heading == ComplicationsHeading then f.currentComplications
    else if heading == ChronicHeading then f.chronicConditions
    else if heading == MedicationsHeading then f.medications
    else if heading == AllergiesHeading then f.allergies
    else None
  }

  /**
   * Blood type, current health issues, chronic conditions, medications and allergies each
   * appear in the block exactly when the field is truthy, and then with the field's value.
   */
  lemma OptionalItemIff(f: MedicalForm, heading: string, v: string)
    requires heading in OptionalHeadings
    ensures LineItem(heading, v) in InfoEntries(f) <==> FieldUnder(f, heading) == Some(v) && v != ""
  {
    InfoEntriesMembership(f, LineItem(heading, v));
  }

  /** The diet section appears exactly when some meal is given, and lists the given meals. */
  lemma DietItemIff(f: MedicalForm, v: string)
    ensures LineItem(DietHeading, v) in InfoEntries(f) <==> DietLines(f) != [] && v == Join(DietLines(f), "\n")
  {
    InfoEntriesMembership(f, LineItem(DietHeading, v));
  }

  /** Without a form, the text part is exactly the message, or the fallback instruction when it is empty. */
  lemma FullMessageWithoutForm(userMessage: Option<string>)
    ensures Truthy(userMessage) ==> FullMessage(userMessage, None) == userMessage.value
    ensures !Truthy(userMessage) ==> FullMessage(userMessage, None) == FallbackInstruction
  {
    assert ContextMessage(None) == "";
  }

  /**
   * The diet lines can be read back from the diet section's value by splitting at line breaks,
   * provided no meal description holds a line break itself.
   */
  lemma DietLinesRecoverable(f: MedicalForm)
    requires DietLines(f) != []
    requires forall i :: 0 <= i < |DietLines(f)| ==> NoneIn(DietLines(f)[i], {'\n'})
    ensures Split(Join(DietLines(f), "\n"), {'\n'}) == DietLines(f)
  {
    assert "\n" == ['\n'];
    SplitJoin(DietLines(f), '\n', {'\n'});
  }

  // ---------------------------------------------------------------------------
  // Inline images from data URLs

  const ImageUrlPrefix: string := "data:image/"

  /**
   * The inline part for a data URL: `data` is the text after the first `,` (up to a second
   * one), `mimeType` the text between the first `:` and the next `:` within what precedes the
   * first `;`. Either is `undefined` when its separator is missing.
   */
  function InlineDataOf(image: string): (p: Part)
    ensures p.InlineDataPart?
  {
    var commaPieces := Split(image, {','});
    var colonPieces := Split(Split(image, {';'})[0], {':'});
    InlineDataPart(
      if |commaPieces| > 1 then Some(commaPieces[1]) else None,
      if |colonPieces| > 1 then Some(colonPieces[1]) else None)
  }

  /** The image parts: one per image that starts with `data:image/`, in input order. */
  function ImageParts(images: seq<string>): (r: seq<Part>)
    ensures |r| <= |images|
    ensures forall i :: 0 <= i < |r| ==> r[i].InlineDataPart?
    decreases |images|
  {
    if |images| == 0 then []
    else
      var rest := ImageParts(images[1..]);
      if StartsWith(images[0], ImageUrlPrefix) then [InlineDataOf(images[0])] + rest else rest
  }

  /** Image parts are computed image by image: a single image contributes its own part or nothing. */
  lemma {:induction false} ImagePartsConcat(a: seq<string>, b: seq<string>)
    ensures ImageParts(a + b) == ImageParts(a) + ImageParts(b)
    decreases |a|
  {
    if |a| > 0 {
      assert (a + b)[1..] == a[1..] + b;
      assert (a + b)[0] == a[0];
      ImagePartsConcat(a[1..], b);
    } else {
      assert a + b == b;
    }
  }

  /** Every image that passes the prefix test gets a MIME type, and it starts with `image/`. */
  lemma MimeTypeOfImageUrl(image: string)
    requires StartsWith(image, ImageUrlPrefix)
    ensures InlineDataOf(image).mimeType.Some?
    ensures StartsWith(InlineDataOf(image).mimeType.value, "image/")
  {
    assert image == ImageUrlPrefix + image[|ImageUrlPrefix|..];
    SplitHeadStartsWith(ImageUrlPrefix, image[|ImageUrlPrefix|..], {';'});
    var head := Split(image, {';'})[0];
    assert head == "data" + [':'] + head[5..];
    SplitAtSeparator("data", ':', head[5..], {':'});
    var tail := head[5..];
    assert StartsWith(tail, "image/");
    assert tail == "image/" + tail[6..];
    SplitHeadStartsWith("image/", tail[6..], {':'});
  }

  /** `parts`: the text part first, then the image parts. */
  function Prompt(userMessage: Option<string>, medicalForm: Option<MedicalForm>, images: seq<string>): seq<Part> {
    [TextPart(FullMessage(userMessage, medicalForm))] + ImageParts(images)
  }

  /** The loop of `generateMedicalResponse` that pushes one part per data-URL image. */
  method BuildParts(fullMessage: string, images: seq<string>) returns (parts: seq<Part>)
    ensures parts == [TextPart(fullMessage)] + ImageParts(images)
  {
    parts := [TextPart(fullMessage)];
    var i := 0;
    while i < |images|
      invariant 0 <= i <= |images|
      invariant parts == [TextPart(fullMessage)] + ImageParts(images[..i])
    {
      var image := images[i];
      if StartsWith(image, ImageUrlPrefix) {
        parts := parts + [InlineDataOf(image)];
      }
      assert images[..i + 1] == images[..i] + [image];
      ImagePartsConcat(images[..i], [image]);
      i := i + 1;
    }
    assert images[..i] == images;
  }

  /** The reply for a provider outcome: a failure becomes the fallback reply, never an error. */
  function Reply(outcome: ProviderOutcome): string {
    match outcome
    case Generated(text) => text
    case ProviderFailed => FallbackResponse
  }

  /**
   * `generateMedicalResponse`: the provider sees the prompt built from the message, the form
   * and the images. The history argument is accepted and ignored.
   */
  method GenerateMedicalResponse(
    userMessage: Option<string>,
    medicalForm: Option<MedicalForm>,
    images: seq<string>,
    messageHistory: seq<HistoryEntry>,
    provider: Provider)
    returns (text: string)
    ensures text == Reply(provider(Prompt(userMessage, medicalForm, images)))
    ensures provider(Prompt(userMessage, medicalForm, images)) == ProviderFailed ==> text == FallbackResponse
  {
    var contextMessage := BuildContextMessage(medicalForm);
    var fullMessage := contextMessage + MessageText(userMessage);
    var parts := BuildParts(fullMessage, images);
    var outcome := provider(parts);
    match outcome
    case Generated(t) => text := t;
    case ProviderFailed => text := FallbackResponse;
  }

  /** `generateInitialAssessment`: a response to the fixed assessment request, with no images. */
  method GenerateInitialAssessment(medicalForm: Option<MedicalForm>, provider: Provider) returns (text: string)
    ensures text == Reply(provider(Prompt(Some(InitialAssessmentInstruction), medicalForm, [])))
  {
    text := GenerateMedicalResponse(Some(InitialAssessmentInstruction), medicalForm, [], [], provider);
  }

  /** The initial-assessment prompt is a single text part: the context block and the fixed request. */
  lemma InitialAssessmentPrompt(medicalForm: Option<MedicalForm>)
    ensures Prompt(Some(InitialAssessmentInstruction), medicalForm, [])
      == [TextPart(ContextMessage(medicalForm) + InitialAssessmentInstruction)]
  {
    assert Truthy(Some(InitialAssessmentInstruction));
  }
}
