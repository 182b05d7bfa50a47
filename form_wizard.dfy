/**
 * The state of the four-step medical form page: the current step, the entered values, the
 * images read so far and the files still being read, and the payload a submission sends.
 */
module FormWizard {
  import opened Wrappers
  import opened Text
  import opened Records
  import opened ImageList
  import Store

  /** The entered values; every one starts as the empty string. */
  datatype FormData = FormData(
    name: string,
    age: string,
    gender: string,
    weight: string,
    height: string,
    bloodType: string,
    currentComplications: string,
    breakfastDetails: string,
    lunchDetails: string,
    dinnerDetails: string,
    medications: string,
    allergies: string,
    chronicConditions: string)

  datatype FormField =
    | Name | Age | Gender | Weight | Height | BloodType | CurrentComplications
    | BreakfastDetails | LunchDetails | DinnerDetails | Medications | Allergies | ChronicConditions

  /** `{ ...prev, [field]: value }`. */
  function WithField(data: FormData, field: FormField, value: string): FormData {
    match field
    case Name => data.(name := value)
    case Age => data.(age := value)
    case Gender => data.(gender := value)
    case Weight => data.(weight := value)
    case Height => data.(height := value)
    case BloodType => data.(bloodType := value)
    case CurrentComplications => data.(currentComplications := value)
    case BreakfastDetails => data.(breakfastDetails := value)
    case LunchDetails => data.(lunchDetails := value)
    case DinnerDetails => data.(dinnerDetails := value)
    case Medications => data.(medications := value)
    case Allergies => data.(allergies := value)
    case ChronicConditions => data.(chronicConditions := value)
  }

  const StepCount: int := 4

  /** `validateCurrentStep`: step 1 needs the five personal values, steps 2 to 4 need nothing, any other step fails. */
  function StepValid(step: int, data: FormData): (ok: bool)
    ensures ok <==> (step == 1 && data.name != "" && data.age != "" && data.gender != ""
                       && data.weight != "" && data.height != "")
                    || 2 <= step <= StepCount
  {
    match step
    case 1 => data.name != "" && data.age != "" && data.gender != "" && data.weight != "" && data.height != ""
    case 2 => true
    case 3 => true
    case 4 => true
    case _ => false
  }

  /** The initial name: the signed-in user's first and last name, trimmed, when there is a first name. */
  function InitialName(firstName: Option<string>, lastName: Option<string>): string {
    if Truthy(firstName) then Trim(firstName.value + " " + (if Truthy(lastName) then lastName.value else "")) else ""
  }

  /**
   * The JSON body `handleSubmit` posts, as the forms route reads it: every entered value, present
   * even when empty, and one `{name, data, size}` record per image, in the list's order.
   */
  function SubmissionOf(data: FormData, images: seq<ImageItem>): (req: Store.FormRequest)
    ensures req.name == Some(data.name) && req.age == Some(data.age) && req.gender == Some(data.gender)
    ensures req.weight == Some(data.weight) && req.height == Some(data.height)
    ensures req.bloodType == Some(data.bloodType) && req.currentComplications == Some(data.currentComplications)
    ensures req.breakfastDetails == Some(data.breakfastDetails) && req.lunchDetails == Some(data.lunchDetails)
    ensures req.dinnerDetails == Some(data.dinnerDetails) && req.medications == Some(data.medications)
    ensures req.allergies == Some(data.allergies) && req.chronicConditions == Some(data.chronicConditions)
    ensures req.uploadedImages.Some? && |req.uploadedImages.value| == |images|
    ensures forall i :: 0 <= i < |images| ==>
      req.uploadedImages.value[i] == StoredImage(images[i].name, images[i].data, images[i].size)
  {
    Store.FormRequest(
      Some(data.name), Some(data.age), Some(data.gender), Some(data.weight), Some(data.height),
      Some(data.bloodType), Some(data.currentComplications), Some(data.breakfastDetails),
      Some(data.lunchDetails), Some(data.dinnerDetails), Some(data.medications),
      Some(data.allergies), Some(data.chronicConditions),
      Some(seq(|images|, i requires 0 <= i < |images| => StoredImage(images[i].name, images[i].data, images[i].size))))
  }

  /** A submission that step 1 lets through also passes the forms route's required-field gate. */
  lemma StepOneSubmissionHasRequiredFields(data: FormData, images: seq<ImageItem>)
    requires StepValid(1, data)
    ensures Store.HasRequiredFields(SubmissionOf(data, images))
  {
  }

  class Wizard {
    var currentStep: int
    var formData: FormData
    var uploadedImages: seq<ImageItem>
    /** Files whose reading has started and not yet finished. */
    var reading: seq<SelectedFile>

    ghost predicate Valid()
      reads this
    {
      1 <= currentStep <= StepCount
    }

    constructor(firstName: Option<string>, lastName: Option<string>)
      ensures Valid() && currentStep == 1
      ensures formData == FormData(InitialName(firstName, lastName), "", "", "", "", "", "", "", "", "", "", "", "")
      ensures uploadedImages == [] && reading == []
    {
      currentStep := 1;
      formData := FormData(InitialName(firstName, lastName), "", "", "", "", "", "", "", "", "", "", "", "");
      uploadedImages := [];
      reading := [];
    }

    method HandleInputChange(field: FormField, value: string)
      modifies this
      ensures formData == WithField(old(formData), field, value)
      ensures currentStep == old(currentStep) && uploadedImages == old(uploadedImages) && reading == old(reading)
    {
      formData := WithField(formData, field, value);
    }

    /** `nextStep`: forward only from a valid step before the last. */
    method NextStep()
      requires Valid()
      modifies this
      ensures Valid()
      ensures currentStep == if StepValid(old(currentStep), formData) && old(currentStep) < StepCount
        then old(currentStep) + 1 else old(currentStep)
      ensures formData == old(formData) && uploadedImages == old(uploadedImages) && reading == old(reading)
    {
      if StepValid(currentStep, formData) && currentStep < StepCount {
        currentStep := currentStep + 1;
      }
    }

    /** `prevStep`: back only from a step after the first. */
    method PrevStep()
      requires Valid()
      modifies this
      ensures Valid()
      ensures currentStep == if old(currentStep) > 1 then old(currentStep) - 1 else old(currentStep)
      ensures formData == old(formData) && uploadedImages == old(uploadedImages) && reading == old(reading)
    {
      if currentStep > 1 {
        currentStep := currentStep - 1;
      }
    }

    /** `handleImageUpload`: a read starts for each file whose type starts with `image/`, in order. */
    method HandleImageUpload(files: seq<SelectedFile>)
      modifies this
      ensures reading == old(reading) + ImageFiles(files)
      ensures currentStep == old(currentStep) && formData == old(formData) && uploadedImages == old(uploadedImages)
    {
      var i := 0;
      while i < |files|
        invariant 0 <= i <= |files|
        invariant reading == old(reading) + ImageFiles(files[..i])
        invariant currentStep == old(currentStep) && formData == old(formData) && uploadedImages == old(uploadedImages)
      {
        var file := files[i];
        if StartsWith(file.mimeType, ImageTypePrefix) {
          reading := reading + [file];
        }
        assert files[..i + 1] == files[..i] + [file];
        ImageFilesConcat(files[..i], [file]);
        i := i + 1;
      }
      assert files[..i] == files;
    }

    /** The `onload` of the read of `reading[k]`: the image is appended with the id drawn then. */
    method OnImageRead(k: nat, id: int, data: string)
      requires k < |reading|
      modifies this
      ensures uploadedImages == old(uploadedImages) + [ImageItem(id, old(reading)[k].name, old(reading)[k].size, None, data)]
      ensures reading == old(reading)[..k] + old(reading)[k + 1..]
      ensures currentStep == old(currentStep) && formData == old(formData)
    {
      var file := reading[k];
      uploadedImages := uploadedImages + [ImageItem(id, file.name, file.size, None, data)];
      reading := reading[..k] + reading[k + 1..];
    }

    /** `removeImage`. */
    method RemoveImage(imageId: int)
      modifies this
      ensures uploadedImages == RemoveById(old(uploadedImages), imageId)
      ensures currentStep == old(currentStep) && formData == old(formData) && reading == old(reading)
    {
      uploadedImages := RemoveById(uploadedImages, imageId);
    }

    /** `handleSubmit`: nothing is sent from an invalid step; otherwise the form and the images are. */
    method HandleSubmit() returns (payload: Option<Store.FormRequest>)
      ensures payload.None? <==> !StepValid(currentStep, formData)
      ensures payload.Some? ==> payload.value == SubmissionOf(formData, uploadedImages)
    {
      if !StepValid(currentStep, formData) {
        return None;
      }
      payload := Some(SubmissionOf(formData, uploadedImages));
    }
  }
}
