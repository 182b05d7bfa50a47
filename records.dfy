/**
 * The rows of the four tables (users, medical forms, conversations, messages). Required
 * columns are plain values, nullable columns are `Option`s; timestamps are integers.
 * A form or conversation is identified by its position in the store.
 */
module Records {
  import opened Wrappers

  type Timestamp = int

  /** A user row, mirrored from the authentication provider. */
  datatype User = User(
    id: string,
    email: string,
    firstName: Option<string>,
    lastName: Option<string>,
    imageUrl: Option<string>,
    createdAt: Timestamp,
    updatedAt: Timestamp)

  /** An image as the intake form submits it: file name, data URL and size in bytes. */
  datatype StoredImage = StoredImage(name: string, data: string, size: nat)

  /** A medical-form row. */
  datatype MedicalForm = MedicalForm(
    userId: string,
    name: string,
    age: int,
    gender: string,
    weight: string,
    height: string,
    bloodType: Option<string>,
    currentComplications: Option<string>,
    breakfastDetails: Option<string>,
    lunchDetails: Option<string>,
    dinnerDetails: Option<string>,
    medications: Option<string>,
    allergies: Option<string>,
    chronicConditions: Option<string>,
    uploadedImages: Option<seq<StoredImage>>,
    createdAt: Timestamp,
    updatedAt: Timestamp)

  /** A conversation row; `formId` is the position of its form in the store. */
  datatype Conversation = Conversation(
    userId: string,
    formId: nat,
    title: Option<string>,
    createdAt: Timestamp,
    updatedAt: Timestamp)

  /** The two values of the `role` column. */
  datatype Role = UserRole | AssistantRole

  function RoleName(r: Role): string {
    match r
    case UserRole => "user"
    case AssistantRole => "assistant"
  }

  /** A message row; `images` holds data URLs and is `null` for assistant messages. */
  datatype Message = Message(role: Role, content: string, images: Option<seq<string>>, createdAt: Timestamp)

  /** A message reduced to what the chat route passes on as history. */
  datatype HistoryEntry = HistoryEntry(role: Role, content: string, images: Option<seq<string>>)
}
