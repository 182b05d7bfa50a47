/**
 * The database as the API routes see it, and the routes that change it: the chat turn, the
 * medical-form submission and the conversation routes. A form or conversation is identified
 * by its position in its table; the messages of conversation `i` are `transcripts[i]`, in
 * insertion order.
 *
 * Each request is given a storage oracle `fault`: either every storage call of the request
 * succeeds, or the call with index `fault.call` (counting from 0 in the order the route makes
 * them) throws `fault.error`, after which the route makes no further call.
 */
module Store {
  import opened Wrappers
  import opened Text
  import opened JsNumber
  import opened Records
  import opened Gemini
  import opened Db
  import opened Http

  datatype Fault = NoFault | FailAt(call: nat, error: DbError)

  predicate Throws(fault: Fault, call: nat) {
    fault.FailAt? && fault.call == call
  }

  /** Some storage call with index at most `call` throws. */
  predicate FailsBy(fault: Fault, call: nat) {
    fault.FailAt? && fault.call <= call
  }

  // ---------------------------------------------------------------------------
  // Chat turns

  /** The three kinds of turn, decided from the stored message count and the incoming message. */
  datatype Turn = InitialAssessment | Rejected | Ordinary

  /** With no message yet and a blank message, the turn is the initial assessment; otherwise a blank message is rejected. */
  function TurnOf(existing: nat, message: Option<string>): (t: Turn)
    ensures t == InitialAssessment <==> existing == 0 && !Filled(message)
    ensures t == Rejected <==> existing > 0 && !Filled(message)
    ensures t == Ordinary <==> Filled(message)
  {
    if existing == 0 && !Filled(message) then InitialAssessment
    else if !Filled(message) then Rejected
    else Ordinary
  }

  /** The user message of a turn: its images are `null` when the list is empty. */
  function UserMessage(content: string, images: seq<string>, now: Timestamp): (m: Message)
    ensures m.role == UserRole && m.content == content
    ensures m.images.None? <==> images == []
    ensures m.images.Some? ==> m.images.value == images
  {
    Message(UserRole, content, if |images| > 0 then Some(images) else None, now)
  }

  /** An assistant message never carries images. */
  function AssistantMessage(content: string, now: Timestamp): (m: Message)
    ensures m.role == AssistantRole && m.content == content && m.images.None?
  {
    Message(AssistantRole, content, None, now)
  }

  function History(m: Message): HistoryEntry {
    HistoryEntry(m.role, m.content, m.images)
  }

  function Histories(ms: seq<Message>): (r: seq<HistoryEntry>)
    ensures |r| == |ms|
    ensures forall i :: 0 <= i < |ms| ==> r[i] == History(ms[i])
  {
    if |ms| == 0 then [] else [History(ms[0])] + Histories(ms[1..])
  }

  const ContextWindow: nat := 10

  /**
   * `existingMessages.slice(-10)` reduced to role, content and images: the last `min(10, n)`
   * messages, in stored order.
   */
  function RecentHistory(existing: seq<Message>): (r: seq<HistoryEntry>)
    ensures |r| == if |existing| < ContextWindow then |existing| else ContextWindow
    ensures forall i :: 0 <= i < |r| ==> r[i] == History(existing[|existing| - |r| + i])
  {
    var start := if |existing| > ContextWindow then |existing| - ContextWindow else 0;
    Histories(existing[start..])
  }

  /** The reply of a turn: the initial assessment ignores the request's images. */
  function TurnReply(turn: Turn, message: Option<string>, form: Option<MedicalForm>, images: seq<string>, provider: Provider)
    : string
  {
    if turn == InitialAssessment then Reply(provider(Prompt(Some(InitialAssessmentInstruction), form, [])))
    else Reply(provider(Prompt(message, form, images)))
  }

  /** The messages a turn stores when nothing fails, in insertion order. */
  function TurnWrites(turn: Turn, message: Option<string>, images: seq<string>, reply: string, now: Timestamp)
    : (w: seq<Message>)
    requires turn == Ordinary ==> message.Some?
    ensures turn == InitialAssessment ==> w == [AssistantMessage(reply, now)]
    ensures turn == Ordinary ==> w == [UserMessage(message.value, images, now), AssistantMessage(reply, now)]
    ensures turn == Rejected ==> w == []
  {
    match turn
    case InitialAssessment => [AssistantMessage(reply, now)]
    case Ordinary => [UserMessage(message.value, images, now), AssistantMessage(reply, now)]
    case Rejected => []
  }

  /** How many of `n` consecutive storage calls starting at index `first` complete. */
  function Completed(fault: Fault, first: nat, n: nat): (k: nat)
    ensures k <= n
    ensures k < n <==> fault.FailAt? && first <= fault.call < first + n
  {
    if fault.FailAt? && first <= fault.call < first + n then fault.call - first else n
  }

  /** In an ordinary turn the assistant message is stored only after the user message. */
  lemma AssistantFollowsUser(fault: Fault, message: string, images: seq<string>, reply: string, now: Timestamp)
    ensures var w := TurnWrites(Ordinary, Some(message), images, reply, now);
      var stored := w[..Completed(fault, 2, |w|)];
      (exists i :: 0 <= i < |stored| && stored[i].role == AssistantRole)
        ==> |stored| == 2 && stored[0] == UserMessage(message, images, now) && stored[1] == AssistantMessage(reply, now)
  {
  }

  /** `conversationData`: the conversation and, through the left join, its form if there is one. */
  function FormOf(forms: seq<MedicalForm>, c: Conversation): Option<MedicalForm> {
    if c.formId < |forms| then Some(forms[c.formId]) else None
  }

  predicate Owns(conversations: seq<Conversation>, id: nat, userId: string) {
    id < |conversations| && conversations[id].userId == userId
  }

  datatype ChatBody = ChatBody(response: string, conversationId: nat)

  /**
   * The effect of a turn that got past both selections: the writes whose calls completed are
   * appended to the conversation's messages, `updatedAt` is set only if every call completed,
   * and the response is the reply or the error of the failed call.
   */
  predicate Recorded(
    t0: seq<seq<Message>>, c0: seq<Conversation>, t1: seq<seq<Message>>, c1: seq<Conversation>,
    cid: nat, writes: seq<Message>, reply: string, fault: Fault, now: Timestamp, r: Response<ChatBody>)
    requires cid < |t0| && cid < |c0|
  {
    && t1 == t0[cid := t0[cid] + writes[..Completed(fault, 2, |writes|)]]
    && c1 == (if FailsBy(fault, 2 + |writes|) then c0 else c0[cid := c0[cid].(updatedAt := now)])
    && r == (if FailsBy(fault, 2 + |writes|) then DatabaseFailure(fault.error) else Success(ChatBody(reply, cid)))
  }

  /** A successful turn answers with the content of the assistant message it stored last. */
  lemma RecordedReplyStored(
    t0: seq<seq<Message>>, c0: seq<Conversation>, t1: seq<seq<Message>>, c1: seq<Conversation>,
    cid: nat, writes: seq<Message>, reply: string, fault: Fault, now: Timestamp, r: Response<ChatBody>)
    requires cid < |t0| && cid < |c0|
    requires Recorded(t0, c0, t1, c1, cid, writes, reply, fault, now, r)
    requires |writes| > 0 && writes[|writes| - 1] == AssistantMessage(reply, now)
    requires r.Success?
    ensures r.body == ChatBody(reply, cid)
    ensures cid < |t1| && |t1[cid]| > 0 && t1[cid][|t1[cid]| - 1] == AssistantMessage(reply, now)
    ensures t1[cid] == t0[cid] + writes
  {
    assert writes[..Completed(fault, 2, |writes|)] == writes;
  }

  /**
   * The last two storage calls of a turn: call `call` inserts the assistant message and call
   * `call + 1` sets `updatedAt`; a throw answers with the error and skips what follows.
   */
  predicate AssistantStored(
    t0: seq<seq<Message>>, c0: seq<Conversation>, t1: seq<seq<Message>>, c1: seq<Conversation>,
    cid: nat, reply: string, call: nat, fault: Fault, now: Timestamp, r: Response<ChatBody>)
    requires cid < |t0| && cid < |c0|
  {
    var failed := Throws(fault, call) || Throws(fault, call + 1);
    && t1 == (if Throws(fault, call) then t0 else t0[cid := t0[cid] + [AssistantMessage(reply, now)]])
    && c1 == (if failed then c0 else c0[cid := c0[cid].(updatedAt := now)])
    && r == (if failed then DatabaseFailure(fault.error) else Success(ChatBody(reply, cid)))
  }

  /** The initial assessment writes the assistant message with call 2. */
  lemma InitialRecorded(
    t0: seq<seq<Message>>, c0: seq<Conversation>, t1: seq<seq<Message>>, c1: seq<Conversation>,
    cid: nat, reply: string, fault: Fault, now: Timestamp, r: Response<ChatBody>)
    requires cid < |t0| && cid < |c0| && !FailsBy(fault, 1)
    requires AssistantStored(t0, c0, t1, c1, cid, reply, 2, fault, now, r)
    ensures Recorded(t0, c0, t1, c1, cid, [AssistantMessage(reply, now)], reply, fault, now, r)
  {
    var writes := [AssistantMessage(reply, now)];
    if Throws(fault, 2) {
      assert writes[..Completed(fault, 2, |writes|)] == [];
      assert t0[cid] + [] == t0[cid];
      assert t0[cid := t0[cid]] == t0;
    } else {
      assert writes[..Completed(fault, 2, |writes|)] == writes;
    }
  }

  /** An ordinary turn writes the user message with call 2 and the assistant message with call 3. */
  lemma OrdinaryRecorded(
    t0: seq<seq<Message>>, c0: seq<Conversation>, t1: seq<seq<Message>>, c1: seq<Conversation>,
    cid: nat, user: Message, reply: string, fault: Fault, now: Timestamp, r: Response<ChatBody>)
    requires cid < |t0| && cid < |c0| && !FailsBy(fault, 2)
    requires AssistantStored(t0[cid := t0[cid] + [user]], c0, t1, c1, cid, reply, 3, fault, now, r)
    ensures Recorded(t0, c0, t1, c1, cid, [user, AssistantMessage(reply, now)], reply, fault, now, r)
  {
    var writes := [user, AssistantMessage(reply, now)];
    if Throws(fault, 3) {
      assert writes[..Completed(fault, 2, |writes|)] == [user];
    } else {
      assert writes[..Completed(fault, 2, |writes|)] == writes;
      assert t0[cid] + [user] + [AssistantMessage(reply, now)] == t0[cid] + writes;
      assert t0[cid := t0[cid] + [user]][cid := t0[cid] + [user] + [AssistantMessage(reply, now)]]
        == t0[cid := t0[cid] + writes];
    }
  }

  /** An ordinary turn whose user-message insert throws stores nothing. */
  lemma OrdinaryFailedFirst(
    t0: seq<seq<Message>>, c0: seq<Conversation>, cid: nat, writes: seq<Message>, reply: string, fault: Fault, now: Timestamp)
    requires cid < |t0| && cid < |c0| && Throws(fault, 2) && |writes| == 2
    ensures Recorded(t0, c0, t0, c0, cid, writes, reply, fault, now, DatabaseFailure(fault.error))
  {
    assert writes[..Completed(fault, 2, |writes|)] == [];
    assert t0[cid] + [] == t0[cid];
    assert t0[cid := t0[cid]] == t0;
  }

  const ConversationIdRequired: string := "Conversation ID is required"
  const ConversationNotFound: string := "Conversation not found or unauthorized"
  const MessageRequired: string := "Message is required"

  // ---------------------------------------------------------------------------
  // Form submission

  /** The JSON body of a form submission; absent and `null` values are both `None`. */
  datatype FormRequest = FormRequest(
    name: Option<string>,
    age: Option<string>,
    gender: Option<string>,
    weight: Option<string>,
    height: Option<string>,
    bloodType: Option<string>,
    currentComplications: Option<string>,
    breakfastDetails: Option<string>,
    lunchDetails: Option<string>,
    dinnerDetails: Option<string>,
    medications: Option<string>,
    allergies: Option<string>,
    chronicConditions: Option<string>,
    uploadedImages: Option<seq<StoredImage>>)

  /** The profile the authentication provider returns for the caller. */
  datatype AuthProfile = AuthProfile(emailAddresses: seq<string>, firstName: Option<string>, lastName: Option<string>)

  predicate HasRequiredFields(req: FormRequest) {
    Truthy(req.name) && Truthy(req.age) && Truthy(req.gender) && Truthy(req.weight) && Truthy(req.height)
  }

  /** `value || null`. */
  function OrNull(v: Option<string>): (r: Option<string>)
    ensures r.Some? <==> Truthy(v)
    ensures r.Some? ==> r == v
  {
    if Truthy(v) then v else None
  }

  /** `emailAddresses[0]?.emailAddress || ''`. */
  function PrimaryEmail(p: AuthProfile): string {
    if |p.emailAddresses| > 0 then p.emailAddresses[0] else ""
  }

  /** `clerkUser.firstName || name.split(' ')[0] || ''`. */
  function FirstNameFor(p: AuthProfile, name: string): string {
    if Truthy(p.firstName) then p.firstName.value else Split(name, {' '})[0]
  }

  /** `clerkUser.lastName || name.split(' ').slice(1).join(' ') || ''`. */
  function LastNameFor(p: AuthProfile, name: string): string {
    if Truthy(p.lastName) then p.lastName.value else Join(Split(name, {' '})[1..], " ")
  }

  /** When both parts come from the form's name and the last name is not empty, they rejoin to the name. */
  lemma NameSplitRoundTrip(p: AuthProfile, name: string)
    requires !Truthy(p.firstName) && !Truthy(p.lastName)
    requires LastNameFor(p, name) != ""
    ensures FirstNameFor(p, name) + " " + LastNameFor(p, name) == name
  {
    var pieces := Split(name, {' '});
    JoinSplit(name, ' ');
    assert " " == [' '];
    assert |pieces| >= 2;
    assert Join(pieces, " ") == pieces[0] + " " + Join(pieces[1..], " ");
  }

  /** A name without a space is the first name, with an empty last name. */
  lemma NameWithoutSpace(p: AuthProfile, name: string)
    requires !Truthy(p.firstName) && !Truthy(p.lastName)
    requires NoneIn(name, {' '})
    ensures FirstNameFor(p, name) == name && LastNameFor(p, name) == ""
  {
    SplitNoSeparator(name, {' '});
  }

  function NewUser(id: string, p: AuthProfile, name: string, now: Timestamp): User {
    User(id, PrimaryEmail(p), Some(FirstNameFor(p, name)), Some(LastNameFor(p, name)), None, now, now)
  }

  /** The `users.email` column is unique. */
  predicate EmailTaken(users: map<string, User>, email: string) {
    exists id :: id in users && users[id].email == email
  }

  const Int32Min: int := -0x8000_0000
  const Int32Max: int := 0x7fff_ffff

  /** `parseInt(age)` as the integer column accepts it: `NaN` and values outside 32 bits make the insert fail. */
  function StoredAge(age: string): (r: Option<int>)
    ensures r.Some? <==> ParseInt(age).Some? && Int32Min <= ParseInt(age).value <= Int32Max
    ensures r.Some? ==> r.value == ParseInt(age).value
  {
    match ParseInt(age)
    case Some(n) => if Int32Min <= n <= Int32Max then Some(n) else None
    case None => None
  }

  /** The inserted form row: the required fields as given, optional ones `|| null`. */
  function NewForm(userId: string, req: FormRequest, age: int, now: Timestamp): MedicalForm
    requires HasRequiredFields(req)
  {
    MedicalForm(
      userId, req.name.value, age, req.gender.value, req.weight.value, req.height.value,
      OrNull(req.bloodType), OrNull(req.currentComplications), OrNull(req.breakfastDetails),
      OrNull(req.lunchDetails), OrNull(req.dinnerDetails), OrNull(req.medications),
      OrNull(req.allergies), OrNull(req.chronicConditions), req.uploadedImages, now, now)
  }

  /** Storing a form keeps exactly the truthy optional fields. */
  lemma NewFormOptionalFields(userId: string, req: FormRequest, age: int, now: Timestamp)
    requires HasRequiredFields(req)
    ensures var f := NewForm(userId, req, age, now);
      (f.bloodType.Some? <==> Truthy(req.bloodType))
      && (f.medications.Some? <==> Truthy(req.medications))
      && (f.allergies.Some? <==> Truthy(req.allergies))
      && (Truthy(f.bloodType) ==> f.bloodType == req.bloodType)
      && f.uploadedImages == req.uploadedImages
  {
  }

  datatype FormCreated = FormCreated(formId: nat)

  /**
   * The storage calls of the forms route: call 0 looks the user up; when the user is new, call 1
   * inserts it (failing also on a taken e-mail address); the next call inserts the form, which
   * fails on an age the integer column does not accept. Any failure answers 500.
   */
  predicate FormStored(
    u0: map<string, User>, f0: seq<MedicalForm>, u1: map<string, User>, f1: seq<MedicalForm>,
    uid: string, req: FormRequest, profile: AuthProfile, fault: Fault, now: Timestamp, r: Response<FormCreated>)
    requires HasRequiredFields(req)
  {
    var users := EnsureUser(u0, uid, profile, req.name.value, fault, now);
    var age := StoredAge(req.age.value);
    var formFails := users.None? || Throws(fault, if uid in u0 then 1 else 2) || age.None?;
    && u1 == (if users.Some? then users.value else u0)
    && f1 == (if formFails then f0 else f0 + [NewForm(uid, req, age.value, now)])
    && r == (if formFails then Failure(500, InternalServerError) else Success(FormCreated(|f0|)))
  }

  /**
   * The user rows after the lookup (call 0) and, for a new user, the insert (call 1); `None`
   * when one of these calls fails.
   */
  function EnsureUser(u0: map<string, User>, uid: string, profile: AuthProfile, name: string, fault: Fault, now: Timestamp)
    : (r: Option<map<string, User>>)
    ensures r.Some? ==> uid in r.value && forall id :: id in u0 ==> id in r.value && r.value[id] == u0[id]
  {
    if Throws(fault, 0) then None
    else if uid in u0 then Some(u0)
    else if Throws(fault, 1) || EmailTaken(u0, PrimaryEmail(profile)) then None
    else Some(u0[uid := NewUser(uid, profile, name, now)])
  }

  /**
   * A stored form belongs to the signed-in user, who then has a user row, and its id is the
   * position of the new row; a failed submission changes nothing but the user row.
   */
  lemma FormStoredOutcome(
    u0: map<string, User>, f0: seq<MedicalForm>, u1: map<string, User>, f1: seq<MedicalForm>,
    uid: string, req: FormRequest, profile: AuthProfile, fault: Fault, now: Timestamp, r: Response<FormCreated>)
    requires HasRequiredFields(req)
    requires FormStored(u0, f0, u1, f1, uid, req, profile, fault, now, r)
    ensures r.Success? ==>
      uid in u1 && r.body.formId == |f0| && |f1| == |f0| + 1 && f1[..|f0|] == f0 && f1[r.body.formId].userId == uid && f1[r.body.formId].name == req.name.value
    ensures r.Failure? ==> r == Failure(500, InternalServerError) && f1 == f0
    ensures forall id :: id in u0 ==> id in u1 && u1[id] == u0[id]
    ensures uid in u0 ==> u1 == u0
    ensures uid !in u0 ==> u1 == u0 || u1 == u0[uid := NewUser(uid, profile, req.name.value, now)]
    ensures uid !in u0 && r.Success? ==> u1 == u0[uid := NewUser(uid, profile, req.name.value, now)]
  {
    if r.Success? {
      assert (f0 + [NewForm(uid, req, StoredAge(req.age.value).value, now)])[..|f0|] == f0;
    }
  }

  const MissingRequiredFields: string := "Missing required fields"

  // ---------------------------------------------------------------------------
  // Conversations

  const TitlePrefix: string := "Health Consultation - "

  function TitleFor(form: MedicalForm): (t: string)
    ensures |t| == |TitlePrefix| + |form.name|
    ensures t[..|TitlePrefix|] == TitlePrefix && t[|TitlePrefix|..] == form.name
  {
    TitlePrefix + form.name
  }

  datatype ConversationCreated = ConversationCreated(conversationId: nat)

  const FormIdRequired: string := "Form ID is required"
  const FormNotFound: string := "Form not found or unauthorized"

  /** The selected columns of a conversation's form. */
  datatype FormSummary = FormSummary(id: nat, name: string, age: int)

  datatype ConversationRow = ConversationRow(id: nat, conversation: Conversation, medicalForm: Option<FormSummary>)

  /** The ids of the caller's conversations among those from `from` on, in table order. */
  function OwnedIds(conversations: seq<Conversation>, userId: string, from: nat): (r: seq<nat>)
    ensures forall i :: 0 <= i < |r| ==> from <= r[i] < |conversations|
    ensures forall id :: id in r <==> from <= id < |conversations| && conversations[id].userId == userId
    ensures forall i, j :: 0 <= i < j < |r| ==> r[i] < r[j]
    decreases |conversations| - from
  {
    if from >= |conversations| then []
    else if conversations[from].userId == userId then [from] + OwnedIds(conversations, userId, from + 1)
    else OwnedIds(conversations, userId, from + 1)
  }

  predicate NewestFirst(conversations: seq<Conversation>, ids: seq<nat>)
    requires forall i :: 0 <= i < |ids| ==> ids[i] < |conversations|
  {
    forall i, j :: 0 <= i < j < |ids| ==> conversations[ids[i]].updatedAt >= conversations[ids[j]].updatedAt
  }

  /** Places `id` before the first id that was updated no later than it. */
  function InsertByRecency(conversations: seq<Conversation>, id: nat, ids: seq<nat>): (r: seq<nat>)
    requires id < |conversations|
    requires forall i :: 0 <= i < |ids| ==> ids[i] < |conversations|
    ensures |r| == |ids| + 1
    ensures forall i :: 0 <= i < |r| ==> r[i] < |conversations|
    decreases |ids|
  {
    if |ids| == 0 || conversations[ids[0]].updatedAt <= conversations[id].updatedAt then
      [id] + ids
    else
      [ids[0]] + InsertByRecency(conversations, id, ids[1..])
  }

  lemma {:induction false} InsertByRecencyPermutes(conversations: seq<Conversation>, id: nat, ids: seq<nat>)
    requires id < |conversations|
    requires forall i :: 0 <= i < |ids| ==> ids[i] < |conversations|
    ensures multiset(InsertByRecency(conversations, id, ids)) == multiset(ids) + multiset{id}
    decreases |ids|
  {
    if !(|ids| == 0 || conversations[ids[0]].updatedAt <= conversations[id].updatedAt) {
      InsertByRecencyPermutes(conversations, id, ids[1..]);
      assert ids == [ids[0]] + ids[1..];
    }
  }

  /** Inserting into a newest-first list keeps it newest first. */
  lemma {:induction false} InsertByRecencySorted(conversations: seq<Conversation>, id: nat, ids: seq<nat>)
    requires id < |conversations|
    requires forall i :: 0 <= i < |ids| ==> ids[i] < |conversations|
    requires NewestFirst(conversations, ids)
    ensures NewestFirst(conversations, InsertByRecency(conversations, id, ids))
    decreases |ids|
  {
    var r := InsertByRecency(conversations, id, ids);
    if |ids| == 0 || conversations[ids[0]].updatedAt <= conversations[id].updatedAt {
      NewestFirstCons(conversations, id, ids);
    } else {
      var tail := ids[1..];
      var rest := InsertByRecency(conversations, id, tail);
      var t := conversations[ids[0]].updatedAt;
      InsertByRecencySorted(conversations, id, tail);
      InsertByRecencyPermutes(conversations, id, tail);
      assert r == [ids[0]] + rest;
      assert NoNewerThan(conversations, tail + [id], t) by {
        assert forall i :: 0 <= i < |tail| ==> tail[i] == ids[i + 1];
      }
      assert multiset(rest) == multiset(tail + [id]);
      NoNewerThanPermutation(conversations, rest, tail + [id], t);
      NewestFirstCons(conversations, ids[0], rest);
    }
  }

  /** No conversation of `ids` was updated after `t`. */
  predicate NoNewerThan(conversations: seq<Conversation>, ids: seq<nat>, t: int)
    requires forall i :: 0 <= i < |ids| ==> ids[i] < |conversations|
  {
    forall i :: 0 <= i < |ids| ==> conversations[ids[i]].updatedAt <= t
  }

  lemma NoNewerThanPermutation(conversations: seq<Conversation>, xs: seq<nat>, ys: seq<nat>, t: int)
    requires forall i :: 0 <= i < |ys| ==> ys[i] < |conversations|
    requires multiset(xs) == multiset(ys)
    requires NoNewerThan(conversations, ys, t)
    ensures forall i :: 0 <= i < |xs| ==> xs[i] < |conversations|
    ensures NoNewerThan(conversations, xs, t)
  {
    forall i | 0 <= i < |xs| ensures xs[i] < |conversations| && conversations[xs[i]].updatedAt <= t {
      assert xs[i] in multiset(ys);
      var k :| 0 <= k < |ys| && ys[k] == xs[i];
    }
  }

  lemma NewestFirstCons(conversations: seq<Conversation>, h: nat, ids: seq<nat>)
    requires h < |conversations|
    requires forall i :: 0 <= i < |ids| ==> ids[i] < |conversations|
    requires NewestFirst(conversations, ids)
    requires NoNewerThan(conversations, ids, conversations[h].updatedAt)
    ensures NewestFirst(conversations, [h] + ids)
  {
    var r := [h] + ids;
    assert forall i :: 1 <= i < |r| ==> r[i] == ids[i - 1];
  }

  /** `orderBy(desc(conversations.updatedAt))`, as an insertion sort. */
  function ByRecency(conversations: seq<Conversation>, ids: seq<nat>): (r: seq<nat>)
    requires forall i :: 0 <= i < |ids| ==> ids[i] < |conversations|
    ensures |r| == |ids|
    ensures forall i :: 0 <= i < |r| ==> r[i] < |conversations|
    decreases |ids|
  {
    if |ids| == 0 then [] else InsertByRecency(conversations, ids[0], ByRecency(conversations, ids[1..]))
  }

  /** The sort is a permutation, and its result is newest first. */
  lemma {:induction false} ByRecencyCorrect(conversations: seq<Conversation>, ids: seq<nat>)
    requires forall i :: 0 <= i < |ids| ==> ids[i] < |conversations|
    ensures multiset(ByRecency(conversations, ids)) == multiset(ids)
    ensures NewestFirst(conversations, ByRecency(conversations, ids))
    decreases |ids|
  {
    if |ids| > 0 {
      var sorted := ByRecency(conversations, ids[1..]);
      ByRecencyCorrect(conversations, ids[1..]);
      InsertByRecencyPermutes(conversations, ids[0], sorted);
      InsertByRecencySorted(conversations, ids[0], sorted);
      assert ids == [ids[0]] + ids[1..];
    }
  }

  function RowOf(conversations: seq<Conversation>, forms: seq<MedicalForm>, id: nat): ConversationRow
    requires id < |conversations|
  {
    var c := conversations[id];
    ConversationRow(id, c, if c.formId < |forms| then Some(FormSummary(c.formId, forms[c.formId].name, forms[c.formId].age)) else None)
  }

  /** The ids the `GET` route lists: the caller's conversations, most recently updated first. */
  function ListedIds(conversations: seq<Conversation>, userId: string): (ids: seq<nat>)
    ensures forall i :: 0 <= i < |ids| ==> ids[i] < |conversations|
  {
    ByRecency(conversations, OwnedIds(conversations, userId, 0))
  }

  /** The rows of the `GET` route, with the selected form columns. */
  function ConversationList(conversations: seq<Conversation>, forms: seq<MedicalForm>, userId: string)
    : (rows: seq<ConversationRow>)
    ensures |rows| == |ListedIds(conversations, userId)|
    ensures forall i :: 0 <= i < |rows| ==> rows[i] == RowOf(conversations, forms, ListedIds(conversations, userId)[i])
  {
    var ids := ListedIds(conversations, userId);
    seq(|ids|, i requires 0 <= i < |ids| => RowOf(conversations, forms, ids[i]))
  }

  /** Exactly the caller's conversations are listed. */
  lemma ListedIdsExact(conversations: seq<Conversation>, userId: string, id: nat)
    ensures id in ListedIds(conversations, userId) <==> id < |conversations| && conversations[id].userId == userId
  {
    var owned := OwnedIds(conversations, userId, 0);
    var ids := ListedIds(conversations, userId);
    ByRecencyCorrect(conversations, owned);
    assert id in ids <==> id in multiset(ids);
    assert id in owned <==> id in multiset(owned);
  }

  /** No conversation is listed twice. */
  lemma ListedIdsDistinct(conversations: seq<Conversation>, userId: string, i: nat, j: nat)
    requires i < j < |ListedIds(conversations, userId)|
    ensures ListedIds(conversations, userId)[i] != ListedIds(conversations, userId)[j]
  {
    var owned := OwnedIds(conversations, userId, 0);
    ByRecencyCorrect(conversations, owned);
    DistinctHasNoRepeat(owned, ListedIds(conversations, userId), i, j);
  }

  /** The listing is ordered by `updatedAt`, most recent first. */
  lemma ListedNewestFirst(conversations: seq<Conversation>, forms: seq<MedicalForm>, userId: string)
    ensures var rows := ConversationList(conversations, forms, userId);
      forall i, j :: 0 <= i < j < |rows| ==> rows[i].conversation.updatedAt >= rows[j].conversation.updatedAt
  {
    ByRecencyCorrect(conversations, OwnedIds(conversations, userId, 0));
  }

  /** A permutation of a strictly increasing sequence has no repeated element. */
  lemma DistinctHasNoRepeat(owned: seq<nat>, ids: seq<nat>, i: nat, j: nat)
    requires forall a, b :: 0 <= a < b < |owned| ==> owned[a] < owned[b]
    requires multiset(ids) == multiset(owned)
    requires 0 <= i < j < |ids|
    ensures ids[i] != ids[j]
  {
    if ids[i] == ids[j] {
      var x := ids[i];
      assert ids == ids[..i] + [x] + ids[i + 1..j] + [x] + ids[j + 1..];
      assert multiset(ids)[x] >= 2;
      OccursOnce(owned, x);
    }
  }

  lemma {:induction false} OccursOnce(owned: seq<nat>, x: nat)
    requires forall a, b :: 0 <= a < b < |owned| ==> owned[a] < owned[b]
    ensures multiset(owned)[x] <= 1
    decreases |owned|
  {
    if |owned| > 0 {
      OccursOnce(owned[1..], x);
      assert owned == [owned[0]] + owned[1..];
      if owned[0] == x {
        assert x !in owned[1..];
      }
    }
  }

  // ---------------------------------------------------------------------------
  // The store

  class Database {
    var users: map<string, User>
    var forms: seq<MedicalForm>
    var conversations: seq<Conversation>
    var transcripts: seq<seq<Message>>

    /** Every conversation has its list of messages. */
    ghost predicate Valid()
      reads this
    {
      |transcripts| == |conversations|
    }

    constructor()
      ensures Valid()
      ensures users == map[] && forms == [] && conversations == [] && transcripts == []
    {
      users := map[];
      forms := [];
      conversations := [];
      transcripts := [];
    }

    /**
     * The `POST` chat route. Storage calls: 0 selects the conversation, 1 its messages, then
     * the message inserts, then the `updatedAt` update.
     */
    method Chat(
      userId: Option<string>,
      conversationId: Option<nat>,
      message: Option<string>,
      images: seq<string>,
      provider: Provider,
      fault: Fault,
      now: Timestamp)
      returns (r: Response<ChatBody>)
      requires Valid()
      modifies this
      ensures Valid()
      ensures users == old(users) && forms == old(forms)
      ensures !Truthy(userId) ==> r == Failure(401, Unauthorized) && unchanged(this)
      ensures Truthy(userId) && conversationId.None? ==> r == Failure(400, ConversationIdRequired) && unchanged(this)
      ensures Truthy(userId) && conversationId.Some? && Throws(fault, 0)
        ==> r == DatabaseFailure(fault.error) && unchanged(this)
      ensures Truthy(userId) && conversationId.Some? && !Throws(fault, 0)
          && !Owns(old(conversations), conversationId.value, userId.value)
        ==> r == Failure(404, ConversationNotFound) && unchanged(this)
      ensures Truthy(userId) && conversationId.Some? && Owns(old(conversations), conversationId.value, userId.value)
        ==> var cid := conversationId.value;
          var turn := TurnOf(|old(transcripts)[cid]|, message);
          var reply := TurnReply(turn, message, FormOf(old(forms), old(conversations)[cid]), images, provider);
          if FailsBy(fault, 1) then r == DatabaseFailure(fault.error) && unchanged(this)
          else if turn == Rejected then r == Failure(400, MessageRequired) && unchanged(this)
          else Recorded(old(transcripts), old(conversations), transcripts, conversations,
            cid, TurnWrites(turn, message, images, reply, now), reply, fault, now, r)
    {
      if !Truthy(userId) {
        return Failure(401, Unauthorized);
      }
      if conversationId.None? {
        return Failure(400, ConversationIdRequired);
      }
      var cid := conversationId.value;
      if Throws(fault, 0) {
        return DatabaseFailure(fault.error);
      }
      if !(cid < |conversations| && conversations[cid].userId == userId.value) {
        return Failure(404, ConversationNotFound);
      }
      var medicalForm := FormOf(forms, conversations[cid]);
      if Throws(fault, 1) {
        return DatabaseFailure(fault.error);
      }
      var existing := transcripts[cid];
      if |existing| == 0 && !Filled(message) {
        r := InitialTurn(cid, medicalForm, provider, fault, now);
      } else {
        if !Filled(message) {
          return Failure(400, MessageRequired);
        }
        r := OrdinaryTurn(cid, message.value, medicalForm, images, provider, fault, now);
      }
    }

    /** The initial-assessment branch: one assistant message, then the update. */
    method InitialTurn(cid: nat, medicalForm: Option<MedicalForm>, provider: Provider, fault: Fault, now: Timestamp)
      returns (r: Response<ChatBody>)
      requires Valid() && cid < |conversations| && !FailsBy(fault, 1)
      modifies this
      ensures Valid()
      ensures users == old(users) && forms == old(forms)
      ensures var reply := Reply(provider(Prompt(Some(InitialAssessmentInstruction), medicalForm, [])));
        Recorded(old(transcripts), old(conversations), transcripts, conversations,
          cid, [AssistantMessage(reply, now)], reply, fault, now, r)
    {
      var aiResponse := GenerateInitialAssessment(medicalForm, provider);
      r := StoreAssistantReply(cid, aiResponse, 2, fault, now);
      InitialRecorded(old(transcripts), old(conversations), transcripts, conversations, cid, aiResponse, fault, now, r);
    }

    /** The ordinary branch: the user message, the reply from the last ten messages, the assistant message, the update. */
    method OrdinaryTurn(
      cid: nat, message: string, medicalForm: Option<MedicalForm>, images: seq<string>,
      provider: Provider, fault: Fault, now: Timestamp)
      returns (r: Response<ChatBody>)
      requires Valid() && cid < |conversations| && !FailsBy(fault, 1)
      modifies this
      ensures Valid()
      ensures users == old(users) && forms == old(forms)
      ensures var reply := Reply(provider(Prompt(Some(message), medicalForm, images)));
        Recorded(old(transcripts), old(conversations), transcripts, conversations,
          cid, [UserMessage(message, images, now), AssistantMessage(reply, now)], reply, fault, now, r)
    {
      var existing := transcripts[cid];
      var userMessage := UserMessage(message, images, now);
      if Throws(fault, 2) {
        ghost var reply := Reply(provider(Prompt(Some(message), medicalForm, images)));
        OrdinaryFailedFirst(transcripts, conversations, cid, [userMessage, AssistantMessage(reply, now)], reply, fault, now);
        return DatabaseFailure(fault.error);
      }
      transcripts := transcripts[cid := existing + [userMessage]];
      var recentMessages := RecentHistory(existing);
      var aiResponse := GenerateMedicalResponse(Some(message), medicalForm, images, recentMessages, provider);
      r := StoreAssistantReply(cid, aiResponse, 3, fault, now);
      OrdinaryRecorded(old(transcripts), old(conversations), transcripts, conversations, cid, userMessage, aiResponse, fault, now, r);
    }

    /** Inserts the assistant message with storage call `call`, then sets `updatedAt` with the next call. */
    method StoreAssistantReply(cid: nat, reply: string, call: nat, fault: Fault, now: Timestamp)
      returns (r: Response<ChatBody>)
      requires Valid() && cid < |conversations|
      modifies this
      ensures Valid()
      ensures users == old(users) && forms == old(forms)
      ensures AssistantStored(old(transcripts), old(conversations), transcripts, conversations, cid, reply, call, fault, now, r)
    {
      if Throws(fault, call) {
        return DatabaseFailure(fault.error);
      }
      transcripts := transcripts[cid := transcripts[cid] + [AssistantMessage(reply, now)]];
      if Throws(fault, call + 1) {
        return DatabaseFailure(fault.error);
      }
      conversations := conversations[cid := conversations[cid].(updatedAt := now)];
      r := Success(ChatBody(reply, cid));
    }

    /**
     * The `POST` forms route. Storage calls: 0 looks the user up, 1 inserts the user when there
     * is none, then the form is inserted. Every error is answered with 500.
     */
    method SubmitForm(userId: Option<string>, req: FormRequest, profile: AuthProfile, fault: Fault, now: Timestamp)
      returns (r: Response<FormCreated>)
      requires Valid()
      modifies this
      ensures Valid()
      ensures conversations == old(conversations) && transcripts == old(transcripts)
      ensures !Truthy(userId) ==> r == Failure(401, Unauthorized) && unchanged(this)
      ensures Truthy(userId) && !HasRequiredFields(req) ==> r == Failure(400, MissingRequiredFields) && unchanged(this)
      ensures Truthy(userId) && HasRequiredFields(req)
        ==> FormStored(old(users), old(forms), users, forms, userId.value, req, profile, fault, now, r)
    {
      if !Truthy(userId) {
        return Failure(401, Unauthorized);
      }
      if !Truthy(req.name) || !Truthy(req.age) || !Truthy(req.gender) || !Truthy(req.weight) || !Truthy(req.height) {
        return Failure(400, MissingRequiredFields);
      }
      r := StoreForm(userId.value, req, profile, fault, now);
    }

    /** The storage calls of the forms route once the request has passed its checks. */
    method StoreForm(uid: string, req: FormRequest, profile: AuthProfile, fault: Fault, now: Timestamp)
      returns (r: Response<FormCreated>)
      requires HasRequiredFields(req)
      modifies this
      ensures conversations == old(conversations) && transcripts == old(transcripts)
      ensures FormStored(old(users), old(forms), users, forms, uid, req, profile, fault, now, r)
    {
      var ok, formCall := EnsureUserRow(uid, profile, req.name.value, fault, now);
      if !ok {
        return Failure(500, InternalServerError);
      }
      var age := StoredAge(req.age.value);
      if Throws(fault, formCall) || age.None? {
        return Failure(500, InternalServerError);
      }
      forms := forms + [NewForm(uid, req, age.value, now)];
      r := Success(FormCreated(|forms| - 1));
    }

    /**
     * Looks the user up (call 0) and inserts the user row when there is none (call 1); the
     * insert fails on a taken e-mail address. Also gives the index of the next storage call.
     */
    method EnsureUserRow(uid: string, profile: AuthProfile, name: string, fault: Fault, now: Timestamp)
      returns (ok: bool, nextCall: nat)
      modifies this
      ensures ok <==> EnsureUser(old(users), uid, profile, name, fault, now).Some?
      ensures users == if ok then EnsureUser(old(users), uid, profile, name, fault, now).value else old(users)
      ensures nextCall == if uid in old(users) then 1 else 2
      ensures forms == old(forms) && conversations == old(conversations) && transcripts == old(transcripts)
    {
      nextCall := if uid in users then 1 else 2;
      if Throws(fault, 0) {
        return false, nextCall;
      }
      if uid !in users {
        if Throws(fault, 1) || EmailTaken(users, PrimaryEmail(profile)) {
          return false, nextCall;
        }
        users := users[uid := NewUser(uid, profile, name, now)];
      }
      ok := true;
    }

    /**
     * The `POST` conversations route. Storage calls: 0 selects the form, 1 inserts the
     * conversation.
     */
    method CreateConversation(userId: Option<string>, formId: Option<nat>, fault: Fault, now: Timestamp)
      returns (r: Response<ConversationCreated>)
      requires Valid()
      modifies this
      ensures Valid()
      ensures users == old(users) && forms == old(forms)
      ensures !Truthy(userId) ==> r == Failure(401, Unauthorized) && unchanged(this)
      ensures Truthy(userId) && formId.None? ==> r == Failure(400, FormIdRequired) && unchanged(this)
      ensures Truthy(userId) && formId.Some? && Throws(fault, 0) ==> r == DatabaseFailure(fault.error) && unchanged(this)
      ensures Truthy(userId) && formId.Some? && !Throws(fault, 0)
          && !(formId.value < |old(forms)| && old(forms)[formId.value].userId == userId.value)
        ==> r == Failure(404, FormNotFound) && unchanged(this)
      ensures Truthy(userId) && formId.Some? && formId.value < |old(forms)| && old(forms)[formId.value].userId == userId.value
        ==> var fid := formId.value;
          if FailsBy(fault, 1) then r == DatabaseFailure(fault.error) && unchanged(this)
          else
            && conversations == old(conversations) + [Conversation(userId.value, fid, Some(TitleFor(old(forms)[fid])), now, now)]
            && transcripts == old(transcripts) + [[]]
            && r == Success(ConversationCreated(|old(conversations)|))
    {
      if !Truthy(userId) {
        return Failure(401, Unauthorized);
      }
      if formId.None? {
        return Failure(400, FormIdRequired);
      }
      var fid := formId.value;
      if Throws(fault, 0) {
        return DatabaseFailure(fault.error);
      }
      if !(fid < |forms| && forms[fid].userId == userId.value) {
        return Failure(404, FormNotFound);
      }
      if Throws(fault, 1) {
        return DatabaseFailure(fault.error);
      }
      conversations := conversations + [Conversation(userId.value, fid, Some(TitleFor(forms[fid])), now, now)];
      transcripts := transcripts + [[]];
      r := Success(ConversationCreated(|conversations| - 1));
    }

    /** The `GET` conversations route: one storage call, the selection. */
    method ListConversations(userId: Option<string>, fault: Fault) returns (r: Response<seq<ConversationRow>>)
      ensures !Truthy(userId) ==> r == Failure(401, Unauthorized)
      ensures Truthy(userId) && Throws(fault, 0) ==> r == DatabaseFailure(fault.error)
      ensures Truthy(userId) && !Throws(fault, 0) ==> r == Success(ConversationList(conversations, forms, userId.value))
    {
      if !Truthy(userId) {
        return Failure(401, Unauthorized);
      }
      if Throws(fault, 0) {
        return DatabaseFailure(fault.error);
      }
      r := Success(ConversationList(conversations, forms, userId.value));
    }
  }
}
