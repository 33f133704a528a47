/**
 The complaint chatbot of the web client: a dialogue that is idle, filing or
 tracking, with a step cursor and a draft of the eleven complaint fields. Each
 trimmed message moves it one step; the effect of a step (a reply, a submission, a
 search) is returned alongside the new state. Date parsing, the network and the
 timers are outside: the parse result of the current message, the server's answer
 and the scheduled action enter and leave as values.
 */
module Chatbot {
  import opened Wrappers
  import opened Text
  import opened Complaints
  import opened Auth
  import opened Listing

  // ---------------------------------------------------------------- vehicle kinds

  datatype VehicleKind = Car | Motorcycle | Scooter | Bicycle | Truck | Other {
    /** The lower-case name stored in the draft and echoed back. */
    function Name(): string {
      match this
      case Car => "car"
      case Motorcycle => "motorcycle"
      case Scooter => "scooter"
      case Bicycle => "bicycle"
      case Truck => "truck"
      case Other => "other"
    }
  }

  predicate IsLowerLetter(c: char) {
    'a' <= c <= 'z'
  }

  /** `s.toLowerCase().replace(/[^a-z]/g, '')`: the ASCII letters of `s`, lower-cased, in order. */
  function Letters(s: string): (r: string)
    ensures forall i | 0 <= i < |r| :: IsLowerLetter(r[i])
    ensures |r| <= |s|
  {
    if |s| == 0 then ""
    else if IsLowerLetter(LowerChar(s[0])) then [LowerChar(s[0])] + Letters(s[1..])
    else Letters(s[1..])
  }

  /** The classifier's priority ladder on the letters of the answer. */
  function Classify(letters: string): VehicleKind {
    if Contains(letters, "car") then Car
    else if Contains(letters, "motorcycle") || Contains(letters, "bike") then Motorcycle
    else if Contains(letters, "scooter") then Scooter
    else if Contains(letters, "bicycle") || Contains(letters, "cycle") then Bicycle
    else if Contains(letters, "truck") then Truck
    else Other
  }

  /** The ladder as a table: each kind with the keywords that select it, highest
      priority first. */
  const KindTable: seq<(VehicleKind, seq<string>)> := [
    (Car, ["car"]), (Motorcycle, ["motorcycle", "bike"]), (Scooter, ["scooter"]),
    (Bicycle, ["bicycle", "cycle"]), (Truck, ["truck"])]

  predicate AnyContained(s: string, keywords: seq<string>) {
    exists k | 0 <= k < |keywords| :: Contains(s, keywords[k])
  }

  /** Reference reading of the table: the first row one of whose keywords occurs. */
  function FirstRow(table: seq<(VehicleKind, seq<string>)>, s: string): VehicleKind {
    if |table| == 0 then Other
    else if AnyContained(s, table[0].1) then table[0].0
    else FirstRow(table[1..], s)
  }

  /** The ladder is the table read from the top: the first row with a keyword
      that occurs decides, and no row gives `Other`. */
  lemma ClassifyFollowsTable(s: string)
    ensures Classify(s) == FirstRow(KindTable, s)
  {
    assert AnyContained(s, ["car"]) <==> Contains(s, "car") by {
      assert ["car"][0] == "car";
    }
    assert AnyContained(s, ["motorcycle", "bike"]) <==> Contains(s, "motorcycle") || Contains(s, "bike") by {
      assert ["motorcycle", "bike"][0] == "motorcycle" && ["motorcycle", "bike"][1] == "bike";
    }
    assert AnyContained(s, ["scooter"]) <==> Contains(s, "scooter") by {
      assert ["scooter"][0] == "scooter";
    }
    assert AnyContained(s, ["bicycle", "cycle"]) <==> Contains(s, "bicycle") || Contains(s, "cycle") by {
      assert ["bicycle", "cycle"][0] == "bicycle" && ["bicycle", "cycle"][1] == "cycle";
    }
    assert AnyContained(s, ["truck"]) <==> Contains(s, "truck") by {
      assert ["truck"][0] == "truck";
    }
    var t := KindTable;
    assert FirstRow(t[5..], s) == Other;
    assert FirstRow(t[4..], s) == if Contains(s, "truck") then Truck else Other;
    assert FirstRow(t[3..], s) == if Contains(s, "bicycle") || Contains(s, "cycle") then Bicycle else FirstRow(t[4..], s);
    assert FirstRow(t[2..], s) == if Contains(s, "scooter") then Scooter else FirstRow(t[3..], s);
    assert FirstRow(t[1..], s) == if Contains(s, "motorcycle") || Contains(s, "bike") then Motorcycle else FirstRow(t[2..], s);
  }

  /** The vehicle type stored at step 2: the classifier applied to the answer's letters. */
  function VehicleKindOf(answer: string): VehicleKind {
    Classify(Letters(answer))
  }

  /** Letters are unaffected by case: `Letters` already lower-cases. */
  lemma {:induction false} LettersIgnoreCase(s: string)
    ensures Letters(Lower(s)) == Letters(s)
  {
    if |s| > 0 {
      LettersIgnoreCase(s[1..]);
      assert Lower(s)[1..] == Lower(s[1..]);
    }
  }

  /** Letters of a string of lower-case letters are the string itself. */
  lemma {:induction false} LettersOfLetters(s: string)
    requires forall i | 0 <= i < |s| :: IsLowerLetter(s[i])
    ensures Letters(s) == s
  {
    if |s| > 0 {
      LettersOfLetters(s[1..]);
      assert [s[0]] + s[1..] == s;
    }
  }

  /** Non-letters make no difference: inserting a non-letter anywhere changes nothing. */
  lemma {:induction false} LettersSkipNonLetter(a: string, c: char, b: string)
    requires !IsLowerLetter(LowerChar(c))
    ensures Letters(a + [c] + b) == Letters(a + b)
    decreases |a|
  {
    if |a| == 0 {
      assert (a + [c] + b)[1..] == b;
      assert a + b == b;
    } else {
      assert (a + [c] + b)[1..] == a[1..] + [c] + b;
      assert (a + b)[1..] == a[1..] + b;
      LettersSkipNonLetter(a[1..], c, b);
    }
  }

  /** The classifier ignores case. */
  lemma KindIgnoresCase(answer: string)
    ensures VehicleKindOf(Lower(answer)) == VehicleKindOf(answer)
  {
    LettersIgnoreCase(answer);
  }

  /** The classifier ignores every non-letter. */
  lemma KindIgnoresNonLetters(a: string, c: char, b: string)
    requires !IsLowerLetter(LowerChar(c))
    ensures VehicleKindOf(a + [c] + b) == VehicleKindOf(a + b)
  {
    LettersSkipNonLetter(a, c, b);
  }

  /** `t` does not occur in `s` when one of its characters is missing from `s`. */
  lemma NotContained(s: string, t: string, k: int)
    requires 0 <= k < |t| && t[k] !in s
    ensures !Contains(s, t)
  {
    if Contains(s, t) {
      ContainsHasChars(s, t);
    }
  }

  lemma ContainsItself(s: string)
    ensures Contains(s, s)
  {
    assert s[..|s|] == s;
  }

  /** A stored type name consists of lower-case letters only. */
  lemma NameIsLetters(k: VehicleKind)
    ensures Letters(k.Name()) == k.Name()
  {
    LettersOfLetters(k.Name());
  }

  /** Classifying a stored type name gives that type back: the classifier is onto
      the six kinds and idempotent on its own outputs. */
  lemma KindOfNameIsIdempotent(k: VehicleKind)
    ensures VehicleKindOf(k.Name()) == k
  {
    NameIsLetters(k);
    NameClassifies(k);
  }

  lemma NameClassifies(k: VehicleKind)
    ensures Classify(k.Name()) == k
  {
    match k
    case Car => CarClassifies();
    case Motorcycle => MotorcycleClassifies();
    case Scooter => ScooterClassifies();
    case Bicycle => BicycleClassifies();
    case Truck => TruckClassifies();
    case Other => OtherClassifies();
  }

  lemma CarClassifies()
    ensures Classify("car") == Car
  {
    ContainsItself("car");
  }

  lemma MotorcycleClassifies()
    ensures Classify("motorcycle") == Motorcycle
  {
    ContainsItself("motorcycle");
    NotContained("motorcycle", "car", 1);
  }

  lemma ScooterClassifies()
    ensures Classify("scooter") == Scooter
  {
    ContainsItself("scooter");
    NotContained("scooter", "car", 1);
    NotContained("scooter", "motorcycle", 0);
    NotContained("scooter", "bike", 0);
  }

  lemma BicycleClassifies()
    ensures Classify("bicycle") == Bicycle
  {
    ContainsItself("bicycle");
    NotContained("bicycle", "car", 1);
    NotContained("bicycle", "motorcycle", 0);
    NotContained("bicycle", "bike", 2);
    NotContained("bicycle", "scooter", 0);
  }

  lemma TruckClassifies()
    ensures Classify("truck") == Truck
  {
    ContainsItself("truck");
    NotContained("truck", "car", 1);
    NotContained("truck", "motorcycle", 0);
    NotContained("truck", "bike", 0);
    NotContained("truck", "scooter", 0);
    NotContained("truck", "bicycle", 0);
    NotContained("truck", "cycle", 1);
  }

  lemma OtherClassifies()
    ensures Classify("other") == Other
  {
    NotContained("other", "car", 0);
    NotContained("other", "motorcycle", 0);
    NotContained("other", "bike", 0);
    NotContained("other", "scooter", 0);
    NotContained("other", "bicycle", 0);
    NotContained("other", "cycle", 0);
    NotContained("other", "truck", 2);
  }

  lemma {:induction false} LettersAppend(a: string, b: string)
    ensures Letters(a + b) == Letters(a) + Letters(b)
  {
    if |a| > 0 {
      assert (a + b)[1..] == a[1..] + b;
      LettersAppend(a[1..], b);
    } else {
      assert a + b == b;
    }
  }

  /** A text without letters has no letters to classify. */
  lemma {:induction false} LettersOfNonLetters(s: string)
    requires forall i | 0 <= i < |s| :: !IsLowerLetter(LowerChar(s[i]))
    ensures Letters(s) == ""
  {
    if |s| > 0 {
      LettersOfNonLetters(s[1..]);
    }
  }

  /** Letters followed by non-letters: only the letters remain. */
  lemma LettersThenNonLetters(w: string, tail: string)
    requires forall i | 0 <= i < |w| :: IsLowerLetter(w[i])
    requires forall i | 0 <= i < |tail| :: !IsLowerLetter(LowerChar(tail[i]))
    ensures Letters(w + tail) == w
  {
    LettersAppend(w, tail);
    LettersOfLetters(w);
    LettersOfNonLetters(tail);
  }

  /** "motorbike" contains "bike" and no "car": the second rung decides. */
  lemma MotorbikeClassifies()
    ensures Classify("motorbike") == Motorcycle
  {
    assert "motorbike" == "motor" + "bike" + "";
    ContainsInfix("motor", "bike", "");
    NotContained("motorbike", "car", 0);
  }

  /** "motorbike" followed by any digits ("motorbike123") is a motorcycle. */
  lemma MotorbikeIsMotorcycle(digits: string)
    requires forall i | 0 <= i < |digits| :: IsDigit(digits[i])
    ensures VehicleKindOf("motorbike" + digits) == Motorcycle
  {
    LettersThenNonLetters("motorbike", digits);
    MotorbikeClassifies();
  }

  // ---------------------------------------------------------------- the draft

  /** `chatbotData` while filing: the eleven answers, `''` until given. */
  datatype Draft = Draft(
    vehicleNumber: string, vehicleType: string, vehicleModel: string, vehicleColor: string,
    theftDate: string, theftLocation: string, description: string,
    complainantName: string, complainantPhone: string, complainantEmail: string, complainantAddress: string)

  const BlankDraft := Draft("", "", "", "", "", "", "", "", "", "", "")

  function DraftValue(d: Draft, f: Field): string {
    match f
    case VehicleNumber => d.vehicleNumber
    case VehicleType => d.vehicleType
    case VehicleModel => d.vehicleModel
    case VehicleColor => d.vehicleColor
    case TheftDate => d.theftDate
    case TheftLocation => d.theftLocation
    case Description => d.description
    case ComplainantName => d.complainantName
    case ComplainantPhone => d.complainantPhone
    case ComplainantEmail => d.complainantEmail
    case ComplainantAddress => d.complainantAddress
  }

  /** Stores `v` in field `f` and in no other field. */
  function SetField(d: Draft, f: Field, v: string): (r: Draft)
    ensures DraftValue(r, f) == v
    ensures forall g | g != f :: DraftValue(r, g) == DraftValue(d, g)
  {
    match f
    case VehicleNumber => d.(vehicleNumber := v)
    case VehicleType => d.(vehicleType := v)
    case VehicleModel => d.(vehicleModel := v)
    case VehicleColor => d.(vehicleColor := v)
    case TheftDate => d.(theftDate := v)
    case TheftLocation => d.(theftLocation := v)
    case Description => d.(description := v)
    case ComplainantName => d.(complainantName := v)
    case ComplainantPhone => d.(complainantPhone := v)
    case ComplainantEmail => d.(complainantEmail := v)
    case ComplainantAddress => d.(complainantAddress := v)
  }

  /** The question asked at each step, in the order of the form. */
  function StepField(step: int): (f: Field)
    requires 1 <= step <= 11
  {
    if step == 1 then VehicleNumber
    else if step == 2 then VehicleType
    else if step == 3 then VehicleModel
    else if step == 4 then VehicleColor
    else if step == 5 then TheftDate
    else if step == 6 then TheftLocation
    else if step == 7 then Description
    else if step == 8 then ComplainantName
    else if step == 9 then ComplainantPhone
    else if step == 10 then ComplainantEmail
    else ComplainantAddress
  }

  /** The step whose answer fills a field. */
  function StepOf(f: Field): (step: int)
    ensures 1 <= step <= 11 && StepField(step) == f
  {
    match f
    case VehicleNumber => 1
    case VehicleType => 2
    case VehicleModel => 3
    case VehicleColor => 4
    case TheftDate => 5
    case TheftLocation => 6
    case Description => 7
    case ComplainantName => 8
    case ComplainantPhone => 9
    case ComplainantEmail => 10
    case ComplainantAddress => 11
  }

  lemma StepFieldIsOneToOne(step: int)
    requires 1 <= step <= 11
    ensures StepOf(StepField(step)) == step
  {
  }

  /** The multipart form the chatbot posts: every field is sent, as stored. */
  function ToForm(d: Draft): (form: Form)
    ensures forall f :: FieldValue(form, f) == Some(DraftValue(d, f))
  {
    Form(Some(d.vehicleNumber), Some(d.vehicleType), Some(d.vehicleModel), Some(d.vehicleColor),
         Some(d.theftDate), Some(d.theftLocation), Some(d.description), Some(d.complainantName),
         Some(d.complainantPhone), Some(d.complainantEmail), Some(d.complainantAddress))
  }

  // ---------------------------------------------------------------- the theft date

  /** `\d{4}-\d{2}-\d{2}` matches at position `i`. */
  predicate DateAt(s: string, i: int) {
    0 <= i && i + 10 <= |s|
    && IsDigit(s[i]) && IsDigit(s[i + 1]) && IsDigit(s[i + 2]) && IsDigit(s[i + 3]) && s[i + 4] == '-'
    && IsDigit(s[i + 5]) && IsDigit(s[i + 6]) && s[i + 7] == '-' && IsDigit(s[i + 8]) && IsDigit(s[i + 9])
  }

  /** The unanchored pattern matches somewhere. */
  predicate HasDatePattern(s: string) {
    exists i | 0 <= i <= |s| - 10 :: DateAt(s, i)
  }

  /** `slice(0, 16)`. */
  function Prefix16(s: string): (r: string)
    ensures |r| == if |s| < 16 then |s| else 16
    ensures r == s[..|r|]
  {
    if |s| < 16 then s else s[..16]
  }

  const NoonSuffix := "T12:00"

  /** The value stored at step 5. `parsed` is `new Date(text).toISOString()` when
      the date is valid and `None` when it is not. */
  function TheftDateValue(text: string, parsed: Option<string>): (v: string)
    ensures parsed.Some? ==> v == Prefix16(parsed.value)
    ensures parsed.None? && 'T' !in text && HasDatePattern(text) ==> v == text + NoonSuffix
    ensures parsed.None? && ('T' in text || !HasDatePattern(text)) ==> v == text
  {
    ContainsChar(text, 'T');
    if parsed.Some? then Prefix16(parsed.value)
    else if !Contains(text, "T") && HasDatePattern(text) then text + NoonSuffix
    else text
  }

  // ---------------------------------------------------------------- the dialogue

  datatype Mode = Idle | Filing | Tracking

  /** `chatbotState` and `chatbotData`. Outside filing the draft plays no part; the
      `{}` and `{ step: 0 }` of idle and tracking are step 0 with a blank draft. */
  datatype Chat = Chat(mode: Mode, step: int, draft: Draft)

  /** `resetChatbot`. */
  const Initial := Chat(Idle, 0, BlankDraft)

  /** `chatbotStartFiling`, from any state. */
  function StartFiling(chat: Chat): (r: Chat)
    ensures r.mode == Filing && r.step == 1
    ensures forall f :: DraftValue(r.draft, f) == ""
  {
    Chat(Filing, 1, BlankDraft)
  }

  /** `chatbotStartTracking`, from any state. */
  function StartTracking(chat: Chat): (r: Chat)
    ensures r.mode == Tracking && r.step == 0
  {
    Chat(Tracking, 0, BlankDraft)
  }

  /** What the bot does in answer to one message. */
  datatype Effect =
    | Ignore                                     // empty message: nothing happens
    | AskToLogIn                                 // not signed in
    | AskToChoose                                // idle: pick filing or tracking
    | Acknowledge(step: int, echo: Option<string>) // a filing answer, echoed (or not) before the next question
    | Submit(form: Form)                         // step 11: POST the draft
    | Search(term: string)                       // tracking: search the caller's complaints
    | OfferOptions                               // filing at an unknown step

  datatype Turn = Turn(chat: Chat, effect: Effect)

  /** `message.toLowerCase() !== 'skip'` fails. */
  predicate IsSkip(message: string) {
    Lower(message) == "skip"
  }

  /** The value a filing answer stores. */
  function StepValue(step: int, message: string, parsedDate: Option<string>): string {
    if step == 2 then VehicleKindOf(message).Name()
    else if step == 5 then TheftDateValue(message, parsedDate)
    else message
  }

  /** The text echoed after a filing answer (none after the description). */
  function StepEcho(step: int, message: string): Option<string> {
    if step == 2 then Some(VehicleKindOf(message).Name())
    else if step == 7 then None
    else Some(message)
  }

  /** `handleFilingConversation` on a trimmed, non-empty message. */
  function FilingStep(chat: Chat, message: string, parsedDate: Option<string>): (t: Turn)
    requires chat.mode == Filing
    ensures t.chat.mode == Filing
  {
    var step := chat.step;
    if step == 11 then
      var draft := if IsSkip(message) then chat.draft else SetField(chat.draft, ComplainantAddress, message);
      Turn(Chat(Filing, 11, draft), Submit(ToForm(draft)))
    else if 1 <= step <= 10 then
      var draft :=
        if step == 7 && IsSkip(message) then chat.draft
        else SetField(chat.draft, StepField(step), StepValue(step, message, parsedDate));
      Turn(Chat(Filing, step + 1, draft), Acknowledge(step, StepEcho(step, message)))
    else
      Turn(chat, OfferOptions)
  }

  /** `sendChatbotMessage`: the raw input is trimmed; an empty message is dropped, a
      signed-out user is told to log in, and otherwise the mode decides. `parsedDate`
      is the date parser's verdict on the trimmed message. */
  function Advance(chat: Chat, input: string, signedIn: bool, parsedDate: Option<string>): (t: Turn)
    ensures Trim(input) == "" ==> t == Turn(chat, Ignore)
    ensures Trim(input) != "" && !signedIn ==> t == Turn(chat, AskToLogIn)
    ensures Trim(input) != "" && signedIn && chat.mode == Idle ==> t == Turn(chat, AskToChoose)
    ensures Trim(input) != "" && signedIn && chat.mode == Tracking ==> t == Turn(chat, Search(Trim(input)))
    ensures Trim(input) != "" && signedIn && chat.mode == Filing ==> t == FilingStep(chat, Trim(input), parsedDate)
    ensures t.chat.mode == chat.mode
  {
    var message := Trim(input);
    if message == "" then Turn(chat, Ignore)
    else if !signedIn then Turn(chat, AskToLogIn)
    else
      match chat.mode
      case Filing => FilingStep(chat, message, parsedDate)
      case Tracking => Turn(chat, Search(message))
      case Idle => Turn(chat, AskToChoose)
  }

  // ---------------------------------------------------------------- filing, step by step

  /** At steps 1 to 10 an answer (other than a skipped description) stores its value
      in the step's field and in no other, and moves to the next step. */
  lemma AnswerFillsOneField(chat: Chat, message: string, parsedDate: Option<string>)
    requires chat.mode == Filing && 1 <= chat.step <= 10
    requires !(chat.step == 7 && IsSkip(message))
    ensures var t := FilingStep(chat, message, parsedDate);
            && t.chat.step == chat.step + 1
            && DraftValue(t.chat.draft, StepField(chat.step)) == StepValue(chat.step, message, parsedDate)
            && (forall f | f != StepField(chat.step) :: DraftValue(t.chat.draft, f) == DraftValue(chat.draft, f))
            && t.effect == Acknowledge(chat.step, StepEcho(chat.step, message))
  {
  }

  /** "skip" (in any case) at step 7 or 11 leaves the draft exactly as it was: the
      field keeps the `''` it was given when filing started. */
  lemma SkipKeepsDraft(chat: Chat, message: string, parsedDate: Option<string>)
    requires chat.mode == Filing && (chat.step == 7 || chat.step == 11) && IsSkip(message)
    ensures FilingStep(chat, message, parsedDate).chat.draft == chat.draft
  {
  }

  /** The typed text is trimmed before the skip test, and the test ignores case: "skip"
      with any capitalisation and any surrounding white space, typed at the
      description or the address step, leaves the draft as it was. */
  lemma PaddedSkipKeepsDraft(chat: Chat, input: string, parsedDate: Option<string>)
    requires chat.mode == Filing && (chat.step == 7 || chat.step == 11)
    requires Lower(Trim(input)) == "skip"
    ensures Advance(chat, input, true, parsedDate).chat.draft == chat.draft
  {
    assert |Trim(input)| == 4;
  }

  /** A skipped field is still sent, as `''`, when nothing was stored before. */
  lemma SkippedFieldIsSentBlank(chat: Chat, message: string, parsedDate: Option<string>, f: Field)
    requires chat.mode == Filing && chat.step == 11 && IsSkip(message)
    requires f == ComplainantAddress && DraftValue(chat.draft, f) == ""
    ensures FilingStep(chat, message, parsedDate).effect.Submit?
    ensures FieldValue(FilingStep(chat, message, parsedDate).effect.form, f) == Some("")
  {
  }

  /** Step 11 submits once per message and stays at step 11: a second message before
      the reset submits the draft again. */
  lemma LastStepResubmits(chat: Chat, message: string, parsedDate: Option<string>)
    requires chat.mode == Filing && chat.step == 11
    ensures var t := FilingStep(chat, message, parsedDate);
            && t.chat.step == 11
            && t.effect == Submit(ToForm(t.chat.draft))
            && FilingStep(t.chat, message, parsedDate) == t
  {
  }

  /** At step 11 a message other than "skip" is taken as the address: it overwrites the
      address field and the form is sent with it. */
  lemma LastStepStoresAddress(chat: Chat, message: string, parsedDate: Option<string>)
    requires chat.mode == Filing && chat.step == 11 && !IsSkip(message)
    ensures var t := FilingStep(chat, message, parsedDate);
            && t.chat.draft == SetField(chat.draft, ComplainantAddress, message)
            && t.effect == Submit(ToForm(t.chat.draft))
            && FieldValue(t.effect.form, ComplainantAddress) == Some(message)
  {
  }

  /** At a step outside 1 to 11 nothing changes. */
  lemma UnknownStepChangesNothing(chat: Chat, message: string, parsedDate: Option<string>)
    requires chat.mode == Filing && !(1 <= chat.step <= 11)
    ensures FilingStep(chat, message, parsedDate) == Turn(chat, OfferOptions)
  {
  }

  /** The messages that change nothing: an empty one, any while signed out, and any
      while idle. */
  lemma IgnoredMessagesChangeNothing(chat: Chat, input: string, signedIn: bool, parsedDate: Option<string>)
    requires Trim(input) == "" || !signedIn || chat.mode == Idle
    ensures Advance(chat, input, signedIn, parsedDate).chat == chat
    ensures Advance(chat, input, signedIn, parsedDate).effect in {Ignore, AskToLogIn, AskToChoose}
  {
  }

  /** The echo after the date question repeats the raw answer, not the stored value. */
  lemma DateEchoIsRaw(chat: Chat, message: string, parsedDate: Option<string>)
    requires chat.mode == Filing && chat.step == 5
    ensures FilingStep(chat, message, parsedDate).effect == Acknowledge(5, Some(message))
  {
  }

  // ---------------------------------------------------------------- the filing invariant

  /** What the date parser may give back: an ISO text, which starts with a digit.
      (Anything with a non-blank first character will do.) */
  predicate SaneDate(parsed: Option<string>) {
    parsed.None? || (|parsed.value| > 0 && !IsSpace(parsed.value[0]))
  }

  /** While filing, the cursor is at a known step and every required field whose
      question has been answered holds a non-blank value. */
  ghost predicate Ready(chat: Chat) {
    chat.mode == Filing ==>
      && 1 <= chat.step <= 11
      && forall f | f in RequiredFields && StepOf(f) < chat.step :: !AllSpace(DraftValue(chat.draft, f))
  }

  lemma InitialIsReady()
    ensures Ready(Initial)
    ensures Ready(StartTracking(Initial))
  {
  }

  lemma StartFilingIsReady(chat: Chat)
    ensures Ready(StartFiling(chat))
  {
  }

  /** A stored type name is not blank. */
  lemma NameIsNotBlank(k: VehicleKind)
    ensures !AllSpace(k.Name())
  {
    assert !IsSpace(k.Name()[0]);
  }

  /** A non-blank message stores a non-blank value at every step. */
  lemma StepValueIsNotBlank(step: int, message: string, parsedDate: Option<string>)
    requires message != [] && !IsSpace(message[0]) && SaneDate(parsedDate)
    ensures !AllSpace(StepValue(step, message, parsedDate))
  {
    if step == 2 {
      NameIsNotBlank(VehicleKindOf(message));
    } else if step == 5 {
      var v := TheftDateValue(message, parsedDate);
      assert v != [] && !IsSpace(v[0]);
    }
  }

  /** One filing answer keeps the invariant. */
  lemma FilingStepKeepsReady(chat: Chat, message: string, parsedDate: Option<string>)
    requires Ready(chat) && chat.mode == Filing && SaneDate(parsedDate)
    requires message != [] && !IsSpace(message[0])
    ensures Ready(FilingStep(chat, message, parsedDate).chat)
  {
    if 1 <= chat.step <= 10 {
      var t := FilingStep(chat, message, parsedDate);
      var g := StepField(chat.step);
      forall f | f in RequiredFields && StepOf(f) < t.chat.step
        ensures !AllSpace(DraftValue(t.chat.draft, f))
      {
        if f == g {
          if chat.step == 7 {
            assert false;
          }
          StepValueIsNotBlank(chat.step, message, parsedDate);
        } else {
          assert StepOf(f) != chat.step;
        }
      }
    }
  }

  /** Every message keeps the filing invariant. */
  lemma AdvanceKeepsReady(chat: Chat, input: string, signedIn: bool, parsedDate: Option<string>)
    requires Ready(chat) && SaneDate(parsedDate)
    ensures Ready(Advance(chat, input, signedIn, parsedDate).chat)
  {
    var message := Trim(input);
    if message != "" && signedIn && chat.mode == Filing {
      FilingStepKeepsReady(chat, message, parsedDate);
    }
  }

  /** A draft whose required fields are all non-blank can only be refused for the
      shape of its e-mail. */
  lemma FilledDraftFailsOnlyOnEmail(d: Draft)
    requires forall f | f in RequiredFields :: !AllSpace(DraftValue(d, f))
    ensures forall e | e in Validate(ToForm(d)) :: e.field == ComplainantEmail && e.message == InvalidEmailMessage
  {
    var form := ToForm(d);
    var errors := Validate(form);
    forall e | e in errors
      ensures e.field == ComplainantEmail && e.message == InvalidEmailMessage
    {
      var i :| 0 <= i < |errors| && errors[i] == e;
      var n :| 0 <= n < |RequiredFields| && RequiredFields[n] == e.field;
      assert !Missing(FieldValue(form, e.field));
      assert Fails(form, RequiredFields[n]);
    }
  }

  /** What the chatbot submits can only be refused for the shape of the e-mail: every
      other required field has been answered with a non-blank value. */
  lemma SubmittedFormLacksNothing(chat: Chat, input: string, signedIn: bool, parsedDate: Option<string>)
    requires Ready(chat) && chat.mode == Filing && chat.step == 11
    requires Trim(input) != "" && signedIn
    ensures var t := Advance(chat, input, signedIn, parsedDate);
            && t.effect.Submit?
            && forall e | e in Validate(t.effect.form) :: e.field == ComplainantEmail && e.message == InvalidEmailMessage
  {
    var t := FilingStep(chat, Trim(input), parsedDate);
    assert Advance(chat, input, signedIn, parsedDate) == t;
    forall f | f in RequiredFields
      ensures !AllSpace(DraftValue(t.chat.draft, f))
    {
      var n :| 0 <= n < |RequiredFields| && RequiredFields[n] == f;
      assert StepOf(RequiredFields[n]) < 11;
      assert DraftValue(t.chat.draft, f) == DraftValue(chat.draft, f);
    }
    FilledDraftFailsOnlyOnEmail(t.chat.draft);
  }

  // ---------------------------------------------------------------- the submission

  /** What the bot reports once the POST has settled. */
  datatype Outcome =
    | Filed(caseNumber: Option<string>)  // shown as "undefined" when the body has none
    | SessionExpired
    | Rejected(message: string)
    | NetworkFailure                     // `fetch` threw; the draft is kept

  /** The action scheduled after the report. */
  datatype Timer = NoTimer | ResetAfter(millis: int) | LogoutAfter(millis: int)

  const ParseFailedError := "Failed to parse response"
  const SubmitFailedError := "Failed to submit complaint"

  /** `response.ok`. */
  predicate Ok(status: int) {
    200 <= status <= 299
  }

  /** `await response.json().catch(...)`: a body that is not JSON reads as an error body. */
  function ParsedBody(body: Option<Body>): Body {
    match body
    case Some(data) => data
    case None => Body(None, Some(ParseFailedError), [])
  }

  /** `data.error || (data.errors && data.errors[0]?.message) || 'Failed to submit complaint'`. */
  function RejectionMessage(data: Body): (m: string)
    ensures m != ""
    ensures Truthy(data.error) ==> m == data.error.value
    ensures !Truthy(data.error) && data.errors != [] && Truthy(data.errors[0]) ==> m == data.errors[0].value
    ensures !Truthy(data.error) && !(data.errors != [] && Truthy(data.errors[0])) ==> m == SubmitFailedError
  {
    if Truthy(data.error) then data.error.value
    else if data.errors != [] && Truthy(data.errors[0]) then data.errors[0].value
    else SubmitFailedError
  }

  /** `submitChatbotComplaint` once the request is done; `response` is `None` when
      `fetch` threw. Exactly one of the four outcomes, decided by the status alone. */
  function SubmissionOutcome(response: Option<Reply>): (o: Outcome)
    ensures o == NetworkFailure <==> response.None?
    ensures o.Filed? <==> response.Some? && Ok(response.value.status)
    ensures o == SessionExpired <==> response.Some? && (response.value.status == 401 || response.value.status == 403)
    ensures o.Rejected? <==> response.Some? && !Ok(response.value.status)
                             && response.value.status != 401 && response.value.status != 403
    ensures o.Rejected? ==> o.message != ""
  {
    match response
    case None => NetworkFailure
    case Some(reply) =>
      var data := ParsedBody(reply.body);
      if Ok(reply.status) then Filed(data.caseNumber)
      else if reply.status == 401 || reply.status == 403 then SessionExpired
      else Rejected(RejectionMessage(data))
  }

  /** Success is the only outcome that schedules a reset, after three seconds; an
      expired session schedules a logout after two. */
  function TimerAfter(o: Outcome): (t: Timer)
    ensures t.ResetAfter? <==> o.Filed?
    ensures t.LogoutAfter? <==> o == SessionExpired
    ensures t.ResetAfter? ==> t.millis == 3000
    ensures t.LogoutAfter? ==> t.millis == 2000
  {
    match o
    case Filed(_) => ResetAfter(3000)
    case SessionExpired => LogoutAfter(2000)
    case _ => NoTimer
  }

  /** The chat and the sign-in state of the page. */
  datatype Client = Client(chat: Chat, signedIn: bool)

  /** A scheduled action firing: the reset returns the chat to idle with no data; the
      logout signs out and leaves the chat as it is. */
  function Fire(c: Client, t: Timer): (r: Client)
    ensures t.ResetAfter? ==> r.chat == Initial && r.signedIn == c.signedIn
    ensures t.LogoutAfter? ==> r.chat == c.chat && !r.signedIn
    ensures t.NoTimer? ==> r == c
  {
    match t
    case ResetAfter(_) => c.(chat := Initial)
    case LogoutAfter(_) => c.(signedIn := false)
    case NoTimer => c
  }

  /** After any outcome other than success the draft survives, so the same answers
      can be submitted again. */
  lemma OnlySuccessClearsTheDraft(c: Client, response: Option<Reply>)
    ensures var o := SubmissionOutcome(response);
            Fire(c, TimerAfter(o)).chat == if o.Filed? then Initial else c.chat
  {
  }

  /** Every message the validator produces is non-empty. */
  lemma MessagesAreNotEmpty(form: Form, f: Field)
    ensures MessageFor(form, f) != ""
  {
    match f
    case VehicleNumber =>
    case VehicleType =>
    case VehicleModel =>
    case VehicleColor =>
    case TheftDate =>
    case TheftLocation =>
    case Description =>
    case ComplainantName =>
    case ComplainantPhone =>
    case ComplainantEmail =>
    case ComplainantAddress =>
  }

  /** How the chatbot reports each outcome of POST /api/complaints: the case number
      on success, the first validation message on a 400, the parse failure for an
      upload refusal (whose error page is not JSON), the generic message for a failed
      insert. */
  lemma CreationOutcome(r: Creation)
    requires r.Invalid? ==> r.error != ""
    ensures var o := SubmissionOutcome(Some(CreationReply(r)));
            && (r.Created? ==> o == Filed(Some(r.caseNumber)))
            && (r.Invalid? ==> o == Rejected(r.error))
            && (r.UploadRefused? ==> o == Rejected(ParseFailedError))
            && (r.InsertFailed? ==> o == Rejected(SubmitFailedError))
  {
  }

  /** The same, in terms of the submitted form: a refused form is reported with the
      validator's first message. */
  lemma ServerOutcomes(store: Store, userId: int, form: Form, files: seq<Uploads.Upload>, millis: nat, draw: real, clock: int)
    requires 0.0 <= draw < 1.0
    ensures var r := SubmitComplaint(store, userId, form, files, millis, draw, clock);
            var o := SubmissionOutcome(Some(CreationReply(r)));
            && (r.Created? ==> o == Filed(Some(r.caseNumber)))
            && (r.Invalid? ==> Validate(form) != [] && o == Rejected(Validate(form)[0].message))
            && (r.UploadRefused? ==> o == Rejected(ParseFailedError))
            && (r.InsertFailed? ==> o == Rejected(SubmitFailedError))
  {
    var r := SubmitComplaint(store, userId, form, files, millis, draw, clock);
    if r.Invalid? {
      MessagesAreNotEmpty(form, r.errors[0].field);
    }
    CreationOutcome(r);
  }

  /** The body of a denial from the authentication gate. */
  function DenialReply(g: Gate): Reply
    requires g.Deny?
  {
    Reply(g.status, Some(Body(None, Some(g.error), [])))
  }

  /** A token that is missing or no longer verifies ends the session. */
  lemma DeniedTokenExpiresSession(header: Option<string>, verify: string -> Option<Claims>)
    requires Authenticate(header, verify).Deny?
    ensures SubmissionOutcome(Some(DenialReply(Authenticate(header, verify)))) == SessionExpired
  {
  }

  // ---------------------------------------------------------------- tracking

  /** The answer to the search request: its status and, when it is a success, the rows. */
  datatype SearchReply = SearchReply(status: int, rows: seq<Complaint>)

  /** The bot's messages while tracking. */
  datatype Line =
    | Searching(term: string)
    | NoMatches(term: string)
    | FoundCount(count: int)
    | Summary(caseNumber: string, vehicleNumber: string, vehicleType: string, status: string)
    | MoreDetails
    | SearchFailed
    | NetworkError

  /** `status.split('_').map(word => word.charAt(0).toUpperCase() + word.slice(1)).join(' ')`. */
  function FormatStatus(status: string): string {
    Join(CapitaliseAll(Split(status, '_')), ' ')
  }

  function Capitalise(word: string): (r: string)
    ensures |r| == |word|
    ensures r != [] ==> r[0] == UpperChar(word[0]) && r[1..] == word[1..]
  {
    if word == [] then [] else [UpperChar(word[0])] + word[1..]
  }

  function CapitaliseAll(words: seq<string>): (r: seq<string>)
    ensures |r| == |words|
    ensures forall k | 0 <= k < |words| :: r[k] == Capitalise(words[k])
  {
    if words == [] then [] else [Capitalise(words[0])] + CapitaliseAll(words[1..])
  }

  /** Reference reading, one character at a time: '_' becomes ' ', and a character
      that starts the text (when `atStart`) or follows a '_' is upper-cased. */
  function TitleChar(s: string, atStart: bool, i: int): char
    requires 0 <= i < |s|
  {
    if s[i] == '_' then ' '
    else if (i == 0 && atStart) || (i > 0 && s[i - 1] == '_') then UpperChar(s[i])
    else s[i]
  }

  function TitleCase(s: string, atStart: bool): (r: string)
    ensures |r| == |s|
    ensures forall i | 0 <= i < |s| :: r[i] == TitleChar(s, atStart, i)
  {
    if s == [] then []
    else
      var rest := TitleCase(s[1..], s[0] == '_');
      var r := [TitleChar(s, atStart, 0)] + rest;
      forall i | 1 <= i < |s|
        ensures r[i] == TitleChar(s, atStart, i)
      {
        assert TitleChar(s[1..], s[0] == '_', i - 1) == TitleChar(s, atStart, i);
      }
      r
  }

  /** `Join` of a list whose head is glued to a prefix. */
  lemma JoinHead(a: string, b: string, tail: seq<string>, sep: char)
    ensures Join([a + b] + tail, sep) == a + Join([b] + tail, sep)
  {
    if tail != [] {
      assert ([a + b] + tail)[1..] == tail;
      assert ([b] + tail)[1..] == tail;
    }
  }

  /** The words after the first are capitalised, the first one only when `atStart`. */
  function CapitaliseFrom(words: seq<string>, atStart: bool): seq<string>
    requires words != []
  {
    [if atStart then Capitalise(words[0]) else words[0]] + CapitaliseAll(words[1..])
  }

  /** `formatStatus` from any position: the words of `s` joined back with spaces,
      capitalised after every '_' (and at the start when `atStart`). */
  lemma {:induction false} FormatFrom(s: string, atStart: bool)
    ensures Join(CapitaliseFrom(Split(s, '_'), atStart), ' ') == TitleCase(s, atStart)
    decreases |s|
  {
    if s != [] {
      FormatFrom(s[1..], s[0] == '_');
      if s[0] == '_' {
        FormatAfterUnderscore(s, atStart);
      } else {
        FormatAfterLetter(s, atStart);
      }
    }
  }

  /** The first step of `TitleCase`. */
  lemma TitleCaseStep(s: string, atStart: bool)
    requires s != []
    ensures TitleCase(s, atStart) == [TitleChar(s, atStart, 0)] + TitleCase(s[1..], s[0] == '_')
  {
  }

  lemma FormatAfterUnderscore(s: string, atStart: bool)
    requires s != [] && s[0] == '_'
    requires Join(CapitaliseFrom(Split(s[1..], '_'), true), ' ') == TitleCase(s[1..], true)
    ensures Join(CapitaliseFrom(Split(s, '_'), atStart), ' ') == TitleCase(s, atStart)
  {
    var rest := Split(s[1..], '_');
    assert Split(s, '_') == [""] + rest;
    assert CapitaliseFrom(Split(s, '_'), atStart) == [""] + CapitaliseAll(rest);
    assert CapitaliseFrom(rest, true) == CapitaliseAll(rest) by {
      assert rest == [rest[0]] + rest[1..];
    }
    assert Join([""] + CapitaliseAll(rest), ' ') == [' '] + Join(CapitaliseAll(rest), ' ') by {
      assert ([""] + CapitaliseAll(rest))[1..] == CapitaliseAll(rest);
    }
    TitleCaseStep(s, atStart);
  }

  lemma FormatAfterLetter(s: string, atStart: bool)
    requires s != [] && s[0] != '_'
    requires Join(CapitaliseFrom(Split(s[1..], '_'), false), ' ') == TitleCase(s[1..], false)
    ensures Join(CapitaliseFrom(Split(s, '_'), atStart), ' ') == TitleCase(s, atStart)
  {
    var rest := Split(s[1..], '_');
    var c := TitleChar(s, atStart, 0);
    assert Split(s, '_') == [[s[0]] + rest[0]] + rest[1..];
    assert CapitaliseFrom(Split(s, '_'), atStart) == [[c] + rest[0]] + CapitaliseAll(rest[1..]) by {
      if atStart {
        assert Capitalise([s[0]] + rest[0]) == [c] + rest[0];
      }
    }
    JoinHead([c], rest[0], CapitaliseAll(rest[1..]), ' ');
    assert CapitaliseFrom(rest, false) == [rest[0]] + CapitaliseAll(rest[1..]);
    TitleCaseStep(s, atStart);
  }

  /** `formatStatus` replaces every '_' by ' ' and upper-cases the first character
      of the text and every character after a '_'; the length does not change. */
  lemma FormatStatusIsTitleCase(s: string)
    ensures FormatStatus(s) == TitleCase(s, true)
    ensures |FormatStatus(s)| == |s|
  {
    var words := Split(s, '_');
    FormatFrom(s, true);
    assert CapitaliseFrom(words, true) == CapitaliseAll(words) by {
      assert words == [words[0]] + words[1..];
    }
  }

  /** Two words joined by '_' come back capitalised and joined by ' ' (so
      "under_investigation" reads "Under Investigation"). */
  lemma FormatStatusOfTwoWords(a: string, b: string)
    requires '_' !in a && '_' !in b
    ensures FormatStatus(a + "_" + b) == Capitalise(a) + " " + Capitalise(b)
  {
    SplitAfterPiece(a, '_', b);
    assert a + "_" + b == a + ['_'] + b;
    SplitNoSeparator(b, '_');
    assert CapitaliseAll([a, b]) == [Capitalise(a), Capitalise(b)];
    assert Join([Capitalise(a), Capitalise(b)], ' ') == Capitalise(a) + [' '] + Capitalise(b) by {
      assert [Capitalise(a), Capitalise(b)][1..] == [Capitalise(b)];
    }
  }

  /** The summary shown for one row (the two dates, shown through the host's date
      formatting, are left out). */
  function SummaryOf(c: Complaint): Line
    requires c.status.Some?
  {
    Summary(c.caseNumber, c.vehicleNumber, c.vehicleType, FormatStatus(c.status.value))
  }

  /** The summaries of `rows`, in order, then the closing hint. A NULL status makes
      `formatStatus` throw: the loop stops there and the catch reports a network error. */
  function Summaries(rows: seq<Complaint>): (lines: seq<Line>)
    ensures |lines| > 0
  {
    if rows == [] then [MoreDetails]
    else if rows[0].status.None? then [NetworkError]
    else [SummaryOf(rows[0])] + Summaries(rows[1..])
  }

  /** The report ends with the hint exactly when every row has a status, and with
      the network error exactly when one does not; every line before the last
      summarises the row at its position. */
  lemma SummariesShape(rows: seq<Complaint>)
    ensures Summaries(rows)[|Summaries(rows)| - 1] == MoreDetails <==> forall k | 0 <= k < |rows| :: rows[k].status.Some?
    ensures Summaries(rows)[|Summaries(rows)| - 1] == NetworkError <==> exists k | 0 <= k < |rows| :: rows[k].status.None?
    ensures forall k | 0 <= k < |Summaries(rows)| - 1 :: k < |rows| && rows[k].status.Some? && Summaries(rows)[k] == SummaryOf(rows[k])
    ensures (forall k | 0 <= k < |rows| :: rows[k].status.Some?) ==> |Summaries(rows)| == |rows| + 1
  {
    if forall k | 0 <= k < |rows| :: rows[k].status.Some? {
      AllStatusesEndWithHint(rows);
    } else {
      var k :| 0 <= k < |rows| && rows[k].status.None?;
      NullStatusEndsWithError(rows, k);
    }
    forall k | 0 <= k < |Summaries(rows)| - 1
      ensures k < |rows| && rows[k].status.Some? && Summaries(rows)[k] == SummaryOf(rows[k])
    {
      SummaryLineAt(rows, k);
    }
  }

  lemma {:induction false} AllStatusesEndWithHint(rows: seq<Complaint>)
    requires forall k | 0 <= k < |rows| :: rows[k].status.Some?
    ensures |Summaries(rows)| == |rows| + 1 && Summaries(rows)[|rows|] == MoreDetails
  {
    if rows != [] {
      assert forall k | 0 <= k < |rows[1..]| :: rows[1..][k] == rows[k + 1];
      AllStatusesEndWithHint(rows[1..]);
    }
  }

  lemma {:induction false} NullStatusEndsWithError(rows: seq<Complaint>, k: nat)
    requires k < |rows| && rows[k].status.None?
    ensures Summaries(rows)[|Summaries(rows)| - 1] == NetworkError
    decreases k
  {
    if rows[0].status.Some? {
      assert rows[1..][k - 1] == rows[k];
      NullStatusEndsWithError(rows[1..], k - 1);
    }
  }

  lemma {:induction false} SummaryLineAt(rows: seq<Complaint>, k: nat)
    requires k < |Summaries(rows)| - 1
    ensures k < |rows| && rows[k].status.Some? && Summaries(rows)[k] == SummaryOf(rows[k])
    decreases k
  {
    assert rows != [] && rows[0].status.Some?;
    if k > 0 {
      SummaryLineAt(rows[1..], k - 1);
      assert rows[k] == rows[1..][k - 1];
    }
  }

  /** `handleTrackingConversation` for a trimmed term; `response` is `None` when
      `fetch` threw. */
  function TrackingReport(term: string, response: Option<SearchReply>): (lines: seq<Line>)
    ensures |lines| >= 2 && lines[0] == Searching(term)
    ensures response.None? ==> lines == [Searching(term), NetworkError]
    ensures response.Some? && !Ok(response.value.status) ==> lines == [Searching(term), SearchFailed]
    ensures response.Some? && Ok(response.value.status) && response.value.rows == [] ==> lines == [Searching(term), NoMatches(term)]
    ensures response.Some? && Ok(response.value.status) && response.value.rows != [] ==>
              lines[1] == FoundCount(|response.value.rows|) && lines[2..] == Summaries(response.value.rows)
  {
    [Searching(term)] +
    match response
    case None => [NetworkError]
    case Some(reply) =>
      if !Ok(reply.status) then [SearchFailed]
      else if reply.rows == [] then [NoMatches(term)]
      else [FoundCount(|reply.rows|)] + Summaries(reply.rows)
  }

  /** When every row has a status, a successful search shows the count and then one
      summary per row, in the order received. */
  lemma ReportShowsEveryRow(term: string, rows: seq<Complaint>, status: int)
    requires Ok(status) && rows != [] && forall k | 0 <= k < |rows| :: rows[k].status.Some?
    ensures var lines := TrackingReport(term, Some(SearchReply(status, rows)));
            && |lines| == |rows| + 3
            && lines[1] == FoundCount(|rows|)
            && (forall k | 0 <= k < |rows| :: lines[k + 2] == SummaryOf(rows[k]))
            && lines[|lines| - 1] == MoreDetails
  {
    var lines := TrackingReport(term, Some(SearchReply(status, rows)));
    SummariesShape(rows);
    assert forall k | 0 <= k < |rows| :: lines[k + 2] == lines[2..][k];
  }

  /** Every listed row is summarised when all listed rows have a status. */
  lemma ListedRowIsReported(term: string, rows: seq<Complaint>, k: int)
    requires 0 <= k < |rows| && forall j | 0 <= j < |rows| :: rows[j].status.Some?
    ensures SummaryOf(rows[k]) in TrackingReport(term, Some(SearchReply(200, rows)))
  {
    ReportShowsEveryRow(term, rows, 200);
    assert TrackingReport(term, Some(SearchReply(200, rows)))[k + 2] == SummaryOf(rows[k]);
  }

  lemma ListedRowIsShown(term: string, rows: seq<Complaint>, row: Complaint)
    requires row in rows && forall c | c in rows :: c.status.Some?
    ensures row.status.Some? && SummaryOf(row) in TrackingReport(term, Some(SearchReply(200, rows)))
  {
    var k :| 0 <= k < |rows| && rows[k] == row;
    ListedRowIsReported(term, rows, k);
  }

  /** A complaint just filed shows up when its owner asks the chatbot for its case
      number, provided no listed row of the owner has a NULL status. */
  lemma TrackingFindsFiledComplaint(store: Store, userId: int, form: Form, files: seq<Uploads.Upload>, millis: nat, draw: real, clock: int)
    requires 0.0 <= draw < 1.0 && WellFormed(store)
    requires SubmitComplaint(store, userId, form, files, millis, draw, clock).Created?
    requires var r := SubmitComplaint(store, userId, form, files, millis, draw, clock);
             forall c | c in ListOwn(r.store, userId, Query(None, Some(r.caseNumber))) :: c.status.Some?
    ensures var r := SubmitComplaint(store, userId, form, files, millis, draw, clock);
            var rows := ListOwn(r.store, userId, Query(None, Some(r.caseNumber)));
            SummaryOf(r.store.complaints[|r.store.complaints| - 1]) in TrackingReport(r.caseNumber, Some(SearchReply(200, rows)))
  {
    var r := SubmitComplaint(store, userId, form, files, millis, draw, clock);
    var rows := ListOwn(r.store, userId, Query(None, Some(r.caseNumber)));
    FiledComplaintIsTrackable(store, userId, form, files, millis, draw, clock);
    ListedRowIsShown(r.caseNumber, rows, r.store.complaints[|r.store.complaints| - 1]);
  }
}
