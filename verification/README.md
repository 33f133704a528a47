# Vehicle theft complaint portal — a Dafny model of its core

The portal lets a signed-in citizen file a vehicle theft complaint, either through
a web form or through a scripted chatbot, and follow its status; administrators
list every complaint, change its status, assign an officer and add notes. This
project models, as pure Dafny functions over immutable data, the parts of it that
carry decisions:

- **the chatbot** of the web client (`public/app.js`): a dialogue that is idle, filing
  or tracking, with a step cursor 1..11 and a draft of eleven fields; the vehicle
  type classifier, the "skip" rule, the theft-date rule, the four outcomes of a
  submission and the timers they schedule, the tracking report and `formatStatus`;
- **the complaint rules of the server** (`server.js`): the required-field and e-mail
  validator, the case number, the INSERT with its first case note, the comma-joined
  document column, the upload filter and the five-file limit, the owner / status /
  search filters and newest-first order of the two listings, the single-complaint
  fetches, the admin PATCH, and the two gates `authenticateToken` and
  `checkAdminRole`;
- **the two provisioning scripts**: `create-admin-user.js` (insert, promote, reset
  the password, or do nothing) and `make-admin.js` (the e-mail prompt and the y/n
  continuation).

Modules follow the program: `Wrappers` (an `Option` for JavaScript's
undefined/null), `Text` (trim, ASCII case mapping, `includes`, `split`/`join`,
decimals), `Users`, `Auth`, `Uploads`, `Complaints`, `Listing`, `Chatbot`,
`AdminSetup`, `MakeAdmin`. The database tables are sequences of rows in insertion
order, with AUTOINCREMENT counters carried in the store. Everything that is I/O or
foreign enters as a parameter:

- the clock (`Date.now()`, `CURRENT_TIMESTAMP`) is a number;
- `Math.random()` is a draw in [0, 1);
- the JWT check is a function from token to claims;
- bcrypt is a `matches(password, hash)` predicate plus the fresh hash of this run;
- the date parser is its verdict (`None` for an invalid date, else the ISO text);
- a `fetch` is its answer (`None` when it threw);
- a timer is returned as a value and fired explicitly.

Behaviour kept as the code has it, including quirks a reader may not expect:

- A "skip" at the description or address step leaves the field at the `''` it got
  when filing started, and the form sends `''`. The field is not absent.
- A bare `yyyy-mm-dd` parses as a date, so the stored value is the first 16
  characters of its ISO form. The `T12:00` suffix is only appended when the parser
  rejects the text.
- Step 11 never advances. Every message typed before the reset submits again,
  including after a network failure. A message other than "skip" first overwrites
  the address, so a "yes" typed after a rejection is sent as the address.
- `vehicleColor` is not checked by the validator. A form without the key reaches the
  INSERT, where the column's NOT NULL fails and the answer is 500
  "Failed to submit complaint".
- PATCH does not check that the id exists. Nothing is updated, the note is still
  appended, and the answer is success.
- The role-upgrade branch of `create-admin-user.js` keeps the old password. This is
  why a second run may still reset the password, and why only the third run is
  guaranteed to do nothing.
- A row with a NULL status makes `formatStatus` throw inside the tracking loop. The
  summaries stop there and the bot reports a network error.

## Model

| member | source | states |
|---|---|---|
| Chatbot.ClassifyFollowsTable | public/app.js:891-900 | the if-ladder equals the table reading "first row (car > motorcycle/bike > scooter > bicycle/cycle > truck) with a keyword that occurs, else other" |
| Chatbot.Letters | public/app.js:892 | the classified text holds only lower-case ASCII letters and is no longer than the answer |
| Chatbot.KindIgnoresCase | public/app.js:892-900 | lower-casing the answer never changes the vehicle type |
| Chatbot.KindIgnoresNonLetters | public/app.js:892-900 | inserting any non-letter anywhere in the answer never changes the vehicle type |
| Chatbot.KindOfNameIsIdempotent | public/app.js:892-900 | classifying each of the six stored names gives that kind back, so the classifier is onto the six kinds and idempotent on its outputs |
| Chatbot.MotorbikeIsMotorcycle | public/app.js:892-900 | "motorbike" followed by any digits ("motorbike123") is a motorcycle |
| Chatbot.LettersThenNonLetters | public/app.js:892 | letters followed by non-letters classify as the letters alone |
| Chatbot.SetField | public/app.js:878-971 | storing an answer changes exactly one draft field |
| Chatbot.StepOf | public/app.js:883-976 | each field is asked at exactly one step in 1..11, and that step asks for it |
| Chatbot.ToForm | public/app.js:993-1003 | every one of the eleven fields is sent, with the draft's value |
| Chatbot.TheftDateValue | public/app.js:920-932 | a parsed date stores the first 16 characters of its ISO text; otherwise a text without 'T' holding a yyyy-mm-dd stores the text plus "T12:00"; otherwise the raw text |
| Chatbot.DateEchoIsRaw | public/app.js:920-934 | the reply after the date question echoes the raw answer, not the stored value |
| Chatbot.StartFiling | public/app.js:743-771 | from any state: filing, step 1, all eleven fields '' |
| Chatbot.StartTracking | public/app.js:774-786 | from any state: tracking, step 0 |
| Chatbot.Advance | public/app.js:848-875 | the message is trimmed; empty is ignored, signed-out gets the log-in prompt, idle gets the menu, tracking searches the trimmed text, filing takes the filing step on the trimmed text; the mode never changes |
| Chatbot.FilingStep | public/app.js:878-985 | a filing answer never leaves filing mode |
| Chatbot.AnswerFillsOneField | public/app.js:884-971 | at steps 1..10 an answer stores its normalised value in that step's field only, moves to the next step, and acknowledges |
| Chatbot.SkipKeepsDraft | public/app.js:944-948 | "skip" in any case at step 7 or 11 leaves the whole draft as it was |
| Chatbot.PaddedSkipKeepsDraft | public/app.js:848-977 | "skip" in any capitalisation and with any surrounding white space, typed at the description or the address step, leaves the draft unchanged, because the input is trimmed before the case-insensitive test |
| Chatbot.SkippedFieldIsSentBlank | public/app.js:974-980 | a skipped, never-filled address is still submitted, as '' |
| Chatbot.LastStepResubmits | public/app.js:974-980 | step 11 submits the draft, stays at step 11, and the same message again submits again |
| Chatbot.LastStepStoresAddress | public/app.js:974-980 | at step 11 any message other than "skip" overwrites the address, and the form is sent with it |
| Chatbot.UnknownStepChangesNothing | public/app.js:982-983 | at a step outside 1..11 neither state nor draft changes |
| Chatbot.IgnoredMessagesChangeNothing | public/app.js:850-874 | an empty message, any message while signed out and any message while idle leave the chat unchanged |
| Chatbot.InitialIsReady | public/app.js:724-726 | the reset state and the tracking state satisfy the filing invariant |
| Chatbot.StartFilingIsReady | public/app.js:743-771 | starting to file satisfies the filing invariant |
| Chatbot.AdvanceKeepsReady | public/app.js:848-985 | every message keeps the invariant: while filing, the step is in 1..11 and every required field already asked holds a non-blank value |
| Chatbot.FilingStepKeepsReady | public/app.js:878-985 | one non-blank filing answer keeps that invariant |
| Chatbot.StepValueIsNotBlank | public/app.js:884-971 | a non-blank answer stores a non-blank value at every step (type name, date rule, verbatim text) |
| Chatbot.FilledDraftFailsOnlyOnEmail | server.js:263-293 | a draft whose required fields are non-blank fails validation at most for the e-mail's shape |
| Chatbot.SubmittedFormLacksNothing | public/app.js:974-1003 | what the chatbot posts at step 11 can only be refused with "Valid email is required" |
| Chatbot.RejectionMessage | public/app.js:1034 | the message shown is never empty: the body's error when non-empty, otherwise the first error entry's message when non-empty, otherwise "Failed to submit complaint" |
| Chatbot.SubmissionOutcome | public/app.js:1015-1042 | exactly one outcome: network failure iff fetch threw, filed iff 2xx, session expired iff 401/403, rejected (with a non-empty message) otherwise |
| Chatbot.TimerAfter | public/app.js:1017-1031 | only success schedules a reset (after 3000 ms); only 401/403 schedules a logout (after 2000 ms) |
| Chatbot.Fire | public/app.js:724-726 | the reset returns the chat to idle with no data; the logout only signs out |
| Chatbot.OnlySuccessClearsTheDraft | public/app.js:1017-1042 | after every outcome except success the draft survives |
| Chatbot.CreationOutcome | public/app.js:1015-1037 | the server's 201, 400, upload refusal and failed insert are reported as the case number, the first validation message, "Failed to parse response" and "Failed to submit complaint" |
| Chatbot.ServerOutcomes | server.js:295-330 | the same, stated for any submitted form: a refused form shows the validator's first message |
| Chatbot.DeniedTokenExpiresSession | server.js:107-122 | a missing or unverifiable token makes the chatbot report an expired session |
| Chatbot.Capitalise | public/app.js:681 | a word's first character upper-cased, the rest untouched, length kept |
| Chatbot.TitleCase | public/app.js:679-683 | reference reading of `formatStatus`: '_' becomes ' ', the first character and every character after '_' is upper-cased |
| Chatbot.FormatStatusIsTitleCase | public/app.js:679-683 | `formatStatus` equals the reference reading and keeps the length |
| Chatbot.FormatStatusOfTwoWords | public/app.js:679-683 | "a_b" becomes capitalised a, ' ', capitalised b (e.g. "under_investigation" reads "Under Investigation") |
| Chatbot.SummariesShape | public/app.js:1075-1088 | one summary per row in order, then the closing hint exactly when every row has a status; a NULL status stops the loop with a network error |
| Chatbot.TrackingReport | public/app.js:1046-1097 | the searching line, then: network error, search failure, no matches, or the count followed by the summaries |
| Chatbot.ReportShowsEveryRow | public/app.js:1065-1088 | with every status present: the count, then exactly one summary per row in the order received, then the hint |
| Chatbot.ListedRowIsReported | public/app.js:1075-1086 | every listed row gets its summary |
| Chatbot.TrackingFindsFiledComplaint | public/app.js:1046-1088 | a just-filed complaint is shown when its owner asks the chatbot for its case number |
| Complaints.Validate | server.js:263-293 | errors name required fields only, in the fixed field order, one per failing field and none for a passing one; the message is "… is required" for a missing or blank value and "Valid email is required" for a bad address |
| Complaints.FieldVerdicts | server.js:263-293 | the verdict per required field: a message exactly when the field fails |
| Complaints.ErrorsOf | server.js:263-296 | the failing verdicts in field order, each with its own message |
| Complaints.FailingFrom | server.js:263-293 | the failing positions, strictly increasing, none missing |
| Complaints.RankOfRequired | server.js:263-293 | each required field's rank is its position in the checking order |
| Complaints.EmailPatternAsWords | server.js:289-290 | the pattern matches exactly the texts word '@' word '.' word, words free of white space and '@' |
| Complaints.MatchSplitsIntoWords | server.js:289-290 | a match splits into the three words |
| Complaints.WordsMatch | server.js:289-290 | any three such words joined by '@' and '.' match |
| Complaints.EmailPatternShape | server.js:289-290 | an accepted address has no white space and exactly one '@' |
| Complaints.PassingFormHasRequiredValues | server.js:263-297 | a form with no errors carries all eight required fields |
| Complaints.RandomSuffix | server.js:126 | the random suffix is in 0..999 |
| Complaints.CaseNumberRoundTrip | server.js:125-127 | "VTC-" + time + "-" + suffix reads back as that time and suffix |
| Complaints.GenerateCaseNumber | server.js:125-127 | a case number has the VTC-time-suffix shape with the given time and a suffix at most 999 |
| Complaints.SubmitComplaint | server.js:245-332 | upload refusal first, then 400 with the validator's errors and `error` = first message, then 500 for a missing vehicleColor or a taken case number; otherwise one row appended (description/address default ''), one note "Complaint filed successfully. Case number: …" by the complainant's name, counters advanced |
| Complaints.SubmitPreservesWellFormed | server.js:299-330 | creation keeps ids distinct and below the counters, and case numbers unique |
| Complaints.AppendPreservesWellFormed | server.js:302-324 | appending a row with the next id and a free case number plus a note with the next id keeps the constraints |
| Complaints.OfficerColumn | server.js:469 | `assignedOfficer \|\| null`: kept when non-empty, NULL otherwise |
| Complaints.UpdateWhereId | server.js:467-469 | rows with the id get status, officer and time and nothing else; other rows are untouched |
| Complaints.PatchComplaint | server.js:463-485 | no other complaint changes; a matching row gets the status (NULL when absent), the officer and the update time and keeps every other column; one note by the caller's e-mail is appended iff the message is non-empty, and the note counter moves with it |
| Complaints.PatchPreservesWellFormed | server.js:463-485 | PATCH keeps the table constraints |
| Complaints.PatchUnknownIdChangesNoComplaint | server.js:467-484 | patching an id no row has changes no complaint |
| Complaints.ErrorMessages | server.js:296 | the 400 body lists each error's message, in order |
| Listing.Select | server.js:338-350 | the kept rows are exactly the owner's rows that pass both filters, each as often as in the table |
| Listing.SortDesc | server.js:352 | a permutation of the rows, ordered by creation time, newest first |
| Listing.InsertDesc | server.js:352 | inserting one row keeps the order and adds exactly that row |
| Listing.ListOwn | server.js:336-360 | the caller's rows passing the status filter (unless absent or 'all') and the case-insensitive search on vehicle or case number, newest first |
| Listing.ListAll | server.js:406-430 | the same filters without the owner restriction |
| Listing.OwnIsAllRestricted | server.js:336-430 | the user listing is the admin listing restricted to the caller's rows |
| Listing.AllStatusIsNoFilter | server.js:341-344 | status 'all' selects the same rows as no status |
| Listing.FindRow | server.js:366-368 | the first row with the id (and owner), or none exactly when no row matches |
| Listing.NotesOf | server.js:378-380 | exactly the notes of that complaint |
| Listing.Fetch | server.js:363-390 | 404 iff no matching row; otherwise the row and all its notes, newest first |
| Listing.FetchFindsTheRow | server.js:433-460 | in a well-formed store the fetch returns the row with that id, and a user's fetch of another user's row is 404 |
| Listing.CaseNumberSearchFindsRow | server.js:346-350 | searching a row's own case number lists it to its owner |
| Listing.FetchReturnsNotes | server.js:378-385 | a found complaint comes with every note attached to its id |
| Listing.FiledComplaintIsTrackable | server.js:299-390 | after creation the owner finds the complaint by its case number, and fetching its id returns it with the filing note |
| Uploads.MatchesAllowedType | server.js:43-45 | the unanchored pattern matches iff one of jpeg, jpg, png, gif, pdf, doc, docx occurs in the text |
| Uploads.DocxIsRedundant | server.js:43 | every text containing "docx" contains "doc" |
| Uploads.ExtName | server.js:44 | the extension is empty or a '.' followed by no '.' or '/', and is a proper suffix of the base name |
| Uploads.ExtNameNonEmpty | server.js:44 | the extension is non-empty iff the base name has a '.' after its first character and is not `..`; so it runs from the last '.' to the end |
| Uploads.BaseName | server.js:44 | the base name holds no '/' |
| Uploads.BaseNameIsLastComponent | server.js:44 | the base name is the text after the last '/' of the path without its trailing slashes (all of it when there is no '/') |
| Uploads.LastIndexOf | server.js:44 | the position of the last occurrence, or -1 when there is none |
| Uploads.DropTrailingSlashes | server.js:44 | a prefix of the path that does not end in '/' |
| Uploads.DroppedAreSlashes | server.js:44 | everything DropTrailingSlashes removes is '/', so it removes exactly the trailing run of '/' |
| Uploads.Verdicts | server.js:42-51 | the filter's verdict on each part, in order |
| Uploads.ReceiveFiles | server.js:42-51 | accepted iff at most five parts and all pass the filter; the type error iff one of the first five fails; otherwise the unexpected-field error |
| Uploads.FirstFailure | server.js:42-51 | the same scan from one part on |
| Uploads.StoredNames | server.js:299 | the saved file names, in order |
| Uploads.DocumentsRoundTrip | server.js:299 | the comma-joined column splits back into the saved names (none empty or holding ','); no files store '' and show no section |
| Uploads.ExtNameOfSimpleName | server.js:35 | a name "stem.ext" whose parts hold no '.' or '/' has the extension ".ext" |
| Uploads.CommaExtensionIsAccepted | server.js:42-51 | a name "stem.pdf…" whose extension holds a ',' passes the filter when its MIME type mentions pdf, and the ',' is in its extension |
| Uploads.ScanPdfIsAccepted | server.js:42-51 | "scan.pdf,1" sent as application/pdf passes the filter with a ',' in its extension |
| Uploads.CommaExtensionBreaksDocuments | server.js:33-35 | a saved name built from an extension with a ',' does not read back from the documents column as that one name |
| Uploads.Without | server.js:33-35 | the text with a character removed holds none of it and is unchanged when it held none |
| Uploads.SafeDiskName | server.js:33-35 | the corrected saved name is non-empty, holds no ',', and equals the name the code builds whenever the extension holds no ',' |
| Uploads.SafeNamesRoundTrip | server.js:299 | with the corrected names the documents column always reads back as the saved names |
| Auth.BearerToken | server.js:108-109 | a token is read only from a present header, is non-empty and holds no space |
| Auth.BearerTokenRoundTrip | server.js:108-109 | the header "Bearer t" yields t |
| Auth.HeaderWithoutSpaceHasNoToken | server.js:109-112 | a header without a space yields no token |
| Auth.Authenticate | server.js:107-122 | 401 iff no token, 403 iff the token does not verify, otherwise admitted with the token's claims |
| Auth.AuthenticateAdmin | server.js:393-403 | admitted iff authenticated and the users row of the claims' id has role 'admin'; failures of the first gate pass through, the rest is 403 |
| Users.FindByEmail | create-admin-user.js:22 | a found user has that e-mail; none iff no row has it |
| Users.FindById | server.js:394 | a found user has that id; none iff no row has it |
| Users.SetRoleWhereEmail | make-admin.js:93-95 | the rows with the e-mail get the role and nothing else; other rows are untouched |
| Users.SetPasswordWhereEmail | create-admin-user.js:52 | the rows with the e-mail get the hash and nothing else; other rows are untouched |
| Users.FindAfterSetRole | make-admin.js:93-95 | looking up after the role update finds the same user with the new role |
| Users.FindAfterSetPassword | create-admin-user.js:48-53 | looking up after the password update finds the same user with the new hash |
| AdminSetup.CreateAdminUser | create-admin-user.js:14-111 | insert the fixed admin iff no user has the e-mail; promote iff it exists without the admin role; reset the password iff it is admin and the password fails; otherwise change nothing |
| AdminSetup.OtherUsersUntouched | create-admin-user.js:22-103 | rows with another e-mail are never touched; existing rows change in at most one column; at most one row is added |
| AdminSetup.PromotionKeepsPassword | create-admin-user.js:29-32 | the promotion leaves the password hash as it was |
| AdminSetup.FindAfterAppend | create-admin-user.js:79-86 | after the insert, the lookup finds the earlier row if there was one, else the new row |
| AdminSetup.AfterARun | create-admin-user.js:22-103 | after any run the account exists as admin; unless the run was a promotion its password checks |
| AdminSetup.ConfiguredIsFixedPoint | create-admin-user.js:68-77 | a configured account leaves the table unchanged |
| AdminSetup.ThirdRunIsNoOp | create-admin-user.js:22-103 | whatever the table, the third run finds nothing to do |
| MakeAdmin.ListUsers | make-admin.js:18-47 | with zero users the tool ends; otherwise it prompts for an e-mail |
| MakeAdmin.YesIsOneLetter | make-admin.js:68-75 | the answer continues iff it is exactly "y" or "Y" |
| MakeAdmin.EnterEmail | make-admin.js:49-96 | a blank e-mail re-prompts without lookup; an unknown one or an admin changes nothing; otherwise the role of the trimmed e-mail's user becomes 'admin' |
| MakeAdmin.LookupUsesTrimmedEmail | make-admin.js:51-95 | padding around the e-mail changes nothing |
| MakeAdmin.EnterEmailOnlyPromotes | make-admin.js:66-96 | the table changes only on a promotion, and then only the role of that e-mail's rows, to 'admin' |
| MakeAdmin.Step | make-admin.js:66-123 | 'y' goes back to the prompt after a failure and to the user list after a promotion; anything else ends the tool |
| MakeAdmin.StepOnlyPromotes | make-admin.js:49-123 | one step changes at most roles, to 'admin' |
| MakeAdmin.SessionOnlyPromotes | make-admin.js:18-131 | a whole session adds, removes and reorders no user and changes no column but the role, to 'admin' |
| MakeAdmin.NoUsersEndsAtOnce | make-admin.js:27-33 | with zero users the tool ends without prompting, whatever is typed |
| MakeAdmin.ClosedStaysClosed | make-admin.js:71-74 | once ended the tool reads nothing more |
| Text.Trim | server.js:264 | `trim` removes exactly the leading and trailing white space (all of what precedes and follows the result is white space, and the result neither starts nor ends with it); the result is empty iff the text is all white space |
| Text.TrimIdempotent | make-admin.js:51-58 | trimming twice is trimming once |
| Text.Lower | server.js:347 | ASCII lower-casing, character by character |
| Text.ContainsIffOccurs | public/app.js:893-899 | `includes` holds iff the text occurs at some position |
| Text.Split | public/app.js:680 | `split` gives at least one piece and no piece holds the separator |
| Text.SplitJoin | public/app.js:433-437 | joining pieces free of the separator and splitting again gives the pieces back |
| Text.DecimalRoundTrip | server.js:126 | a number's decimal text reads back as the number |

## Left out

- The DOM, page navigation, the typing indicator, message delays, `localStorage` and the printed tables and banners of the scripts: presentation with no decision in it.
- `fetch`, `setTimeout`, readline and SQLite I/O are not executed: answers and timers are values, and every database call succeeds except where noted.
- Database errors (the 500 "Database error" answers, and the scripts' exits on a failed query) are not modelled. Only the INSERT failures the constraints force (NOT NULL `vehicleColor`, UNIQUE `caseNumber`) are.
- JavaScript `Date` parsing and `toISOString` are an oracle given as a parameter. `formatDate` (`toLocaleString`) is not modelled, so the date lines of a tracking summary are left out of `Summary`.
- Chatbot.StepValueIsNotBlank, Chatbot.FilingStepKeepsReady and Chatbot.AdvanceKeepsReady: they assume the date oracle returns a text with a non-blank first character (`SaneDate`), as an ISO date text always has.
- `Date.now()`, `Math.random()` and multer's stored file names are parameters of the upload record; DiskName and SafeDiskName build the name from the clock and the random draw for the finding below.
- bcrypt and JWT signing and verification are foreign cryptography: a `matches` predicate, a fresh hash, and a verify function. AdminSetup.ThirdRunIsNoOp assumes that a fresh hash of the password checks.
- Upper and lower case mapping covers ASCII only, and `trim` uses the ASCII and common Unicode white space list. Full Unicode case mapping is not modelled.
- SQLite `LIKE` is a case-insensitive substring test. `%` and `_` inside the search term are treated literally rather than as wildcards.
- Listing.ListOwn: rows with equal `createdAt` may come in any order. SQLite's tie order is not specified, so the contract only states descending order and the multiset of rows.
- Non-numeric path ids (`/api/complaints/abc`) are not modelled; ids are integers.
- Uploads.ExtName models POSIX `path.extname` for ordinary names. Windows separators are not modelled.
- multer's 10 MB file-size limit is not modelled: file contents are not part of the model.
- Register, login, the profile route and express-validator's `isEmail` are outside the modelled core.
- The web form's own submission path (`submitComplaint` in the page script) is outside the modelled core; only the chatbot's path is modelled.
- MakeAdmin: the user listing's column formatting is not modelled; only its zero-users exit and the re-prompt are.

## Findings

| source | as written | input that shows it | evidently intended | confidence | as-written member | corrected member |
|---|---|---|---|---|---|---|
| server.js:33-35 | the saved file name ends with `path.extname` of the client's name, copied as it is, and the names are joined with ',' into the `documents` column (server.js:299) | a file "scan.pdf,1" sent as application/pdf passes the filter with the extension ".pdf,1"; the column then does not read back as the one saved name | every saved file reads back from the column as exactly one document | medium, not executed | Uploads.CommaExtensionBreaksDocuments | Uploads.SafeNamesRoundTrip |
