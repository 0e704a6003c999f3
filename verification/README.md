# PetPulse — a verified model of the store and the appointment workflow

PetPulse is a single-page veterinary care portal. Its logic is an in-memory
session store (App.tsx) plus small decision functions and state machines in
the views. This project models that logic in Dafny and proves properties about it.

The store holds the current user, the pets and the appointments. Its
operations are:
- `login`, `register` and `logout`;
- `addPet` and `addAppointment`;
- `updateAppointmentStatus` and `deleteAppointment`;
- startup hydration from the three stored slots.

The views add the following:
- login classification;
- the admin clearance gate;
- the form guards that build pets and appointments;
- the status filter, labels and badges;
- the video room;
- the message threads;
- the two-step sign-up.

One module per source file:

| module | file | models |
|---|---|---|
| `Types` | `types.dfy` | types.ts: roles, users, pets, appointments, and the enumeration names |
| `Store` | `store.dfy` | App.tsx: the store operations and hydration |
| `LoginView` | `login_view.dfy` | views/Login.tsx |
| `AdminView` | `admin_view.dfy` | views/AdminDashboard.tsx |
| `VetView` | `vet_view.dfy` | views/VetDashboard.tsx |
| `AppointmentsView` | `appointments_view.dfy` | views/AppointmentsView.tsx |
| `ConsultationsView` | `consultations_view.dfy` | views/Consultations.tsx |
| `CustomerView` | `customer_view.dfy` | views/CustomerDashboard.tsx |
| `PetsView` | `pets_view.dfy` | views/PetsView.tsx |
| `MessagesView` | `messages_view.dfy` | views/Messages.tsx |
| `SignupView` | `signup_view.dfy` | views/Signup.tsx |
| `Workflow` | `workflow.dfy` | the appointment life cycle that emerges from the views |
| `Queries` | `queries.dfy` | the status filters several views share |
| `Text` | `text.dfy` | the JavaScript string operations the views use: `trim`, `includes`, `replace`, `slice(-n)`, the `\D` strip, number-to-text and `parseInt` |
| `Seqs` | `seqs.dfy` | `filter`, and `map` with a conditional rewrite |

Identifiers built from `Date.now()` take the clock as a parameter `now: nat`.
An id is a letter followed by the decimal digits of `now`.

The status write in the store is unconditional (App.tsx:129-131), and no
code validates transitions. The only state machine is the one that emerges from which writes the screens
offer. `Workflow` proves what those writes can reach. In particular, no
screen ever writes COMPLETED or CANCELLED. `Workflow` also shows that ids
taken from the clock can collide, and that approving a request then also
rewrites a declined entry with the same id.

## Model

| member | source | states |
|---|---|---|
| Types.PetDraftRoundTrip | types.ts:16-26 | a pet is exactly its id plus the caller-supplied fields, so adding an id to a draft and dropping it again is the identity |
| Types.AppointmentDraftRoundTrip | types.ts:28-37 | an appointment is exactly its id plus the caller-supplied fields, in both directions |
| Types.ParseRole | types.ts:2-6 | a role name parses to the role of that name; any string outside the three names parses to nothing |
| Types.ParseVisit | types.ts:34 | a visit type is VIRTUAL or IN_PERSON; any other string parses to nothing |
| Types.ParseStatus | types.ts:35 | a status is one of the five names; any other string parses to nothing |
| Types.NamesRoundTrip | types.ts:2-6 | parsing the name of a role, visit type or status gives back that value |
| Types.StatusNamesDistinct | types.ts:35 | two statuses have the same name only when they are the same status |
| Store.Login | App.tsx:94-102 | the session user has the requested role, with id c1, v1 or a1; pets and appointments are untouched |
| Store.MockUsersDistinct | App.tsx:95-99 | the three mock accounts have distinct ids |
| Store.Register | App.tsx:104-112 | the new user keeps name, email and role; the id is `u` plus the clock; the avatar is derived from the name |
| Store.RegisterIgnoresAvatar | App.tsx:105-109 | the avatar a caller supplies never reaches the registered user |
| Store.Logout | App.tsx:114-117 | no current user afterwards; pets and appointments stay |
| Store.AddPet | App.tsx:119-122 | one pet more; the old pets are kept in order; the new last pet is the draft with id `p` plus the clock |
| Store.AddAppointment | App.tsx:124-127 | one entry more; the old entries are kept; the new last entry keeps every caller field, including the status, with id `a` plus the clock; user and pets stay |
| Store.UpdateStatus | App.tsx:129-131 | the length is kept; every entry with the id takes the status whatever it had; every other entry is unchanged |
| Store.UpdateStatusUnknownId | App.tsx:129-131 | an id that matches no entry leaves the list as it was |
| Store.UpdateStatusLastWins | App.tsx:129-131 | a second write to the same id overrides the first; repeating a write changes nothing more |
| Store.Delete | App.tsx:133-135 | every entry with the id is removed; every other entry survives |
| Store.DeleteIdempotent | App.tsx:133-135 | deleting twice is deleting once; deleting an unknown id is a no-op |
| Store.DeleteKeepsOrder | App.tsx:133-135 | deleting commutes with splitting the list, so the survivors keep their order |
| Store.DeleteShrinks | App.tsx:133-135 | deleting an id that is present shortens the list |
| Store.Hydrate | App.tsx:60-78 | a slot that holds a value is restored as it is, even an empty list; an absent pets or appointments slot gives the seed list, and an absent user slot no user |
| Store.Persist | App.tsx:82-92 | all three slots are written |
| Store.PersistRoundTrip | App.tsx:60-92 | hydrating what the store wrote gives back the same state |
| Store.FirstStart | App.tsx:60-78 | on a first start there is no user, the pets p1 and p2 of owner c1, and the single appointment a1, which is scheduled and virtual |
| LoginView.Classify | views/Login.tsx:24-35 | error iff the email is empty; ADMIN iff the admin email and password; VETERINARIAN iff not that and the email contains the vet domain |
| LoginView.AdminEmailIsNotVet | views/Login.tsx:24-29 | the admin email does not contain the vet domain |
| LoginView.PasswordOnlyForAdmin | views/Login.tsx:24-32 | for any email other than the admin's, the password does not affect the outcome |
| LoginView.AdminEmailWrongPassword | views/Login.tsx:24-32 | the admin email with a wrong password signs in as a customer |
| LoginView.Submit | views/Login.tsx:24-35 | a classified sign-in makes a session user of that role; an empty email leaves the store unchanged and shows `Invalid credentials` |
| AdminView.Sanitize | views/AdminDashboard.tsx:112-115 | the code field holds at most four characters, all digits, each taken from the typed text; typing at most four digits keeps them exactly |
| AdminView.SanitizeIdempotent | views/AdminDashboard.tsx:112-115 | sanitizing a sanitized code changes nothing |
| AdminView.Verify | views/AdminDashboard.tsx:51-68 | the right code clears the gate and the error and keeps the attempt count; a wrong code adds one attempt, sets the error, empties the field, and leaves the gate closed |
| AdminView.Step | views/AdminDashboard.tsx:70-141 | Lock closes the gate and keeps the code and attempts; typing while the gate is neither cleared nor locked out sets the sanitized code and leaves the error line on screen; submitting does nothing unless the button is live, and then adds an attempt exactly when the code is wrong and opens the gate exactly when it is right |
| AdminView.CodeOpensGate | views/AdminDashboard.tsx:50-66 | on a gate that is not cleared or locked out, typing the clearance code and submitting it opens the gate |
| AdminView.ClearanceReachable | views/AdminDashboard.tsx:38-66 | from the page opened without the session flag, typing the clearance code and submitting it clears the gate |
| AdminView.OpenIsValid | views/AdminDashboard.tsx:39-44 | the gate as the page opens satisfies the gate invariant |
| AdminView.StepKeepsValid | views/AdminDashboard.tsx:108-141 | typing, submitting and locking keep at most three failures and a code of at most four digits; the gate is cleared only below three failures |
| AdminView.RunKeepsValid | views/AdminDashboard.tsx:108-141 | any sequence of events keeps the gate invariant |
| AdminView.ClearanceNeedsCode | views/AdminDashboard.tsx:57-58 | a closed gate opens only by submitting the clearance code while not locked out |
| AdminView.WrongCodeCostsOneAttempt | views/AdminDashboard.tsx:61-64 | submitting a wrong code costs exactly one attempt and empties the field |
| AdminView.LockoutIsFinal | views/AdminDashboard.tsx:113-141 | after three failures, no sequence of events changes the gate |
| AdminView.VetAction | views/AdminDashboard.tsx:80-82 | queue items with the id take the status; every other item and every other field stays |
| AdminView.DecisionsKeepQueue | views/AdminDashboard.tsx:75-82 | any sequence of approve and reject clicks keeps the applicants and their order, each with one of the four statuses |
| AdminView.InitialQueueKnown | views/AdminDashboard.tsx:75-78 | the queue the page opens with holds only the four known statuses |
| AdminView.VetActionKeepsStatuses | views/AdminDashboard.tsx:75-82 | approving and rejecting keep every status among PENDING, REVIEWING, APPROVED and REJECTED |
| AdminView.ReviewQueue | views/AdminDashboard.tsx:84 | the queue holds exactly the pending appointments |
| AdminView.OfferedWriteIsReview | views/AdminDashboard.tsx:231-270 | behind a cleared gate, the only offered writes are SCHEDULED or REJECTED, on the id of a pending appointment |
| VetView.ListsPartition | views/VetDashboard.tsx:51-52 | the two lists hold exactly the pending and exactly the scheduled entries; they share none and keep the list order |
| VetView.OfferedWriteIsReview | views/VetDashboard.tsx:139-168 | Accept and Decline write SCHEDULED or REJECTED, only on the id of a pending appointment |
| VetView.DiagnosisRequest | views/VetDashboard.tsx:43-49 | there is no request iff the observations are white space only; an empty history is sent as `None provided.` |
| VetView.ProgressPercent | views/VetDashboard.tsx:298-299 | the width is 0 when the total is 0, equal to the ratio whenever that is at most 100, and 100 whenever the ratio reaches 100 |
| VetView.ProgressInRange | views/VetDashboard.tsx:298-299 | with a count between zero and a positive total, the width lies between 0 and 100 |
| AppointmentsView.Filtered | views/AppointmentsView.tsx:12-15 | ALL shows the whole list; any other filter shows only entries whose status name is the filter |
| AppointmentsView.FilterByStatus | views/AppointmentsView.tsx:12-15 | a status filter shows exactly the entries with that status, in list order |
| AppointmentsView.UnknownFilterShowsNothing | views/AppointmentsView.tsx:12-15 | a filter that names no status shows nothing |
| AppointmentsView.CancelledOnlyUnderAll | views/AppointmentsView.tsx:46 | a cancelled entry is visible under a filter choice only when that choice is ALL |
| AppointmentsView.PaletteInjective | views/AppointmentsView.tsx:17-25 | two colours give the same class string only when they are the same colour |
| AppointmentsView.StylesDistinguish | views/AppointmentsView.tsx:17-25 | scheduled, pending and rejected entries each get a style no other status has; completed and cancelled look the same |
| AppointmentsView.StatusLabel | views/AppointmentsView.tsx:79 | the badge is as long as the status name and equals it when the name has no underscore |
| AppointmentsView.PendingLabel | views/AppointmentsView.tsx:79 | the pending badge reads `PENDING APPROVAL` |
| AppointmentsView.OtherLabels | views/AppointmentsView.tsx:79 | the other four badges read as their status names |
| AppointmentsView.ReplaceOnlyFirst | views/AppointmentsView.tsx:79 | only the first underscore becomes a space; later underscores stay |
| AppointmentsView.JoinAndDeleteExclusive | views/AppointmentsView.tsx:98-114 | no entry offers both Join and Cancel |
| ConsultationsView.Join | views/Consultations.tsx:47-51 | the chosen call becomes active and the room is shown; mute and camera are kept |
| ConsultationsView.HangUp | views/Consultations.tsx:117 | the room closes and the active call is kept |
| ConsultationsView.ToggleMute | views/Consultations.tsx:111 | mute flips and nothing else changes |
| ConsultationsView.ToggleVideo | views/Consultations.tsx:114 | the camera flips and nothing else changes |
| ConsultationsView.TogglesInvolutive | views/Consultations.tsx:111-114 | each toggle undoes itself, and the two commute |
| ConsultationsView.RunKeepsValid | views/Consultations.tsx:13-51 | whenever the room is shown there is an active call, and every active call is a scheduled virtual appointment from the list |
| ConsultationsView.SessionFromIdle | views/Consultations.tsx:13-51 | from the lobby the page opens in, the room is only ever shown on a scheduled virtual appointment from the list |
| ConsultationsView.RoomLabel | views/Consultations.tsx:96 | the label is the last six characters of the active call's id, or the whole id when it is shorter |
| ConsultationsView.ShortIdShownWhole | views/Consultations.tsx:96 | an id of at most six characters is shown whole |
| CustomerView.QuickPet | views/CustomerDashboard.tsx:40-48 | the pet has the typed name and species, breed Mixed, age 1, weight 10 and owner c1 |
| CustomerView.AddPet | views/CustomerDashboard.tsx:37-51 | nothing happens on an empty name; otherwise exactly one pet is appended and the name field is cleared (the screen never calls this handler; see Left out) |
| CustomerView.BookingPetId | views/CustomerDashboard.tsx:58 | the first pet's id when there is one and it is non-empty, else p1 |
| CustomerView.Booking | views/CustomerDashboard.tsx:57-65 | the request is pending, virtual, with vet v1 and the typed date, time and reason |
| CustomerView.Book | views/CustomerDashboard.tsx:53-69 | nothing happens on a white-space reason; otherwise exactly one request is appended, with the reason untrimmed, and the reason field is cleared |
| CustomerView.PetInfo | views/CustomerDashboard.tsx:29-31 | the generic sentence when there are no pets; otherwise a sentence that starts with the first pet's name and ends with its breed, a space, its species and a full stop |
| CustomerView.PetInfoFirstPetOnly | views/CustomerDashboard.tsx:29-31 | the sentence depends only on the first pet: appending pets changes nothing |
| CustomerView.SymptomRequest | views/CustomerDashboard.tsx:26-32 | there is no request iff the symptoms are white space only; otherwise the pet sentence and the symptoms as typed are sent |
| CustomerView.VisitLabel | views/CustomerDashboard.tsx:158-170 | `Waiting for Admin` iff pending; `Booking Declined` iff rejected; `Confirmed` for every other status |
| CustomerView.JoinIgnoresVisitType | views/CustomerDashboard.tsx:179-183 | a scheduled in-person visit is offered the video join on this screen, though the appointments list offers it none |
| PetsView.FormPet | views/PetsView.tsx:23-31 | the pet has owner c1, the typed name, species and breed, the parsed age, the parsed weight, and weight 0 when the weight does not parse |
| PetsView.Submit | views/PetsView.tsx:19-35 | nothing happens unless name and breed are both non-empty; otherwise exactly one pet is appended and the form is reset to empty fields with species Dog |
| PetsView.AgeIsParsed | views/PetsView.tsx:28 | the age is the number the text denotes, negative numbers included; blank text gives 0 |
| MessagesView.Append | views/Messages.tsx:81-84 | the message goes at the end of that contact's thread, which is created when absent; every other thread is unchanged |
| MessagesView.Send | views/Messages.tsx:69-91 | nothing happens on a blank input, while a reply is loading (the button is disabled, views/Messages.tsx:335) or with no contact selected; otherwise the typed text is appended to the selected thread and the input is cleared; only the assistant is asked, with an empty history |
| MessagesView.ReplyText | views/Messages.tsx:96 | the reply is the answer, or the apology when the answer is missing or empty; it is never empty |
| MessagesView.Receive | views/Messages.tsx:93-105 | the reply goes at the end of the thread the question went to, and loading ends |
| MessagesView.SetMode | views/Messages.tsx:226-232 | the mode changes and the threads and input stay |
| MessagesView.Select | views/Messages.tsx:118-152 | the contact becomes the selected one and the threads and input stay |
| MessagesView.Deselect | views/Messages.tsx:189 | the back button leaves no contact selected and keeps the threads, input and mode |
| MessagesView.DeselectedSendsNothing | views/Messages.tsx:69-72 | after the back button a send does nothing |
| MessagesView.SendToPerson | views/Messages.tsx:69-89 | a send to a veterinarian adds exactly one message to that thread, touches no other thread, and asks the assistant nothing |
| MessagesView.QuestionThenAnswer | views/Messages.tsx:69-106 | a question to the assistant followed by its answer leaves the thread one question and one reply longer, in that order, with the input empty and loading over |
| MessagesView.QuestionSparesOthers | views/Messages.tsx:81-84 | neither the question nor the answer changes the thread of any other contact |
| MessagesView.AppendTwice | views/Messages.tsx:81-104 | two appends to one thread leave it two messages longer, in the order they were sent |
| MessagesView.OpenedState | views/Messages.tsx:44-63 | on opening, the assistant is selected and the assistant and v1 threads hold one message each |
| SignupView.Step | views/Signup.tsx:56-138 | Continue moves step 1 to 2; Back moves step 2 to 1; the role changes only by a role choice on step 1 |
| SignupView.ContinueThenBack | views/Signup.tsx:94-138 | Continue then Back returns to the same form |
| SignupView.RunKeepsValid | views/Signup.tsx:11-12 | the form stays on step 1 or 2, with role CUSTOMER or VETERINARIAN |
| SignupView.Draft | views/Signup.tsx:27-32 | `register` receives the form name and email, the selected role and an empty avatar |
| SignupView.Submit | views/Signup.tsx:20-35 | the registered user has the selected role, name and email |
| SignupView.PasswordIgnored | views/Signup.tsx:27-32 | the password has no influence on the account created |
| SignupView.SignupNeverAdmin | views/Signup.tsx:12-94 | whatever the visitor does, the account created has the last chosen role and is never an administrator's |
| Queries.WithStatus | views/VetDashboard.tsx:51-52 | the selection holds only entries with the status, and every such entry |
| Queries.WithStatusKeepsOrder | views/VetDashboard.tsx:51-52 | the selection commutes with splitting the list |
| Queries.WithStatusAppend | views/AdminDashboard.tsx:84 | an appended entry joins the selection, at its end, exactly when it has the status |
| Queries.WithStatusDisjoint | views/VetDashboard.tsx:51-52 | selections by two different statuses share no entry |
| Queries.WithStatusAll | views/AdminDashboard.tsx:84 | a list whose entries all have the status is its own selection |
| Queries.JoinableCalls | views/Consultations.tsx:15 | the available calls are scheduled and virtual, and every such entry is among them |
| Queries.JoinableAreScheduledVirtual | views/Consultations.tsx:15 | the available calls are the virtual entries among the scheduled ones, in list order |
| Workflow.SeedOnlyWritten | App.tsx:74-77 | the seed holds only statuses the screens write |
| Workflow.BookKeepsWritten | views/CustomerDashboard.tsx:57-65 | a booking adds only a pending request and keeps every earlier entry |
| Workflow.WriteKeepsWritten | App.tsx:129-131 | a status write of PENDING_APPROVAL, SCHEDULED or REJECTED keeps every status among those three |
| Workflow.DeleteKeepsWritten | App.tsx:133-135 | a deletion keeps only entries that were already there |
| Workflow.ApplyKeepsWritten | views/VetDashboard.tsx:162-168 | every offered booking, review or cancellation keeps all statuses among PENDING_APPROVAL, SCHEDULED and REJECTED |
| Workflow.RunKeepsWritten | views/AdminDashboard.tsx:263-269 | any session of offered actions keeps all statuses among those three |
| Workflow.NeverCompletedOrCancelled | views/VetDashboard.tsx:162-168 | from a first start, no appointment is ever COMPLETED or CANCELLED |
| Workflow.StoreWriteIsUnconditional | App.tsx:129-131 | the store itself writes any status on any entry of any list, COMPLETED and CANCELLED included |
| Workflow.BookingJoinsQueue | views/CustomerDashboard.tsx:53-65 | a booking goes to the end of the pending queue that both the veterinarian and the administrator see |
| Workflow.ReviewTouchesOnlyPending | views/VetDashboard.tsx:139-168 | with distinct ids, an offered review changes no entry that is not pending and sets the status on the entry it names |
| Workflow.ReviewTarget | views/VetDashboard.tsx:139-168 | an offered review names the id of an entry that is pending |
| Workflow.WriteSparesOthers | App.tsx:129-131 | with distinct ids, a write to one entry's id leaves every other entry as it was |
| Workflow.SameClockSameId | App.tsx:124-127 | two bookings at the same clock get the same id, so the ids of the list are no longer distinct |
| Workflow.SharedIdRevivesDeclined | App.tsx:129-131 | when a declined entry shares its id with a pending one, Accept is offered on the pending one and also turns the declined entry into a scheduled one |
| Text.TrimStart | views/CustomerDashboard.tsx:55 | the result is a suffix of the text that does not start with white space, and everything cut off is white space |
| Text.TrimEnd | views/CustomerDashboard.tsx:55 | the result is a prefix of the text that does not end with white space, and everything cut off is white space |
| Text.Trim | views/CustomerDashboard.tsx:55 | `trim()` gives a slice of the text that neither starts nor ends with white space, with only white space cut off before and after it |
| Text.TrimEmptyIffBlank | views/CustomerDashboard.tsx:55 | `trim()` gives the empty string iff the text is all white space |
| Text.Includes | views/Login.tsx:27 | `includes` holds iff the text occurs at some position |
| Text.ReplaceFirst | views/AppointmentsView.tsx:79 | The result has the input's length, is the input itself when the character does not occur, and otherwise differs from the input only at the character's first occurrence, which becomes the replacement. |
| Text.TakeLast | views/Consultations.tsx:96 | for a positive n, `slice(-n)` gives the last n characters, or the whole text when it is shorter |
| Text.DigitsOnly | views/AdminDashboard.tsx:115 | the result is all digits, keeps every digit of the input, and is the input itself when that is all digits |
| Text.DigitsOnlyConcat | views/AdminDashboard.tsx:115 | the digits of a concatenation are the digits of each part in order, so order and repetitions are kept |
| Text.DigitsOnlyOne | views/AdminDashboard.tsx:115 | a single digit is kept and any other character dropped |
| Text.DecimalDigits | App.tsx:120 | the decimal text of a number is non-empty, all digits, and has no leading zero unless the number is zero |
| Text.IntTextDigits | views/CustomerDashboard.tsx:30 | the text of an integer is non-empty, and is all digits iff the integer is not negative |
| Text.ParseIntText | views/PetsView.tsx:28 | `parseInt` reads back the decimal text of every integer |
| Text.ParseIntBlank | views/PetsView.tsx:28 | `parseInt` of white space only is NaN |
| Text.ParseIntSkipsSpace | views/PetsView.tsx:28 | `parseInt` skips leading white space |

## Left out

- Rendering, styling, charts, static chart data, routing and the sidebar toggle: these are presentation, and no stored state depends on them.
- Landing.tsx and Profile.tsx: pure presentation.
- localStorage and sessionStorage I/O and the JSON encoding. Hydration and persistence are modelled with an identity codec. The slot `logout` removes is written again by the store's effect with `null`; `Saved` holds that as `Some(None)`, which hydrates to no user just as an absent slot does.
- The admin gate's initial `cleared` flag comes from sessionStorage; it is the parameter of `AdminView.Open`.
- `setTimeout` delays, `isLoading`/`isAuthenticating` spinners, and React state batching: each handler is one atomic step. In Messages the answer's arrival is a separate step (`MessagesView.Receive`). A send while loading is blocked by the disabled button, not by the handler, and `MessagesView.Send` models the button.
- The Gemini service (services/geminiService.ts): the assistant's answer is a parameter, the symptom and diagnosis calls are modelled only up to the request they send, and the mode's system prompt is left out.
- `Date.now()`: the clock is the parameter `now`, and message timestamps are left out. Ids are not claimed unique, because the code does not make them so.
- HTML `required`, `type="email"` and `maxLength` on fields other than the clearance code: these are browser validation, outside the handlers. The handlers' own guards are modelled.
- `parseFloat` for the pet weight: its outcome is the parameter `weight` of `PetsView.FormPet` (`None` standing for NaN).
- Text.ParseInt: the result is an unbounded integer. JavaScript's loss of precision above 2^53 is not modelled.
- VetView.ProgressPercent: the division is on `real`, so floating-point rounding is not modelled.
- CustomerView.AddPet models `handleAddPet` (views/CustomerDashboard.tsx:37-51), but the screen never calls it: no form is bound to it, `newPetName` has no setter except its reset, and `isPetModalOpen` is never read. Nothing on the screen can reach it.
- Text.TakeLast: `slice(-0)` gives the whole text, not the empty one; the only caller passes 6, so n = 0 is left out.
- The quick-prompt chips in Messages (they only set the input text), the contact search box (it has no handler), and the tab switches in the admin and vet dashboards.
- Role-based authorisation, ownership checks and a SCHEDULED to COMPLETED/CANCELLED transition: none of them exists in the code, so none is modelled.
