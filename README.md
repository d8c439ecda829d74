# Tyte dating app — a verified model of its logic

This project models the logic of the Tyte prototype dating app in Dafny. The app is a React Native front end and a small FastAPI back end. Most of its code is layout. What is modelled is listed below, with the Dafny module for each:

- **Registration schemas** (`Validation`). These are the field rules of the three registration steps, written as acceptance predicates. Lengths are JavaScript lengths, counted in UTF-16 code units.
- **Date-of-birth mask** (`Step2Form`). It turns keystrokes into `DD/MM/YYYY`.
- **Password-reset screen** (`PasswordValidation`). It covers:
  - the one-time-code and password schema;
  - the `m:ss` timer text;
  - the five-minute countdown;
  - six code slots with their focus moves;
  - the resend action.
- **Back-end user registry** (`Server`). It covers:
  - pseudo lookup;
  - registration as check-then-insert;
  - the user and status-check listings;
  - the health message.

  The document store is a sequence of records held by a `Database` object.
- **List-editing screens**, one class each:
  - the photo gallery (`EditProfilePhotos`);
  - the language multi-select (`MultiSelect`);
  - the FAQ (`Faq`);
  - notifications (`Notifications`);
  - the inbox with its invitations and settings (`Messages`);
  - favourite profiles (`Profiles`);
  - the three-step registration wizard (`Register`);
  - the support form (`Support`).

Each screen is a class. Its fields are the screen's state variables. Its methods are the event handlers, and each handler replaces a field. For each handler, the model states:

- the new value of every field;
- the invariant the screen keeps, e.g. distinct photo ids and at most one main photo;
- lemmas on the pure updates: order kept, round trips, idempotence, counts.

The shared modules are:

- `Text`: decimal rendering and read-back, padding, JavaScript trimming, UTF-16 length, digit filtering.
- `Seqs`: filter, count, remove-all, toggle.
- `Wrappers`: the `Option` type.
- `Toast`: toast state.

Some inputs come from outside the code, and the model takes them as parameters:

- Clocks and fresh ids: the two `utcnow()` readings at registration, the status-check timestamp, the uuid, and today's date for accepting an invitation.
- Store failures: whether a query raises, and with what text, and the three outcomes of an insert.
- The interval timer: each firing is one call of `TickTimer`.

`backend/server.py:110-111` reads the clock twice, so `createdAt` and `updatedAt` are two independent parameters and are never said to be equal.

## Model

| member | source | states |
|---|---|---|
| Validation.PseudoAcceptedIff | frontend/utils/validation.ts:4-8 | a pseudo is accepted exactly when it has 3 to 20 characters, each an ASCII letter, an ASCII digit or `_` |
| Validation.PseudoRejectsSpaceAndHyphen | frontend/utils/validation.ts:8 | a space or a hyphen anywhere rejects the pseudo, whatever its length |
| Validation.NameAcceptedInBmp | frontend/utils/validation.ts:12-19 | for text without astral characters, a first or last name is accepted exactly when it has 2 to 50 characters |
| Validation.HeightAcceptedIff | frontend/utils/validation.ts:20-27 | a height is accepted exactly when it is 2 or 3 ASCII digits whose decimal value lies in [50, 250] |
| Validation.HeightEdgeCases | frontend/utils/validation.ts:20-27 | "49", "251", "1000", "" and "5" are rejected; "50", "250" and "050" are accepted |
| Validation.EnumRefinementsRedundant | frontend/utils/validation.ts:40-45 | gender is accepted exactly for homme, femme or autre, and body type exactly for the five listed values; the `!== ''` refinements never change the verdict |
| Validation.CityAcceptedInBmp | frontend/utils/validation.ts:46-49 | for text without astral characters, a city is accepted exactly when it has 2 to 50 characters |
| Validation.Step2AcceptedIff | frontend/utils/validation.ts:11-37 | step 2 accepts exactly two names of 2 to 50 characters, a height of 2 or 3 digits in [50, 250], and a date the date check accepts |
| Validation.Step3AcceptedIff | frontend/utils/validation.ts:39-50 | step 3 accepts exactly a listed gender, a listed body type and a city of 2 to 50 characters |
| Text.Utf16Length | frontend/utils/validation.ts:6-7 | the JavaScript length lies between the character count and twice it |
| Text.Utf16LengthInBmp | frontend/utils/validation.ts:6-7 | without astral characters, the JavaScript length is the character count |
| Text.NatToString | frontend/app/auth/password-validation.tsx:74 | `toString()` of a count gives at least one ASCII digit, no leading zero except for "0", and the digits read back as the count |
| Text.NatToStringOfDecimal | frontend/app/auth/password-validation.tsx:74 | a digit string without a leading zero is the rendering of its own value |
| Text.PadStart2 | frontend/app/auth/password-validation.tsx:74 | `padStart(2, '0')` gives the text left-padded with zeros to length 2, and never shortens it |
| Text.TrimEmptyIff | frontend/app/support.tsx:40 | `trim()` gives the empty text exactly when every character is JavaScript whitespace |
| Text.KeepDigits | frontend/components/forms/Step2Form.tsx:44 | removing the non-digits leaves only ASCII digits and never lengthens the text |
| Text.KeepDigitsOfDigits | frontend/components/forms/Step2Form.tsx:44 | a text made only of digits is kept whole |
| Step2Form.FormatDateShape | frontend/components/forms/Step2Form.tsx:44-47 | the mask is at most 10 characters of digits and `/`; it has no slash for at most 2 digits, a slash at index 2 only for 3–4 digits, and slashes at indices 2 and 5 only from 5 digits |
| Step2Form.FormatDateDigits | frontend/components/forms/Step2Form.tsx:44-47 | taking the slashes out of the mask gives the first min(8, d) digits typed |
| Step2Form.KeepDigitsOfFormatDate | frontend/components/forms/Step2Form.tsx:44-47 | the digits of the mask are the first min(8, d) digits of the input |
| Step2Form.FormatDateIdempotent | frontend/components/forms/Step2Form.tsx:43-48 | formatting a formatted date changes nothing |
| Step2Form.FormatDateWithoutDigits | frontend/components/forms/Step2Form.tsx:44-45 | input without a digit formats to the empty text |
| Step2Form.FormatDateExamples | frontend/components/forms/Step2Form.tsx:43-48 | "123" formats to "12/3" and "12345678" to "12/34/5678" |
| PasswordValidation.OtpCodeAcceptedIff | frontend/app/auth/password-validation.tsx:25-28 | the code is valid exactly when it is six ASCII digits |
| PasswordValidation.NewPasswordAcceptedLength | frontend/app/auth/password-validation.tsx:29-31 | six characters always suffice; without astral characters a password is valid exactly when it has at least six |
| PasswordValidation.FormatTimeParts | frontend/app/auth/password-validation.tsx:71-75 | the text is a minute count without leading zeros, a colon and two digits below 60, and minutes × 60 + seconds reads back as the input |
| PasswordValidation.FormatTimeExamples | frontend/app/auth/password-validation.tsx:71-75 | 300 gives "5:00" and 65 gives "1:05" |
| PasswordValidation.Tick | frontend/app/auth/password-validation.tsx:59-65 | a tick gives 0 exactly from 0 or 1, otherwise one less; it never rises |
| PasswordValidation.FireKeepsConsistent | frontend/app/auth/password-validation.tsx:57-69 | one interval firing ticks the time, and the interval stays scheduled exactly while time is left |
| PasswordValidation.ResendKeepsConsistent | frontend/app/auth/password-validation.tsx:133-136 | the corrected resend keeps the interval scheduled exactly while time is left |
| PasswordValidation.FireTimesCountsDown | frontend/app/auth/password-validation.tsx:57-69 | a countdown from k shows k − n after n firings while n < k, then stays at 0 and stops |
| PasswordValidation.ResendAsWrittenFreezes | frontend/app/auth/password-validation.tsx:57-69 | as written, a resend after expiry sets 300 seconds that never count down, so resend stays locked for good |
| PasswordValidation.Resend | frontend/app/auth/password-validation.tsx:133-136 | resend does nothing while time is left, and otherwise starts a fresh five-minute countdown |
| PasswordValidation.ResendRestartsCountdown | frontend/app/auth/password-validation.tsx:133-136 | after the corrected resend, the countdown runs out after exactly 300 firings and resend is available again |
| PasswordValidation.DigitSlotsMakeValidCode | frontend/app/auth/password-validation.tsx:86-87 | six slots of one digit each join into a code the schema accepts |
| PasswordValidation.FocusAfterChange | frontend/app/auth/password-validation.tsx:90-92 | focus moves to slot i + 1 exactly when a digit was kept and i < 5 |
| PasswordValidation.OtpEntry.constructor | frontend/app/auth/password-validation.tsx:37-55 | six empty slots, an empty code and password, and a running 300-second countdown |
| PasswordValidation.OtpEntry.ChangeSlot | frontend/app/auth/password-validation.tsx:77-93 | slot i receives the digits of the value and the other slots are unchanged; the form code stays the six slots joined; focus moves as `FocusAfterChange` says |
| PasswordValidation.OtpEntry.KeyPress | frontend/app/auth/password-validation.tsx:95-100 | Backspace moves focus back exactly when the slot is empty and i > 0; nothing changes |
| PasswordValidation.OtpEntry.ChangePassword | frontend/app/auth/password-validation.tsx:225 | only the password changes |
| PasswordValidation.OtpEntry.TickTimer | frontend/app/auth/password-validation.tsx:58-66 | one firing of the interval; the slots, code and password are unchanged |
| PasswordValidation.OtpEntry.ResendCode | frontend/app/auth/password-validation.tsx:133-139 | nothing while time is left; otherwise a fresh countdown, six empty slots and an empty code |
| Server.NewUser | backend/server.py:100-112 | the stored document carries the request's eight fields, the fresh id and the two clock readings |
| Server.FirstThousand | backend/server.py:131 | `to_list(1000)` gives the first min(n, 1000) documents in store order |
| Server.AppendKeepsPseudosUnique | backend/server.py:95-115 | appending a user whose pseudo is free keeps pseudos unique |
| Server.AppendTakes | backend/server.py:95-115 | after the append the new pseudo is taken, and every pseudo taken before still is |
| Server.Database.CheckPseudoAvailability | backend/server.py:71-88 | available exactly when no stored user has the pseudo, with the matching message; a store failure gives 500 with its text; nothing changes |
| Server.Database.RegisterUser | backend/server.py:90-125 | a taken pseudo gives 400 and nothing is stored; on success exactly one document is appended and returned, and its pseudo becomes taken; the other failures give 500 with the store's text or "Failed to create user"; pseudos and ids stay unique |
| Server.Database.GetUsers | backend/server.py:127-134 | at most the first thousand stored users, in store order; a store failure gives 500 with its text |
| Server.Database.Root | backend/server.py:137-139 | always "Tyte API is running", with no store access |
| Server.Database.CreateStatusCheck | backend/server.py:141-146 | the record with the fresh id and the current time is appended and returned; the users are untouched |
| Server.Database.GetStatusChecks | backend/server.py:148-151 | at most the first thousand records, in store order |
| EditProfilePhotos.InitialGallery | frontend/app/edit-profile-photos.tsx:29-45 | three photos with distinct ids, exactly one main photo (the first), and the add slot visible |
| EditProfilePhotos.AddOutcomeFor | frontend/app/edit-profile-photos.tsx:49-53 | the limit alert exactly at six photos or more |
| EditProfilePhotos.PhotoEditor.AddPhoto | frontend/app/edit-profile-photos.tsx:49-64 | limit alert exactly at six photos, the chooser whenever the add slot is rendered; the list never changes |
| EditProfilePhotos.FindPhoto | frontend/app/edit-profile-photos.tsx:67 | the first photo with the id, or none exactly when no photo has it |
| EditProfilePhotos.DeleteMainGuard | frontend/app/edit-profile-photos.tsx:66-75 | deleting the main photo is refused exactly when other photos remain |
| EditProfilePhotos.PhotoEditor.RequestDelete | frontend/app/edit-profile-photos.tsx:66-91 | a refused delete changes nothing; otherwise the confirmation opens for that id and the list is unchanged |
| EditProfilePhotos.WithoutPhoto | frontend/app/edit-profile-photos.tsx:86 | every photo with the id is removed and every other photo stays |
| EditProfilePhotos.DeleteKeepsOrder | frontend/app/edit-profile-photos.tsx:86 | delete distributes over any split of the gallery, so the rest keep their order |
| EditProfilePhotos.DeleteKeepsMainBound | frontend/app/edit-profile-photos.tsx:86 | delete never raises the number of main photos |
| EditProfilePhotos.DeleteKeepsIdsUnique | frontend/app/edit-profile-photos.tsx:86 | delete keeps ids distinct |
| EditProfilePhotos.SoleMainDeleted | frontend/app/edit-profile-photos.tsx:68-86 | a gallery whose only photo is main may be emptied |
| EditProfilePhotos.PhotoEditor.ConfirmDelete | frontend/app/edit-profile-photos.tsx:82-87 | the pending id's photos are removed, the invariant holds, and the main count does not rise |
| EditProfilePhotos.PhotoEditor.CancelDelete | frontend/app/edit-profile-photos.tsx:81 | the confirmation closes and nothing else changes |
| EditProfilePhotos.WithMain | frontend/app/edit-profile-photos.tsx:94-97 | isMain becomes true exactly for photos with the id; ids, uris, order and length are unchanged |
| EditProfilePhotos.MainCountWithMain | frontend/app/edit-profile-photos.tsx:94-97 | after set-main, the number of main photos is the number of photos with that id |
| EditProfilePhotos.SetMainCount | frontend/app/edit-profile-photos.tsx:93-97 | with distinct ids, set-main leaves one main photo if the id is present and none otherwise |
| EditProfilePhotos.SetMainKeepsIdsUnique | frontend/app/edit-profile-photos.tsx:94-97 | set-main keeps ids distinct |
| EditProfilePhotos.PhotoEditor.SetMainPhoto | frontend/app/edit-profile-photos.tsx:93-101 | set-main as above, the invariant kept, and a success toast |
| EditProfilePhotos.PhotoEditor.Save | frontend/app/edit-profile-photos.tsx:103-110 | only the success toast changes |
| Seqs.Filter | frontend/app/edit-profile-photos.tsx:86 | `filter` keeps exactly the elements satisfying the predicate |
| Seqs.FilterAppend | frontend/app/profiles.tsx:162 | filtering distributes over concatenation, so order is kept |
| Seqs.RemoveAll | frontend/components/ui/MultiSelect.tsx:38 | every occurrence of the value is removed and every other element stays |
| Seqs.RemoveAllIsFilter | frontend/components/ui/MultiSelect.tsx:38 | remove-all is the filter on inequality |
| Seqs.RemoveAllAppend | frontend/components/ui/MultiSelect.tsx:38 | remove-all distributes over concatenation |
| Seqs.Toggle | frontend/app/faq.tsx:58-62 | a present value is removed everywhere, an absent one is appended; its membership flips |
| Seqs.ToggleKeepsNoDuplicates | frontend/app/faq.tsx:58-62 | a list without duplicates stays without duplicates |
| Seqs.ToggleTwiceFromAbsent | frontend/components/ui/MultiSelect.tsx:37-39 | toggling an absent value twice restores the list |
| Seqs.ToggleTwiceFromPresent | frontend/components/ui/MultiSelect.tsx:37-39 | toggling a present value twice moves it to the end, once |
| Seqs.ToggleTwiceSameMembers | frontend/app/faq.tsx:57-63 | toggling twice restores the set of members |
| MultiSelect.ToggleOption | frontend/components/ui/MultiSelect.tsx:36-41 | an absent value is appended and a present one removed everywhere; its membership flips and every other value keeps its membership |
| MultiSelect.ToggleOptionRoundTrip | frontend/components/ui/MultiSelect.tsx:37-39 | toggling an absent value twice restores the selection; a duplicate-free selection stays duplicate-free |
| MultiSelect.ToggleOptionKeepsOrder | frontend/components/ui/MultiSelect.tsx:37-38 | removing a present value keeps the other values in order |
| MultiSelect.FindOption | frontend/components/ui/MultiSelect.tsx:48 | the first option with the value, or none exactly when no option has it |
| MultiSelect.DisplayText | frontend/components/ui/MultiSelect.tsx:43-52 | the placeholder for none; for one value the first matching label, or the value when there is no match or the label is empty; otherwise the count and " langues sélectionnées" |
| MultiSelect.DisplayTextCount | frontend/components/ui/MultiSelect.tsx:51 | for two or more values, the text starts with digits that read back as the count |
| Faq.FaqScreen.constructor | frontend/app/faq.tsx:22 | only item "1" is expanded |
| Faq.FaqScreen.IsExpanded | frontend/app/faq.tsx:65 | true exactly for listed ids |
| Faq.FaqScreen.ToggleExpanded | frontend/app/faq.tsx:57-63 | the id is removed if expanded, appended otherwise; only its state flips; no duplicates appear |
| Faq.ToggleLeavesOthers | frontend/app/faq.tsx:57-65 | every other id keeps its expanded state |
| Faq.ToggleTwiceRestoresExpanded | frontend/app/faq.tsx:57-63 | pressing the same question twice restores the set of expanded ids |
| Notifications.MarkedRead | frontend/app/notifications.tsx:102-108 | entries with the id become read; every other entry and field, the order and the length stay |
| Notifications.MarkedReadIdempotent | frontend/app/notifications.tsx:103-107 | marking read twice is marking read once |
| Notifications.MarkedReadUnreadCount | frontend/app/notifications.tsx:102-108 | marking read lowers the unread count by exactly the unread entries with that id |
| Seqs.Count | frontend/app/notifications.tsx:147-149 | `filter(p).length` is at most the length, zero exactly when no element satisfies `p`, and the length exactly when all do; the unread count of notifications and of messages is this count |
| Seqs.CountIsFilterLength | frontend/app/notifications.tsx:148 | the count equals the length of the filtered list |
| Notifications.InitialUnread | frontend/app/notifications.tsx:30-100 | seven notifications, three of them unread |
| Notifications.Icon | frontend/app/notifications.tsx:132-145 | one symbol per kind, the bell for any other kind |
| Notifications.IconsDistinct | frontend/app/notifications.tsx:132-145 | the four kinds and the default have five different icons |
| Notifications.RouteFor | frontend/app/notifications.tsx:114-129 | message and activity lead to /messages, like and match to /profiles, and any other kind nowhere |
| Notifications.SubtitlePlural | frontend/app/notifications.tsx:208 | the subtitle starts with the count, and both words are plural exactly when the count is not one |
| Notifications.NotificationsScreen.MarkAsRead | frontend/app/notifications.tsx:102-108 | the list becomes the marked-read list, and the unread count does not rise |
| Notifications.NotificationsScreen.Press | frontend/app/notifications.tsx:110-130 | the pressed notification is read afterwards, and the route is the one for its kind |
| Messages.WithoutMessage | frontend/app/messages.tsx:177 | the messages with the id are removed and all others stay |
| Messages.WithoutMessageKeepsOrder | frontend/app/messages.tsx:172-182 | removal distributes over any split, so the others keep their order |
| Messages.UnreadBadge | frontend/app/messages.tsx:195-197 | the badge lies between 10 and the length + 10, and is 10 exactly when everything is read |
| Messages.WithoutMessageBadge | frontend/app/messages.tsx:172-197 | removing a message never raises the badge |
| Messages.WithoutInvitation | frontend/app/messages.tsx:201 | the invitations with the id are removed and all others stay |
| Messages.AcceptedOn | frontend/app/messages.tsx:204-208 | only invitations with the id become accepted, on the given date; everything else stays |
| Messages.InvitationsLabelValue | frontend/app/messages.tsx:310 | the tab count has at least two digits, is zero-padded below ten, and reads back as the count |
| Messages.InitialInbox | frontend/app/messages.tsx:56-131 | four messages give a badge of 14, and three invitations give "03" |
| Messages.MessagesScreen.constructor | frontend/app/messages.tsx:45-131 | the initial lists, the messages tab, limits 3 and 5, and vacation off |
| Messages.MessagesScreen.HandleAction | frontend/app/messages.tsx:172-187 | accept and decline remove the message with a success or error toast naming the user; "later" changes nothing |
| Messages.MessagesScreen.ProcessAllMessages | frontend/app/messages.tsx:189-191 | only the toast changes, to the fixed error toast; every other field keeps its value |
| Messages.MessagesScreen.HandleInvitationAction | frontend/app/messages.tsx:199-211 | decline removes the invitation with an error toast; accept marks it accepted with a success toast; the messages, tab, drawer, limits and vacation mode keep their values |
| Messages.MessagesScreen.SelectTab | frontend/app/messages.tsx:289 | only the active tab changes; every other field keeps its value |
| Messages.MessagesScreen.OpenSettings | frontend/app/messages.tsx:143-145 | the drawer opens; every other field keeps its value |
| Messages.MessagesScreen.CloseSettings | frontend/app/messages.tsx:147-149 | the drawer closes; every other field keeps its value |
| Messages.MessagesScreen.SaveSettings | frontend/app/messages.tsx:151-155 | the drawer closes with a success toast; the limits and vacation mode keep their values |
| Profiles.FavoriteToggled | frontend/app/profiles.tsx:144-150 | only profiles with the id flip their favourite mark; the length is unchanged |
| Profiles.FavoriteToggleInvolution | frontend/app/profiles.tsx:145-149 | toggling the same profile twice restores the list |
| Profiles.FilteredProfiles | frontend/app/profiles.tsx:161-163 | the favourites view holds exactly the favourites; other views hold every profile |
| Profiles.FavoritesKeepOrder | frontend/app/profiles.tsx:162 | the favourites view distributes over any split, so order is kept |
| Profiles.FavoritesOfPrefix | frontend/app/profiles.tsx:161-163 | when exactly the first k profiles are favourites, the favourites view is that prefix |
| Profiles.InitialFavorites | frontend/app/profiles.tsx:37-142 | eight profiles, of which the favourites view shows the first three |
| Profiles.ProfilesScreen.constructor | frontend/app/profiles.tsx:36-37 | the list view over the initial profiles |
| Profiles.ProfilesScreen.FavoriteToggle | frontend/app/profiles.tsx:144-150 | the list becomes the toggled list; the view is unchanged |
| Profiles.ProfilesScreen.Shown | frontend/app/profiles.tsx:161-163 | the filtered list, which in the list view is every profile |
| Register.Merge | frontend/app/auth/register.tsx:33-37 | the keys are those of the three records, and a later record's value wins |
| Register.MergeDisjoint | frontend/app/auth/register.tsx:33-37 | with disjoint field names, each step's values come through unchanged |
| Register.Defaults | frontend/app/auth/register.tsx:65-84 | each step's form gets that step's stored data |
| Register.BackRestoresDefaults | frontend/app/auth/register.tsx:55-84 | in every reachable wizard state, the step before the current one has stored data, which its form gets as defaults; the third form never has defaults |
| Register.RegisterScreen.constructor | frontend/app/auth/register.tsx:16-18 | step 1, nothing stored, not loading |
| Register.RegisterScreen.Step1Next | frontend/app/auth/register.tsx:20-23 | step 1's data is stored and becomes the first form's defaults, and the wizard moves to step 2 |
| Register.RegisterScreen.Step2Next | frontend/app/auth/register.tsx:25-28 | step 2's data is stored and becomes the second form's defaults, and the wizard moves to step 3 |
| Register.RegisterScreen.BeginSubmit | frontend/app/auth/register.tsx:30-37 | loading starts and the merged record is produced; nothing is stored |
| Register.RegisterScreen.FinishSubmit | frontend/app/auth/register.tsx:45-52 | loading stops; navigation to "/" happens only on success |
| Register.RegisterScreen.Back | frontend/app/auth/register.tsx:55-61 | the step drops by one, or the screen is left from step 1; the stored data is kept, so the form now shown gets the data its step stored; the step stays in 1..3 and step 3 never has stored data |
| Register.RegisterScreen.CurrentDefaults | frontend/app/auth/register.tsx:65-84 | the defaults of the form on display: step 1's or step 2's stored data, and none on step 3 |
| Support.ReasonLabel | frontend/app/support.tsx:101 | the label of the first reason with the value, or none exactly when no reason has it |
| Support.ReasonLabels | frontend/app/support.tsx:31-37 | each of the five values has its label, and the empty value has none |
| Support.SubmitAcceptedIff | frontend/app/support.tsx:40 | submit is accepted exactly when the name and the message each contain a non-whitespace character |
| Support.SupportScreen.constructor | frontend/app/support.tsx:25-29 | reason "email", empty name and message, no toast |
| Support.SupportScreen.ShownReason | frontend/app/support.tsx:99-102 | the shown reason is always "Email" |
| Support.SupportScreen.SetName | frontend/app/support.tsx:113 | only the name changes |
| Support.SupportScreen.SetMessage | frontend/app/support.tsx:125 | only the message changes |
| Support.SupportScreen.Submit | frontend/app/support.tsx:39-52 | a blank field changes nothing; otherwise both fields are cleared and the success toast shows; the reason never changes |

## Left out

- The date-of-birth refinement (`frontend/utils/validation.ts:28-36`) parses with JavaScript `Date` and reads the clock. Step 2 takes its verdict as a parameter.
- The zod error messages are left out. Only accept or reject is modelled.
- The email checks of the login and forgot-password screens are left out. They rely on zod's `.email()` regex, which is not part of this model.
- The schemas of steps 4–7 are not defined in `frontend/utils/validation.ts`, so there is nothing to model.
- Alerts, `router` navigation and focus calls are represented only by what a handler returns (a route, a refusal flag, a focus index). The alert texts are left out.
- Toast animation and auto-hide, the drawers and all layout and styles are presentation and are left out.
- The `setInterval` scheduling is left out. Each firing is one `TickTimer` call, and clearing is the `running` flag.
- PasswordValidation.OtpEntry.ResendCode follows the corrected countdown (see Findings). The as-written behaviour is the function `ResendAsWritten`.
- `handleChangePassword` (`frontend/app/auth/password-validation.tsx:102-131`) is left out. It only simulates an API call with a delay, then shows alerts and navigates.
- The final registration submit is split into `BeginSubmit` and `FinishSubmit`. The simulated two-second API call between them is left out, so whether it succeeded is a parameter.
- The uuid generator and `datetime.utcnow()` are parameters of the server methods.
- MongoDB I/O, CORS, logging, environment configuration and the shutdown hook (`backend/server.py:15-21`, `153-173`) are left out. The store is a sequence.
- Server.Database.RegisterUser: the check-then-insert race of `backend/server.py:95-115` is not modelled, because registration is modelled sequentially. Pseudo uniqueness is proved only under that assumption.
- Server.Database.RegisterUser requires the fresh id to be unused, which stands in for uuid4's uniqueness.
- The Pydantic re-validation of stored documents into `UserResponse` and `StatusCheck` is left out. Stored records are returned as they are.
- The image chooser, camera, cropper and uploader are device I/O and are left out. The add handler only reports which dialog it opens.
- Messages.MessagesScreen.SaveSettings: the limit and vacation setters of the settings drawer are plain field assignments and are left out. The save handler is proved to keep their values.
- The locale date text of an accepted invitation (`frontend/app/messages.tsx:206`) is an opaque parameter.
- `frontend/app/messages.tsx:31-40` lacks its `interface Message {` header. The message record is taken from the fields used at lines 90-131.
- `frontend/app/profiles.tsx:262-299` uses undefined `viewMode`, `setViewMode` and `renderListView`, so that rendering code is left out. Nothing calls `setViewType`, so the view type stays "list" and only the list view is reachable.
- The support screen's attach-image handler (`frontend/app/support.tsx:54-56`) only shows an alert.
- Register.RegisterScreen.Step2Next requires the wizard to be on step 2, because `handleStep2Next` is reachable only from the form rendered on step 2 (`frontend/app/auth/register.tsx:71-77`).
- Avatars, elapsed-time texts, distances and other display-only fields are left out of the records.
- Validation.NameAcceptedInBmp, Validation.CityAcceptedInBmp and PasswordValidation.NewPasswordAcceptedLength state the character-count form only for text without astral characters. For other text the predicates use the UTF-16 length, as JavaScript does.

## Findings

| source | as written | input that shows it | evidently intended | confidence | as-written member | corrected member |
|---|---|---|---|---|---|---|
| frontend/app/auth/password-validation.tsx:57-69 | The countdown effect runs once (dependencies `[]`), and its interval clears itself when the time reaches 0. `handleResendCode` (lines 133-136) then sets the time back to 300, but nothing schedules the interval again. | Let the countdown reach 0, then press resend. The timer shows 5:00 forever, and resend stays disabled because `timeLeft > 0`. | Resend starts a new five-minute countdown that runs out after 300 seconds and unlocks resend again. | not executed | PasswordValidation.ResendAsWrittenFreezes | PasswordValidation.ResendRestartsCountdown |
