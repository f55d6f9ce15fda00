# Mentoring App — a verified model of its sheet handlers

The Mentoring App is a set of Google Apps Script handlers. They keep a
mentoring programme's records in spreadsheet tabs:
- the sign-in queue (`sign_in_log`);
- sign-in sessions and the known-student directory;
- group and individual contact sessions with their participant and mentor link tables;
- group notes;
- the attendance roster;
- the intake form;
- suggestion searches over the intake data and the known-student directory;
- report mailing lists and menus;
- birthdays.

Each handler reads a tab, scans its rows and then updates cells in place,
appends rows or clears and rewrites the tab. This project models these
handlers in Dafny and proves what they promise. The properties proved are:
- uniqueness per key;
- one-way status steps;
- idempotence;
- "other rows unchanged, order preserved";
- the exact error returns.

Modelling conventions:
- A sheet is the class `Cells.Sheet`: a header row plus data rows of cells. Its methods change it in place.
- A cell is text, an integer, a boolean or a date (`Cells.Cell`). A blank cell is empty text.
- A tolerant column map (a header resolved through lists of aliases) is a record of `Option<nat>` indices.
- The current time, new UUIDs, today's date and the signed-in user's e-mail are parameters.
- A handler that holds the document lock is one atomic method.
- Pure expression code is modelled as functions and lemmas.
- Loops that push, set or write cells are modelled as methods with loop invariants. Each method's `ensures` ties the result or the new sheet to a specification function, and lemmas prove the promised properties about that function.

Modules:
- `Wrappers`, `Strings`, `Cells`, `Scan`, `Sorting` and `Columns`: shared vocabulary.
  - ASCII text operations.
  - Rows and sheets.
  - First, last and filtered row scans.
  - Insertion sort.
  - Normalised header keys and alias resolution.
- `Utils`: Utils.js.
- `TitleCase`: uppercase.js.
- `Queue` and `QueueWrites`: QueueServer.js.
- `Grades`, `KnownStudents`, `Sessions` and `SignIn`: SignInServer.js.
- `GroupSessions`: GroupContactSessions.js.
- `Links`: GroupContactParticipants.js and GroupContactMentors.js.
- `Notes`: Notes.js.
- `Mentors`: Mentors.js.
- `IndividualContacts`: IndividualContacts.js.
- `Attendance`: Attendance.js.
- `Suggest`: the token scoring, limit and ranking that FormServer.js and SignInServer.js share.
- `FormServer`: FormServer.js.
- `SignInSuggest`, `Aggregates` and `Bootstrap`: the suggestion search and the known-student bootstrap of SignInServer.js.
- `Reports`: reports.js.
- `Birthday`: birthday.js.

## Model

| member | source | states |
|---|---|---|
| Utils.Ymd | Utils.js:12-18 | a date gives its yyyy-MM-dd text; any other value gives its trimmed text cut to 10 characters, '' for blank |
| Utils.ParseFormatYmd | Utils.js:30-51 | parseLooseDate_ of a formatted yyyy-MM-dd day gives that day back |
| Utils.ParseMdy | Utils.js:21-51 | the MM/DD/YYYY text of toMDYString_ parses back to the same day |
| Utils.MdyShape | Utils.js:21-27 | toMDYString_ is ten characters: two-digit month, '/', two-digit day, '/', four-digit year |
| Utils.SerialDays | Utils.js:44-48 | consecutive day serials are consecutive days counted from 1899-12-30 |
| Utils.YmdOfKey | Utils.js:16-17 | ymd_ is stable on its own output |
| Utils.ToBoolOfFlag | Utils.js:4-9 | a boolean reads as itself |
| Utils.ToBoolOfNum | Utils.js:4-9 | a number reads as true exactly when it is 1, as false exactly when it is 0, and as null otherwise |
| Utils.ToBoolIgnoresCaseAndSpace | Utils.js:4-9 | toBool_ ignores letter case and surrounding white space |
| Utils.ToBoolWordsDisjoint | Utils.js:6-8 | no text is in both the true and the false word list |
| Utils.ClearDataRows | Utils.js:58-64 | with only a header nothing changes; otherwise the data rows are blanked and the header is kept |
| TitleCase.ToTitleCase | uppercase.js:39-43 | the output has the input's length |
| TitleCase.TitleCaseChars | uppercase.js:39-43 | every character is lower-cased except the first character of each word, which is upper-cased |
| TitleCase.TitleCaseIgnoresCase | uppercase.js:39-43 | title-casing gives the same text for inputs that differ only in letter case |
| TitleCase.TitleCaseIdempotent | uppercase.js:39-43 | applying toTitleCase twice equals applying it once |
| TitleCase.CapitalizeGridShape | uppercase.js:27-33 | the grid keeps its shape, text cells keep their length, non-text cells are unchanged |
| TitleCase.CapitalizeGridIdempotent | uppercase.js:22-36 | running capitalizeSelection twice on a range gives what one run gives |
| Columns.NormKey | QueueServer.js:17 | the key holds only [a-z0-9] |
| Columns.NormKeyIdempotent | QueueServer.js:17 | normalising a key again changes nothing |
| Columns.Resolve | QueueServer.js:39-47 | the first alias whose key is a header key gives its (last) column, none when no alias is present |
| Columns.ResolveAppendOther | QueueServer.js:62-80 | appending header cells under other keys leaves every resolved column where it was |
| Queue.EnsureSignInLog | QueueServer.js:20-87 | a blank header is seeded with the base columns, missing admin columns are appended on the right, and the column map is the ensured one |
| Queue.EnsureKeepsHeader | QueueServer.js:49-80 | a non-blank header keeps all its cells; new columns only go after them |
| Queue.EnsureHeaderIdempotent | QueueServer.js:20-87 | ensuring an ensured header writes nothing |
| Queue.EnsureColsIdempotent | QueueServer.js:20-87 | ...and returns the same column map |
| Queue.EnsuredFindsAdmin | QueueServer.js:62-80 | after the ensure every admin column is resolved |
| Queue.EffectiveStatus | QueueServer.js:132-148 | a non-empty ProcessedAt gives Processed; else a non-empty ContactID gives Claimed; else a Status of claimed/processed gives that status; else Pending |
| Queue.StatusLabelRoundTrip | QueueServer.js:132-148 | a canonical Status label written to the cell reads back as that status |
| Queue.StatusIgnoresCase | QueueServer.js:140-146 | the Status text is read ignoring letter case and surrounding white space |
| Queue.NameLikeOf | QueueServer.js:166-170 | "First Last" text is recognised as a mentor name |
| Queue.QueueItemsDescribe | QueueServer.js:105-156 | each listQueue item comes from a row of the requested day with a non-blank ID, at rowIndex = data position + 2, with a non-empty display name |
| Queue.QueueItemsOrdered | QueueServer.js:105-156 | items follow sheet order, each row at most once |
| Queue.QueueItemsComplete | QueueServer.js:105-114 | every row of the requested day with a non-blank ID is listed |
| Queue.FillInNames | QueueServer.js:173-181 | a blank display name becomes the roster name, else the id |
| Queue.ListQueue | QueueServer.js:90-190 | the items are the listed rows of the requested (or today's) day with names filled in |
| Queue.GetSignInsByDate | QueueServer.js:277-287 | one entry per listQueue item, showing the mentor's name or else the id |
| QueueWrites.RowNumbers | QueueServer.js:196-199 | a number is kept exactly when it is some argument's whole-number value of at least 2; no more numbers than arguments |
| QueueWrites.Claimant | QueueServer.js:200-205 | the trimmed claimant, else the user's e-mail, else 'unknown' |
| QueueWrites.ClaimRows | QueueServer.js:193-229 | no usable row number gives an error and no write; otherwise each row is claimed in turn and failed lists the processed ones |
| QueueWrites.ClaimReads | QueueServer.js:211-221 | after claimRows a requested row not reading "processed" holds Status Claimed, ClaimedBy and ClaimedAt; every other cell is as before |
| QueueWrites.RefusedExactly | QueueServer.js:211-215 | failed holds exactly the requested rows whose Status cell read "processed" |
| QueueWrites.ClaimKeepsProcessed | QueueServer.js:211-215 | a claim never changes whether a row reads as processed |
| QueueWrites.ClaimedNotPending | QueueServer.js:216-219 | a claimed row is never Pending afterwards |
| QueueWrites.MarkProcessed | QueueServer.js:232-260 | the requested rows inside the sheet are marked; rows counts all filtered inputs, skipped ones included |
| QueueWrites.MarkReads | QueueServer.js:240-254 | markProcessed adds no row and changes only Status, ProcessedAt and ContactID of rows 2..lastRow |
| QueueWrites.MarkedIsProcessed | QueueServer.js:246-252 | every marked row reads as Processed |
| QueueWrites.MarkIdempotent | QueueServer.js:232-260 | marking the same rows again changes no cell |
| QueueWrites.NewStatus | QueueServer.js:309 | the status written defaults to Claimed |
| QueueWrites.NextContactList | QueueServer.js:336-344 | the new ContactID list holds the contact id exactly once more than before, or stays the same when already present |
| QueueWrites.NextContactIdempotent | QueueServer.js:336-344 | adding the same contact id again leaves the cell unchanged |
| QueueWrites.MatchedExactly | QueueServer.js:318-330 | the rows updated are exactly those on the requested day whose trimmed, upper-cased ID is requested, in sheet order |
| QueueWrites.ByIdsRowMatches | QueueServer.js:352-368 | the writes touch neither the timestamp nor the ID, so an updated row still matches |
| QueueWrites.ByIdsIdempotent | QueueServer.js:298-376 | a second markProcessedByIds with the same arguments changes nothing |
| QueueWrites.MarkProcessedByIds | QueueServer.js:298-376 | no ids gives an error; otherwise the matched rows get the new status, the extended contact list and (for a non-empty contact id) ProcessedAt; no other cell changes |
| Grades.NormIdempotent | SignInServer.js:12-19 | normalising text twice equals normalising it once |
| Grades.NormalizeGrade | SignInServer.js:408-424 | blank input gives ''; listed synonyms give their label; otherwise the numeric fallback |
| Grades.LabelsNormalize | SignInServer.js:409-415 | each of Freshman, Sophomore, Junior and Senior normalises to itself |
| Grades.SynonymGivesLabel | SignInServer.js:409-415 | a listed synonym in any case with surrounding blanks gives its label |
| Grades.SynonymsDisjoint | SignInServer.js:409-415 | no synonym belongs to two labels |
| Grades.NoDigitsIsFreshman | SignInServer.js:406-428 | every non-blank text with no digit and no '.' that is not a listed synonym (such as 'N/A') strips to '' and becomes Freshman |
| Grades.BetweenGradesTitleCased | SignInServer.js:406-428 | a non-synonym whose [0-9.] residue reads as a number strictly between 9 and 12, other than 10 and 11, is returned title-cased |
| Grades.FractionPassesThrough | SignInServer.js:406-428 | every decimal with integer part 9, 10 or 11 and a non-zero fraction (such as '10.5') is returned unchanged |
| Strings.NumberOfDecimal | SignInServer.js:416 | Number of digit text with one '.' is the decimal value of its two parts |
| Grades.NormalizeGradeIdempotent | SignInServer.js:408-424 | normalising a normalised grade gives it back |
| Grades.SplitNameOfWords | SignInServer.js:395-406 | splitting space-joined words gives the first word and the rest joined by single spaces |
| Grades.SplitNameOfBlank | SignInServer.js:395-406 | blank text has no first and no last name |
| KnownStudents.StudentKey | SignInServer.js:199-201 | studentId, else id, trimmed |
| KnownStudents.UpsertKnownStudent | SignInServer.js:198-256 | a blank id is an error with no write; otherwise the sheet becomes the upserted table and the outcome says whether a row was created |
| KnownStudents.MergedKeepsId | SignInServer.js:213-233 | the in-place rewrite keeps the id cell |
| KnownStudents.MergedTouchesOnlyWritten | SignInServer.js:213-233 | only columns with a non-empty incoming value, empty CreatedAt or a requested LastSignIn change |
| KnownStudents.MergedAgrees | SignInServer.js:213-233 | after the rewrite the row holds every non-empty incoming field |
| KnownStudents.NewRowAgrees | SignInServer.js:236-252 | an appended row holds the student's id and fields |
| KnownStudents.UpsertKeepsIdsUnique | SignInServer.js:207-255 | at most one row per id is kept, and the student's id has a row afterwards |
| KnownStudents.UpsertIdempotent | SignInServer.js:198-256 | upserting the same student twice equals upserting once |
| KnownStudents.FetchKnownStudents | SignInServer.js:162-196 | the list of the directory's rows with a non-blank id, in sheet order |
| KnownStudents.KnownListMembers | SignInServer.js:170-190 | the listed records are exactly those of the rows with a non-blank id |
| KnownStudents.UpsertThenListed | SignInServer.js:198-256 | after an upsert the student's id is listed |
| Sessions.ReadTypeOfName | SignInServer.js:262-263 | a stored type name reads back as itself; anything but 'group' is individual |
| Sessions.ActiveCellMeaning | SignInServer.js:270 | a cell is inactive exactly when it is false, 0 or text reading 'false' after trimming and lower-casing; every other cell, a blank one included, is active |
| Sessions.Hydrate | SignInServer.js:258-276 | the session fields read from a row |
| Sessions.FindSessionMeaning | SignInServer.js:278-295 | a session is found exactly when a row carries the trimmed id, and it is the first such row; a blank id finds none |
| Sessions.ListActiveSignInSessions | SignInServer.js:297-315 | the active sessions of the requested day, ordered by title |
| Sessions.ActiveSessionsSorted | SignInServer.js:311 | the list is ordered by title |
| Sessions.ActiveSessionsSound | SignInServer.js:303-309 | every listed session is active and on the requested day |
| Sessions.ActiveSessionsComplete | SignInServer.js:303-309 | every active session of the day is listed |
| Sessions.StartSignInSession | SignInServer.js:317-384 | a blank label is an error with no write; a match on (day, normalised label, type) is reopened; otherwise one new row is appended |
| Sessions.NewRowState | SignInServer.js:356-364 | a new session row has IsActive true, SignInCount 0 and blank ClosedAt and LastSignInAt |
| Sessions.NewSessionMatches | SignInServer.js:340-364 | a new row matches its own start request |
| Sessions.ReopenKeeps | SignInServer.js:345-352 | reopening sets IsActive, clears ClosedAt and keeps every other cell |
| Sessions.StartIdempotent | SignInServer.js:317-384 | starting the same session twice leaves the sheet as one start does |
| Sessions.EndSignInSession | SignInServer.js:644-655 | an unknown id is "Session not found."; an inactive session is returned with no write; otherwise IsActive false and ClosedAt now |
| Sessions.ClosedRow | SignInServer.js:650-653 | closing keeps the id, clears the active flag and stamps ClosedAt |
| Sessions.EndCloses | SignInServer.js:644-655 | after an end the same row is found for the id and it is closed |
| Sessions.EndIdempotent | SignInServer.js:644-655 | ending twice leaves the sheet as ending once |
| SignIn.SignInCheckMeaning | SignInServer.js:814-827 | the check passes exactly when the session id, payload and student id are present and the session is found and active, and reports the first missing one otherwise |
| SignIn.DetailsStored | SignInServer.js:829-846 | the stored student fields equal those of the raw payload, since normalising twice equals normalising once |
| SignIn.QueueRowPending | SignInServer.js:854-870 | the queue row appended reads as Pending with the student's id and name |
| SignIn.AppendQueueRow | SignInServer.js:854-872 | the log header is ensured, rows are padded to it and one queue row is appended |
| SignIn.AttendanceRowReads | SignInServer.js:788-809 | the attendance row holds the time, names, grade, school, id and session title in their columns |
| SignIn.AppendAttendance | SignInServer.js:788-809 | exactly one attendance row is appended |
| SignIn.CountedIncrements | SignInServer.js:874-880 | SignInCount goes up by exactly 1 and LastSignInAt is now |
| SignIn.CountedKeeps | SignInServer.js:874-880 | the count update keeps the id, title, type, date and IsActive |
| SignIn.CountedStillOpen | SignInServer.js:874-880 | the same session is still found and still active after the count |
| SignIn.RecordStudentSignIn | SignInServer.js:811-895 | any failed check is an error with no write; otherwise the directory is upserted, the count is incremented and one queue row (individual) or one attendance row (group) is appended |
| SignIn.LookupSignInById | SignInServer.js:657-696 | the lookup result over the directory and the roster |
| SignIn.LookupMeaning | SignInServer.js:657-696 | a blank id is an error; a directory match is known; a roster match gives trimmed fields and is not known |
| SignIn.LookupNotFound | SignInServer.js:690-695 | an id in neither list gives the not-found error |
| GroupSessions.EnsureGroupSessionsSheet | GroupContactSessions.js:16-44 | an empty sheet is seeded with the eight names; the column map is read off the normalised header keys |
| GroupSessions.SeededIsStandard | GroupContactSessions.js:22-42 | on a seeded sheet every column is where the seed (and appendRow) puts it |
| GroupSessions.CreateOrUpdateGroupContactSession | GroupContactSessions.js:56-92 | an invalid date or blank group is an error with no write; otherwise the first (day, group) row is updated in place or one row is appended |
| GroupSessions.UpsertSession | GroupContactSessions.js:63-91 | the sheet becomes the upserted table and the result reports the id and whether a row was created |
| GroupSessions.SameGroupIsKey | GroupContactSessions.js:68-73 | a row matches exactly when its (ymd day, trimmed group) key is the requested one |
| GroupSessions.UpdateReads | GroupContactSessions.js:77-85 | an update writes Topic, Summary, Duration, EditedAt and a minted ContactID; day, group and CreatedAt keep their values |
| GroupSessions.NewRowReads | GroupContactSessions.js:87-90 | the appended row reads back as the day, group, new id and saved values |
| GroupSessions.UpsertOthers | GroupContactSessions.js:76-91 | every other row keeps its cells, and the row count grows only on an append |
| GroupSessions.UpsertKeepsOnePerKey | GroupContactSessions.js:67-91 | a table with at most one row per (day, group) keeps that property after a save |
| GroupSessions.UpsertSameId | GroupContactSessions.js:76-91 | saving the same key again updates the row the first save wrote and returns the same contact id |
| GroupSessions.StoredIdNotBlank | GroupContactSessions.js:77-81 | the returned contact id is never blank: a blank stored id is replaced by a fresh one |
| GroupSessions.GetContactIdForGroup | GroupContactSessions.js:98-115 | a blank day or group gives null; otherwise the ContactID of the last matching row, null when blank |
| GroupSessions.SaveThenLookup | GroupContactSessions.js:56-115 | after a save getContactIdForGroup_ for the same key returns the id the save returned |
| Notes.EnsureGroupNotesSheet | Notes.js:3-74 | seed an empty or blank header, append the missing field names on the right and return the resolved column map |
| Notes.NotesColsResolved | Notes.js:25-71 | after the ensure every field is resolved to a column named by one of its aliases; already resolved fields keep their column and new ones lie to the right |
| Notes.NotesKeepHeader | Notes.js:14-71 | a header with a non-blank cell keeps every cell; data rows are only widened |
| Notes.NoteNameKeys | Notes.js:44-70 | each appended name is found again under its field's first second-pass alias |
| Notes.SaveGroupNote | Notes.js:80-146 | a missing date or blank group is an error before any lookup; otherwise the first matching row is updated with trimmed values, or one row is appended |
| Notes.GetLatestGroupContactSession | Notes.js:149-175 | the last matching row's trimmed topic and summary and its duration, or no note |
| Notes.SaveNoteThenLatest | Notes.js:80-175 | after saveGroupNote the latest note for that key is the one just saved |
| Notes.SavedCells | Notes.js:114-137 | the key's row holds the saved topic, summary and duration after the save |
| Notes.SaveFullGroupNote | Notes.js:178-193 | a failed session save is returned as it is with no link write; otherwise both link tables are saved under the session's id |
| Notes.FullSaveCounts | Notes.js:186-192 | under a non-blank id the full save is ok and counts the distinct incoming ids of each table |
| Notes.FullSaveOk | Notes.js:179-192 | the session id is never blank, so a successful session save makes the full save ok |
| Notes.MentorsJsBindingLosesMentors | Mentors.js:153-213 | when the two-argument call reaches the three-argument saveGroupMentors, no mentor is linked and mentorsAdded is 0; the save fails exactly when the mentor list is empty (tab untouched) or the tab is not three columns wide (tab cleared); otherwise it adds no new id |
| Links.DedupeEntries | GroupContactParticipants.js:40-58 | the de-duplicating map over the incoming people gives the kept links |
| Links.KeptIds | GroupContactParticipants.js:43-47 | the kept ids are exactly the non-blank incoming ids |
| Links.KeptDistinct | GroupContactParticipants.js:45-47 | no two kept links share an id and no kept id is blank |
| Links.KeptIsFirst | GroupContactParticipants.js:46-47 | a kept link holds the name of the first entry with its id |
| Links.DedupeTwice | GroupContactParticipants.js:40-58 | de-duplicating an already de-duplicated list changes nothing |
| Links.NamePartsOfWords | GroupContactParticipants.js:50-55 | the last word becomes LastName and the words before it FirstName; a one-word name is all LastName |
| Links.MentorNameOrId | GroupContactMentors.js:43 | a blank mentor name becomes the MentorID |
| Links.ReplaceForKey | GroupContactParticipants.js:60-70 | other contacts' rows stay in order and this contact's rows become exactly the new ones |
| Links.UnchangedWhenNothingToDo | GroupContactParticipants.js:64-66 | with nothing to add and no row for the contact, the table is not rewritten |
| Links.RelinkIdempotent | GroupContactParticipants.js:60-70 | saving the same rows twice gives the table one save gives |
| Links.Relink | GroupContactParticipants.js:60-70 | the data rows become the replace-for-key rewrite, or stay when nothing changes |
| Links.SaveGroupParticipants | GroupContactParticipants.js:31-78 | a blank contactId is an error with no write; otherwise the table is rewritten for the contact and added is the kept count |
| Links.SaveContactMentors | GroupContactMentors.js:30-68 | the same for the mentor links |
| Links.AddedCountsIds | GroupContactParticipants.js:77 | added is the number of distinct non-blank incoming ids |
| Links.SavedParticipants | GroupContactParticipants.js:31-78 | after a save the other contacts' rows are as before and the contact has one row per kept participant |
| Links.SavedMentors | GroupContactMentors.js:30-68 | after a save the other contacts' rows are as before and the contact has one row per kept mentor |
| Mentors.GetMentors | Mentors.js:4-51 | no id column gives []; rows with a blank id are dropped; activeOnly keeps active mentors; sorted by last, then first name |
| Mentors.GetMentorsSorted | Mentors.js:47 | the list is ordered by last name, then first name |
| Mentors.GetMentorsMembers | Mentors.js:24-46 | a record is listed exactly when the id column exists, the id is non-blank and (for activeOnly) it is active |
| Mentors.ListedMentor | Mentors.js:32-46 | every listed mentor has a non-blank id and name |
| Mentors.NoActiveColumn | Mentors.js:36 | without an active column every mentor is active, so activeOnly changes nothing |
| Mentors.ActiveAmongAll | Mentors.js:46 | the active list is part of the full one |
| Mentors.IsActiveIgnoresCaseAndSpace | Mentors.js:26-30 | the active flag ignores letter case and surrounding white space |
| Mentors.DedupeGroupMentorsFor | Mentors.js:75-118 | a missing tab removes nothing; otherwise the tab becomes the per-key de-duplicated one |
| Mentors.DedupeForMoves | Mentors.js:87-114 | rows of other keys keep their order; the key's rows move to the end as one row per distinct upper-cased id |
| Mentors.DedupeForIds | Mentors.js:102-109 | the key's ids afterwards are distinct and are exactly its non-blank ids before |
| Mentors.DedupeForIdempotent | Mentors.js:75-118 | a second pass removes nothing and changes nothing |
| Mentors.DedupeForCount | Mentors.js:116 | removed is the number of rows by which the tab shrank |
| Mentors.DedupeAllGroupMentors | Mentors.js:121-146 | a missing tab raises; otherwise the tab is rewritten one row per key, sorted |
| Mentors.DedupeAllResult | Mentors.js:130-145 | removed is rows less distinct keys; output sorted by date, group, id with one row per key |
| Mentors.DedupeAllKeepsLast | Mentors.js:130-135 | the last row of each key is among the rows written |
| Mentors.SaveGroupMentors | Mentors.js:153-217 | a blank group is an error; otherwise the key's rows become the union of existing and incoming ids after the others |
| Mentors.UnionHas | Mentors.js:199-200 | the union holds distinct non-blank ids: exactly those stored or incoming, stored ones first |
| Mentors.SaveMerges | Mentors.js:182-211 | other keys' rows are kept ahead of the rewritten block; mentorsSaved is the union size and addedNew the growth over the stored ids |
| Mentors.SaveKeepsExisting | Mentors.js:160-200 | no stored mentor is removed: every stored or incoming id is stored afterwards |
| Mentors.SaveTwice | Mentors.js:153-217 | saving the same mentors again adds nothing and changes no row |
| Mentors.SaveIntoNewTab | Mentors.js:171-205 | on a freshly created tab the saved rows are the distinct incoming ids |
| Mentors.GetGroupMentors | Mentors.js:220-235 | a blank date or group gives []; otherwise the ids of the rows filed under (date, group) |
| Mentors.GetGroupMentorsHas | Mentors.js:224-234 | an id is listed exactly when some row under the key carries it |
| Mentors.SaveThenGet | Mentors.js:153-235 | after saveGroupMentors, getGroupMentors for the key gives the union |
| IndividualContacts.StudentIdsMeaning | IndividualContacts.js:163-167 | the saved ids are distinct, non-blank, and exactly the trimmed ids of the people, never more of them than people |
| IndividualContacts.StudentIdsFirstOrder | IndividualContacts.js:164-167 | ids keep first-occurrence order: the ids of a prefix of the people are a prefix of the ids of all |
| IndividualContacts.CollectIds | IndividualContacts.js:163-167 | the Map-filling loop yields the unique id list |
| IndividualContacts.QueueRowsMeaning | IndividualContacts.js:209-218 | every queue row to mark is at least 2 and distinct; with explicit indices they are exactly those numbers at least 2, otherwise exactly the people's row indices at least 2 |
| IndividualContacts.PeopleRows | IndividualContacts.js:213-215 | the rows inferred from people are exactly their numeric row indices at least 2 |
| IndividualContacts.SessionRowReads | IndividualContacts.js:184-197 | each resolved column of the session row holds its value and every other cell is blank |
| IndividualContacts.SessionRowFields | IndividualContacts.js:185-195 | the row carries the contact id, the trimmed upper-cased mentor id, Number(duration) or 0, and the trimmed notes |
| IndividualContacts.LinkRowsRead | IndividualContacts.js:199-206 | the k-th link row holds the contact id, the k-th unique id, a blank note and the timestamp |
| IndividualContacts.WriteContact | IndividualContacts.js:225-228 | the session sheet gains exactly the session row and the link sheet exactly the link rows |
| IndividualContacts.MarkQueue | IndividualContacts.js:232-238 | the queue rows to mark are marked processed with the contact id and the result counts them |
| IndividualContacts.SaveIndividualContactSession | IndividualContacts.js:158-252 | no unique id is the error with no write; otherwise one session row and one link row per unique id share the fresh id, participantsSaved is the unique count, and queue rows are marked only when there are some |
| IndividualContacts.RowEntry | IndividualContacts.js:342-351 | a roster row gives a pair exactly when its id is non-blank, and then its name is non-blank (falling back to the id) |
| IndividualContacts.RosterPairsNamed | IndividualContacts.js:325-352 | every collected pair has a non-blank id and a non-blank name |
| IndividualContacts.RosterFirstWins | IndividualContacts.js:354-355 | the map holds each id's first pair |
| IndividualContacts.RosterEarlierTab | IndividualContacts.js:322-355 | an id on the 2026 tab keeps its 2026 name whatever the 2025 tab says |
| IndividualContacts.RosterHasId | IndividualContacts.js:326-355 | every non-blank id of a usable tab is in the map |
| IndividualContacts.RosterIdNameMap | IndividualContacts.js:316-358 | the loops over tabs and pairs build the first-wins map of all tab pairs |
| IndividualContacts.NamesForIds | IndividualContacts.js:361-367 | the keys are exactly the non-blank trimmed requested ids |
| IndividualContacts.NamesFromRoster | IndividualContacts.js:364-366 | each id maps to its roster name, the first pair's name, or to itself when the roster lacks it |
| IndividualContacts.NamesListMeaning | IndividualContacts.js:309-313 | getNamesForIds lists each mapped id once with its mapped name, and nothing else |
| IndividualContacts.DateOr | IndividualContacts.js:274 | a date becomes its yyyy-MM-dd text; other text is cut to ten characters; a blank value is kept as it is |
| IndividualContacts.DurationOf | IndividualContacts.js:275 | a falsy duration is 0 and a number stays that number |
| IndividualContacts.MentorNameOf | IndividualContacts.js:285 | blank exactly for a blank mentor id; otherwise the listed non-blank name or the id |
| IndividualContacts.MentorNamesMeaning | IndividualContacts.js:266-267 | the map holds each upper-cased mentor id with the last such mentor's name, or its id when the name is blank |
| IndividualContacts.MentorNameMap | IndividualContacts.js:266-267 | the forEach builds that last-wins map |
| IndividualContacts.ByContactKeys | IndividualContacts.js:269-271 | a contact id is a key exactly when it is non-blank and some session row carries it |
| IndividualContacts.ByContactLast | IndividualContacts.js:270-287 | a contact id's summary is that of its last session row |
| IndividualContacts.ByContactMap | IndividualContacts.js:269-287 | the forEach builds that last-wins map |
| IndividualContacts.HitOf | IndividualContacts.js:292-297 | a link row is a hit for an id exactly when it names that student and a known contact, and carries that contact's summary and the roster name |
| IndividualContacts.HitsSound | IndividualContacts.js:292-297 | every listed hit comes from a link row of that student and a known contact |
| IndividualContacts.HitsComplete | IndividualContacts.js:292-297 | every such link row is listed |
| IndividualContacts.CollectHits | IndividualContacts.js:291-298 | every requested id gets its hits in link order, and nothing else is a key |
| IndividualContacts.PerId | IndividualContacts.js:259 | the limit lies in 1..50; a missing or zero perId gives 5, any other number is clamped |
| IndividualContacts.ByDateDescTotal | IndividualContacts.js:301 | the newest-first comparison is a total preorder |
| IndividualContacts.RecentForMeaning | IndividualContacts.js:300-303 | each list is sorted newest first, holds at most n of the hits, all of them when there are at most n, and none older than a hit it drops |
| IndividualContacts.ListingKeys | IndividualContacts.js:257-258 | the result's keys are exactly the non-blank trimmed requested ids |
| IndividualContacts.ListRecentContactsForIds | IndividualContacts.js:256-305 | the loops build, for every requested id, its newest n contacts |
| Attendance.MemberOf | Attendance.js:39-59 | the entry carries the row's id and a name that is blank only with the id, and is the id when first and last are blank |
| Attendance.TallySound | Attendance.js:24-59 | every entry is the entry of a kept row filed under that group |
| Attendance.TallyComplete | Attendance.js:24-59 | every kept row shares its key with a kept row whose entry is listed in its group |
| Attendance.TallyShape | Attendance.js:34-59 | lists are non-empty, every entry's key has been seen, and no two entries of a group share a key |
| Attendance.SeenKeyInjective | Attendance.js:34 | ids and groups without a vertical bar never share a de-duplication key |
| Attendance.KeyCollisionDropsRow | Attendance.js:34-36 | with a vertical bar inside an id or a group, a distinct (id, group) row is dropped as a repeat |
| Attendance.RosterByDateIsTally | Attendance.js:64-67 | the final filter drops no group, since every group built has an entry |
| Attendance.RosterSound | Attendance.js:24-59 | each listed entry is the entry of a row of that day and group with a non-blank id |
| Attendance.RosterDistinct | Attendance.js:34-36 | a listed group has entries and no id twice |
| Attendance.RosterComplete | Attendance.js:24-59 | every row of the day with a group and an id is listed in its group under its id, when no id or group holds a vertical bar |
| Attendance.AddRow | Attendance.js:25-59 | one loop pass is one step of the fold |
| Attendance.KeepNonEmpty | Attendance.js:64-67 | the key loop keeps exactly the groups with entries |
| Attendance.GetRosterByDate | Attendance.js:9-69 | a missing sheet is an error; otherwise the roster of the resolved day |
| Attendance.RewrittenMeaning | Attendance.js:96-111 | only the first row of that day, id and group changes, and only in the written column; with no match nothing changes |
| Attendance.RewriteFirst | Attendance.js:96-111 | the scan and the setValue are the rewrite |
| Attendance.MovePlanMeaning | Attendance.js:86-114 | no rows or no match is an error with no change; a move changes only the first match's group cell, after which that row is in the new group |
| Attendance.MoveOnSheet | Attendance.js:80-114 | a missing sheet is an error; otherwise the move plan |
| Attendance.MoveMember | Attendance.js:72-120 | blank inputs give the error, an equal from and to is a no-op, both with no write; otherwise the move on the sheet |
| Attendance.IdPlanMeaning | Attendance.js:133-161 | no rows or no match is an error with no change; an update changes only the first match's id cell, after which that row carries the new id |
| Attendance.UpdateOnSheet | Attendance.js:130-161 | a missing sheet is an error; otherwise the id plan |
| Attendance.UpdateMemberId | Attendance.js:123-168 | blank inputs give the error with no write; otherwise the update on the sheet |
| Suggest.PairScore | FormServer.js:61-62 | a token scores against a field only when the field equals, starts with or contains it; with positive weights every such hit scores above zero |
| Suggest.ScorePositive | FormServer.js:57-65 | a total score is positive exactly when some token hits some field (for positive weights) |
| Suggest.ScoreAppend | FormServer.js:59-64 | the score of a concatenated token list is the sum of the scores of its parts |
| Suggest.ScoreOf | SignInServer.js:756-764 | the nested token and field loops compute the total score |
| Suggest.Limit | FormServer.js:46 | the result count lies between 1 and 20, is 10 for a missing or zero limit, and is the limit itself when that is 1 to 20 |
| Suggest.Positives | FormServer.js:67 | keeps exactly the candidates with a positive score |
| Suggest.ScoreThenTotal | FormServer.js:68 | descending score followed by a total tie order is again a total preorder |
| Suggest.RankMeaning | FormServer.js:67-69 | at most n results, each a positive candidate, sorted; a positive candidate left out means n results ranked at or before it |
| FormServer.SuggestPeople | FormServer.js:44-71 | a blank query gives no suggestions; otherwise a missing data tab is the "Missing tab" error; never more than the limit |
| FormServer.CandidateScore | FormServer.js:48-65 | a data row scores above zero exactly when a query word hits its id, first, last or full name, school or grade |
| FormServer.RankedSound | FormServer.js:67-69 | at most n results, each a positive-scoring candidate built from some data row |
| FormServer.RankedOrder | FormServer.js:68 | each result has a higher score than the next, or an equal score and a last name in order |
| FormServer.RankedComplete | FormServer.js:67-69 | a positive row that is not suggested means n results, each scoring at least as much |
| FormServer.FormOrderTotal | FormServer.js:68 | the score-then-last-name order is a total preorder |
| FormServer.LookupById | FormServer.js:76-89 | the two scans compute the lookup outcome |
| FormServer.LookupBlocked | FormServer.js:77-84 | a blank id is the "No CPS ID" error; the "already in 2026" error comes exactly when the id is non-blank and a submissions row has it |
| FormServer.LookupFound | FormServer.js:86-87 | a found record is the record of the first data row with that id |
| FormServer.LookupNotFound | FormServer.js:88 | the not-found error means no data row has that id |
| FormServer.MessagesDiffer | FormServer.js:77-88 | the not-found message differs from the other three outcomes' messages |
| FormServer.YearsBetween | FormServer.js:109 | the age is the one whole number of years whose birthday anniversary is on or before the reference day while the next is after it |
| FormServer.SubmitForm | FormServer.js:92-161 | a missing payload, CPS id or tab is an error with no write; otherwise exactly one row is appended and nothing else changes |
| FormServer.SubmitRowMeaning | FormServer.js:111-135 | the row holds the CPS id, the submit time, today's MM/DD/YYYY date, and the birth date and age at today when the birth date parses, blanks otherwise |
| FormServer.SubmitRowFields | FormServer.js:116-157 | every plain field is the payload's value when it is given and truthy, and blank when it is absent |
| FormServer.SubmittedIsBlocked | FormServer.js:80-159 | after a submission, looking up its CPS id gives the "already in 2026" error |
| SignInSuggest.CombinedKeyed | SignInServer.js:708-743 | the combined map lists each non-blank id once, in first-seen order, under an entry carrying that id |
| SignInSuggest.CombinedIds | SignInServer.js:710-743 | an id is in the map exactly when it is non-blank and is a known record's id or a trimmed roster id |
| SignInSuggest.KnownTableAt | SignInServer.js:710-721 | a known id maps to the entry of its last known record |
| SignInSuggest.RosterOnlyFills | SignInServer.js:726-732 | roster items for an id already present keep every filled first name, last name, school and grade |
| SignInSuggest.KnownEntryKept | SignInServer.js:710-743 | the filled fields of a known record survive the roster pass |
| SignInSuggest.BuildCombined | SignInServer.js:708-743 | the two forEach loops build the combined map |
| SignInSuggest.SignInOrderTotal | SignInServer.js:779-782 | descending score, then full name, then id is a total preorder |
| SignInSuggest.LabelLeads | SignInServer.js:765-771 | the label starts with the full name, or with the id when there is no name, and is blank only when both are |
| SignInSuggest.SuggestFor | SignInServer.js:698-786 | a blank query gives no suggestions; never more than the limit |
| SignInSuggest.SuggestForSound | SignInServer.js:745-786 | every suggestion is an entry of the combined map that a query word hits, with its label |
| SignInSuggest.SignInSuggestPeople | SignInServer.js:698-786 | reading the directory tab, merging the roster and ranking gives the suggestions |
| SignInSuggest.ScoreEntries | SignInServer.js:745-777 | the map loop scores every combined entry in order |
| SignInSuggest.RankedSound | SignInServer.js:777-785 | at most n results, each a map entry a query word hits |
| SignInSuggest.RankedOrder | SignInServer.js:779-782 | the results are in score, then name, then id order |
| SignInSuggest.RankedFull | SignInServer.js:777-785 | a positive entry left out means n results, each scoring at least as much |
| SignInSuggest.RankedComplete | SignInServer.js:777-785 | a hit entry whose id is not among the results means the list is full |
| Aggregates.MergeEntryField | SignInServer.js:482-497 | merging an arrival passes each field through setField with that source's priority |
| Aggregates.PriorityWins | SignInServer.js:482-491 | a field stays unset exactly when no offer gives a value; otherwise it holds the trimmed value of the last offer of the highest priority |
| Aggregates.MergedField | SignInServer.js:460-507 | a merged field is the priority winner among the batch's offers for that id |
| Aggregates.MergedFieldWins | SignInServer.js:460-507 | over the whole batch: a field is unset iff no arrival for the id offers a value, else it is the winning offer's value |
| Aggregates.LastSignInIsLatest | SignInServer.js:498-505 | the last sign-in is absent iff no arrival for the id carries a stamp; otherwise it is one of those stamps and none is later |
| Aggregates.MergedKeys | SignInServer.js:460-507 | the aggregate map lists each id once, and an id is in it exactly when some arrival carries it |
| Aggregates.BucketCounts | SignInServer.js:453-458 | a source has a bucket iff it sent rows; the bucket counts its rows, the merged ones and the skipped blank-id ones |
| Aggregates.NormalizeDate | SignInServer.js:386-393 | a date is kept as it is; any other value is a date exactly when parseLooseDate_ reads it |
| Aggregates.FormInfo | SignInServer.js:509-540 | a form row's id is the text of its CPS id cell |
| Aggregates.AttendanceInfo | SignInServer.js:542-571 | an attendance row's id is the text of its id cell |
| Aggregates.LogInfo | SignInServer.js:573-600 | a sign-in log row's id is the text of its id column |
| Aggregates.ArrivalsCount | SignInServer.js:509-600 | a collector adds one arrival per row, all from its own source |
| Aggregates.Aggregator.MergeAggregate | SignInServer.js:460-507 | the aggregate map takes one merge step |
| Aggregates.Aggregator.MergeEach | SignInServer.js:509-600 | a collector merges its rows in order |
| Aggregates.Aggregator.CollectAll | SignInServer.js:602-606 | the form, attendance and sign-in log arrivals are merged in that order |
| Bootstrap.KnownIdSetMembers | SignInServer.js:445-449 | an id is known exactly when it is non-blank and some directory row has it |
| Bootstrap.UnknownHasNoRow | SignInServer.js:445-449 | a non-blank id outside the known set has no directory row |
| Bootstrap.ReadKnownIds | SignInServer.js:445-449 | the forEach computes the known-id set |
| Bootstrap.OptionsFor | SignInServer.js:623-629 | the upsert stamps the last sign-in exactly when the aggregate has one |
| Bootstrap.StepTracks | SignInServer.js:609-637 | for one id, a known id is skipped and a new id appends one row and joins the known set; the counters grow by one in total |
| Bootstrap.WriteAllMeaning | SignInServer.js:609-637 | over all ids, the known set gains them, rows are appended for new ids only and in id order, and added plus skipped is the number of ids |
| Bootstrap.BootstrapMeaning | SignInServer.js:426-642 | the directory keeps its old rows plus one row per new aggregated id; added plus skipped is the number of aggregated ids; the known total is the old known count plus added |
| Bootstrap.OrderCount | SignInServer.js:608 | the sorted id list has one entry per aggregate |
| Bootstrap.BootstrapKnownStudents | SignInServer.js:426-642 | the header is untouched; the tab and the summary are the outcome of writing the sorted aggregated ids |
| Bootstrap.WriteIds | SignInServer.js:609-637 | the loop is the write fold |
| Bootstrap.WriteAllFailed | SignInServer.js:609-637 | once an upsert has thrown, the remaining ids change nothing |
| Reports.NormalizeIdempotent | reports.js:519-521 | the header key has only lower-case letters and digits, and normalising it again changes nothing |
| Reports.NormalizeSchoolIdempotent | reports.js:523-525 | the school key is trimmed and lower-case, and normalising it again changes nothing |
| Reports.SplitEmails | reports.js:527-534 | a falsy cell gives no addresses; every address is non-blank, trimmed and free of separators |
| Reports.SplitEmailsOfJoin | reports.js:527-534 | splitting a comma-joined list of addresses gives that list back |
| Reports.MailtoEmailsMeaning | reports.js:536-538 | the bcc list is distinct, lower-case, holds exactly the lower-cased addresses, and splits back to itself |
| Reports.MailtoUrlEmpty | reports.js:536-541 | the mailto link is empty exactly when the cell holds no address |
| Reports.AddEmailsHas | reports.js:391-396 | after adding, an address is present (ignoring case) iff it was before or was added |
| Reports.AddEmailsDistinct | reports.js:391-396 | adding never creates two spellings of one address |
| Reports.RecipientsWellFormed | reports.js:383-404 | every key is non-blank and lower-case, every list is non-empty with case-distinct addresses, and every label shares its key's list |
| Reports.RecipientsLists | reports.js:383-404 | a key's list is its rows' addresses, first spelling kept, in order |
| Reports.RecipientsKeys | reports.js:383-396 | a key has a list exactly when it is non-blank and some row under it has an address |
| Reports.RecipientsByLabel | reports.js:399-401 | a trimmed label from a row with addresses looks up its key's list |
| Reports.ReadRecipients | reports.js:358-408 | the loop computes the recipient map; a missing tab, no data rows or a missing column give an empty map |
| Reports.ReadRecipientRows | reports.js:383-404 | the row loop is the recipient fold |
| Reports.SchoolKeysHas | reports.js:11-21 | a key is in the school filter exactly when it is the non-blank key of a requested school |
| Reports.GradeKeyNotEmpty | reports.js:67 | a row's grade key is never blank |
| Reports.GroupAllMeaning | reports.js:58-72 | a school is grouped iff a selected row has its key; its grade lists are exactly its rows in order; its label is the first such row's trimmed school |
| Reports.GroupAllShape | reports.js:58-72 | the school order lists each grouped key once |
| Reports.GroupRows | reports.js:58-72 | the row loop is the grouping fold |
| Reports.ObjectKeysPermutation | reports.js:74 | the key order of Object.values is a permutation of the insertion order |
| Reports.ObjectKeysIndexFirst | reports.js:74 | integer-like keys come first, in ascending numeric order |
| Reports.GradeOrderMeaning | reports.js:142-146 | grade keys are listed in ascending numeric value and as a permutation |
| Reports.StudentOrderMeaning | reports.js:165-174 | each grade's students are sorted by lower-cased last name then first name, as a permutation |
| Reports.GradeLabelOfNat | reports.js:93-100 | grades 9 to 12 get their named headings, every other number "Grade n" |
| Reports.GenerateOutcome | reports.js:25-78 | a missing reports tab is the only error; with data rows, no report comes exactly when no school is selected |
| Reports.ReportsOfMeaning | reports.js:111-258 | each report is named after its school and day, is rebuilt only when that PDF does not exist yet, has the ordered grade sections, and has the school's mail |
| Reports.MailMeaning | reports.js:224-256 | skipEmail sends nothing; otherwise a mail goes out iff the recipients are non-empty, a forced key overrides the school, and the bcc splits back to the recipients |
| Reports.ReportKeysHas | reports.js:58-74 | a report is made for a school key exactly when a selected row has it |
| Reports.ReportKeysDistinct | reports.js:74 | no school is reported twice |
| Reports.FirstPerKeyCover | reports.js:434-438 | the menu holds a school key iff it is non-blank and some row has it |
| Reports.FirstPerKeyDistinct | reports.js:434-438 | no school key appears twice in the menu |
| Reports.FirstPerKeyFirst | reports.js:434-438 | the first label seen for a key is the one kept |
| Reports.MenuSchoolsMeaning | reports.js:424-461 | the menu schools are sorted, and come from the mailing-list tab unless it gives none, then from the reports tab |
| Reports.MenuActionsShape | reports.js:463-482 | at most four school actions, then the OFY action and the everyone action |
| Reports.MenuActionsSlot | reports.js:472-475 | the i-th action sends to the i-th kept school through slot handler i + 1 |
| Reports.LimitedCovers | reports.js:466-467 | when at most four non-OFY schools exist, every one gets a menu action |
| Reports.SlotsUpToAt | reports.js:505-516 | slot k holds school k when there is one that is non-blank, and is deleted otherwise |
| Reports.SlotsUpToOthers | reports.js:505-516 | properties other than the four slots keep their values |
| Reports.UserProperties.StoreMenuSlots | reports.js:505-516 | the loop performs the four slot writes and deletes |
| Reports.MenuSlotSends | reports.js:492-497 | after storing the slots, every menu slot sends the report to exactly its school |
| Reports.SlotFilter | reports.js:410-413 | sending to one school filters the reports to that school's key |
| Reports.EmptySlotFails | reports.js:492-497 | a slot with no school is the "No school configured" error |
| Reports.FixedActions | reports.js:416-422 | the OFY action forces the OFY recipients for all schools, and the everyone action neither filters nor forces |
| Reports.MailSchoolsMeaning | reports.js:278-308 | the mailing-list schools are sorted, listed once each, and are exactly the non-blank schools of either tab |
| Reports.ExistingKeys | reports.js:288-305 | a school has a kept entry exactly when it is non-blank and named on the mailing-list tab |
| Reports.ExistingLast | reports.js:297-304 | the last row naming a school gives its kept e-mail and name |
| Reports.PlanMeaning | reports.js:311-318 | each row is the school with its kept e-mail and name; its link is empty iff there is no address, and the link text says so |
| Reports.ReadExisting | reports.js:297-304 | the row loop is the last-wins fold |
| Reports.RebuildMailingList | reports.js:265-348 | a missing tab, no data rows or no School column is an error with no change; otherwise the tab is rewritten as the header plus one row per school and the links are returned |
| Birthday.HeaderIndex | birthday.js:34 | the index is the first header equal to the name, and none when no header is |
| Birthday.ColumnIndexesMeaning | birthday.js:32-40 | one 1-based index per target the header has, in target order |
| Birthday.FoundShort | birthday.js:32-40 | a missing target makes the index list shorter than the targets |
| Birthday.BirthDateGuard | birthday.js:9 | the guard passes exactly when the header has "Birth Date" |
| Birthday.ColumnData | birthday.js:42-47 | no data rows is an error; otherwise one column per index, each the cells of that column |
| Birthday.Filled | birthday.js:63 | a truthy cell is kept, anything else reads as blank |
| Birthday.RecordLastWins | birthday.js:62-64 | each target name maps to its column's cell of that row |
| Birthday.BirthdaysMeaning | birthday.js:49-69 | the records are those of the rows whose date cell is a date, in order |
| Birthday.DateRowRecord | birthday.js:58-64 | a row with a date gives a record with all five fields |
| Birthday.ReadRecord | birthday.js:62-64 | the forEach builds the row's record, and throws when a column is missing |
| Birthday.GetAllBirthdays | birthday.js:49-69 | the loop computes the birthday records |
| Birthday.NextLevel | birthday.js:104 | a level below 12 goes up by one; 12 and above, or non-numeric text, become Graduate |
| Birthday.GraduateStays | birthday.js:104 | Graduate stays Graduate |
| Birthday.NumericProgression | birthday.js:93-104 | k steps from a numeric level n give n + k while that is at most 12, then Graduate |
| Birthday.EventDay | birthday.js:95-101 | the event falls in the given year on a valid day, the birthday itself when that day exists in the year |
| Birthday.AddIfNew | birthday.js:109-115 | existing events are kept and the event is booked afterwards |
| Birthday.OfferMeaning | birthday.js:93-120 | offering a student's years never double-books a title on a day |
| Birthday.OfferBooks | birthday.js:93-120 | every offered event is booked afterwards |
| Birthday.AddAllNoDoubleBooking | birthday.js:85-121 | adding all students never double-books a title on a day |
| Birthday.AddAllBooks | birthday.js:85-121 | every planned event of every student is booked afterwards |
| Birthday.AddBirthdaysMeaning | birthday.js:70-122 | the calendar keeps its events, gains the six years of every student's birthday, and never double-books |
| Birthday.Calendar.AddYears | birthday.js:93-120 | the year loop offers the student's six events |
| Birthday.Calendar.AddBirthdays | birthday.js:85-121 | the forEach offers every student's events |
| Birthday.MissingColumnThrows | birthday.js:7-15 | with "Birth Date" present but another target column missing, the run throws |
| Birthday.AlignedMeaning | birthday.js:7-15 | with aligned columns, the records are one per row with a date, each with all five fields |

## Left out

- All Google services (range I/O, caches, locks, Drive, Docs, Mail, Calendar, properties, HTML, the signed-in user): a sheet is a `Cells.Sheet`, a locked body is one atomic method, a cache hit is treated as a miss, and the user's e-mail is a parameter.
- `Utilities.getUuid` and `new Date()`: parameters.
- Time zones: a date is a calendar day plus seconds; `ymd_` of a date is its yyyy-MM-dd text.
- Unicode NFD diacritic stripping, `localeCompare` collation and the JS regex engine: ASCII stand-ins (code-point order for collation).
- `Number(text)` on stored numbers reads integral decimal text only; fractional text is read as not a number.
- `String(date)` rendering and `toISOString` are stand-ins with the same distinctions the code relies on.
- The suggest roster that lookupSignInById reads through a helper not shown is an input.
- The header ensure steps of the known-student and session tabs: their column maps are inputs that the methods require to be complete.
- SignIn.RecordStudentSignIn: a missing attendance tab is reported after the directory upsert, which stays written (the code has no rollback); the session count is not touched in that case.
- GroupSessions.CreateOrUpdateGroupContactSession and Notes.SaveGroupNote: a matched row on a sheet whose header lacks a column the update writes makes `getRange(row, NaN)` throw; the model requires that this does not happen (`SaveSafe`) rather than modelling the exception.
- The table-level lemmas of GroupSessions and Notes (one row per key, same id, save then lookup) are stated on the seeded column layout, because `appendRow` is positional and only lines up with the column map on that layout.
- Mentors.SaveGroupMentors: the lock and the catch of an arbitrary exception are not modelled; the only failure kept is the refused write of rows whose width differs from three, reported with a stand-in message.
- Mentors.SaveThenGet, Mentors.SaveTwice and Mentors.SaveMerges: stated for a three-column header and a date key that `ymd_` gives back unchanged (at most ten characters, no surrounding white space).
- ensureGroupNoteMentorsSheet_ (Mentors.js:55-72) has no caller among the modelled handlers; the save seeds a new tab itself, which Mentors.SaveIntoNewTab covers.
- A missing `group_note_mentors` tab reads as no rows for getGroupMentors; a non-array `mentors` argument reads as an empty list everywhere.
- `_scriptCacheRemove_` after a link rewrite is a no-op.
- IndividualContacts: the ensure steps of the contact-session and participant tabs (IndividualContacts.js:29-144) are not modelled; their column maps are inputs, and the `?? 0` fallbacks there are taken at face value.
- IndividualContacts: the roster, recent-data and mentor caches are treated as misses; the `try/catch` around `getMentors` and around `markProcessed` is not modelled (the call is assumed to return).
- IndividualContacts.PerId: a fractional or date-valued perId is read as not a number.
- IndividualContacts.RecentForMeaning: `localeCompare` on the dates is code-unit order.
- IndividualContacts: non-array `ids` or `people` arguments read as empty lists.
- getNamesForIds in QueueServer.js:269 shares a global name with IndividualContacts.js:309; only the latter (`IndividualContacts.NamesList`) is modelled.
- bootstrapIndividualNotes and checkIdStatus (IndividualContacts.js:391-403) are thin wrappers over getMentors and getNamesForIds_ and are not modelled separately.
- Attendance.RosterComplete: stated only when no id or group of the day holds a vertical bar, because the joined key collides otherwise (Attendance.KeyCollisionDropsRow).
- Attendance: the script time zone is not modelled; the day is `ymd_` of the argument or today's date, a parameter.
- Attendance.MoveMember and Attendance.UpdateMemberId: the lock and the catch of a thrown error are not modelled.
- QueueWrites.RowNumbers: `Number(n)` of a fractional argument such as 2.5 is finite and at least 2, so claimRows keeps it and the write to that row fails; the model reads row numbers as whole numbers and drops fractions.
- parseLooseDate_ (Utils.js:49-50): the final `new Date(s)` fallback, reached from QueueServer.js:300 and 330 and FormServer.js:106 for text that is neither a Date nor yyyy-MM-dd nor M/D/YYYY, depends on the engine's date parser; the model reads such text as no date.
- `toLowerCase` and `toUpperCase` map ASCII letters only; other letters are left as they are.
- Links.Relink, Links.SaveGroupParticipants, Links.SaveContactMentors, Links.SavedParticipants and Links.SavedMentors model the corrected rewrite, in which every row is written as wide as the sheet; the code as written clears the data area and then throws on rows of another width, which Links.AsWrittenLosesOthers states (see Findings).
- Notes.SaveFullGroupNote, Notes.FullSaveCounts and Notes.FullSaveOk take the call at Notes.js:184 to reach saveGroupMentors(contactId, mentors) of GroupContactMentors.js:30; whichever of the two global saveGroupMentors definitions loads last wins, and the binding to Mentors.js:153 is Notes.MentorsJsBindingLosesMentors (see Findings).
- FormServer.SuggestPeople: a last name is compared as its text; in the code a numeric or date-valued last name reaches `localeCompare` on a score tie (FormServer.js:49 and 68) and throws, which the model does not capture.
- Reports: Drive, Docs and PDF building, the reuse of an existing PDF (pdfExists), the mail sending and the sheet formatting calls are not modelled; a report is the value the mail would carry, with `encodeURIComponent` supplied as a parameter.
- Reports: `localeCompare` on names and keys is code-point order; the property store behind the menu slots is a map; the onOpen menu construction itself is not modelled, only the slots it stores.
- Reports: the rebuild of the School Mailing Lists tab returns its rows, links included, as values; the rich-text link formatting and the sheet insertion are not modelled.
- Birthday: Calendar lookup and creation, `Logger.log` and the event creation calls are not modelled; a calendar is a `Birthday.Calendar` holding the events added, and today's date and the current year are parameters.

## Findings

| source | as written | input that shows it | evidently intended | confidence | as-written member | corrected member |
|---|---|---|---|---|---|---|
| GroupContactParticipants.js:66-70 | `_clearDataRows_` runs before `setValues(finalRows)` with `lastCol` columns; rows of another width make `setValues` throw after the data area is already cleared | a link table with a seventh column (lastCol 7) and one participant saved: six-cell rows, the write throws, every other contact's rows are gone | other contacts' rows are written back and this contact's rows replaced, each row as wide as the sheet | not executed | Links.AsWrittenLosesOthers | Links.ReplaceForKey |
| GroupContactMentors.js:56-60 | the same clear-then-write with five-cell rows | a mentor table wider or narrower than five columns | as above | not executed | Links.AsWrittenLosesOthers | Links.ReplaceForKey |
| birthday.js:32-64 | getColumnIndexes drops the columns it cannot find, so the column data no longer lines up with targetColumns and `data[dateColIndex]` (Birth Date is the last target) is undefined, so the loop bound at birthday.js:58 always throws | a Master sheet whose header holds "Birth Date" but lacks "School", with one data row: data[dateColIndex] is undefined and the run throws | each target column's data sits at its own position, a missing column reading as blank | not executed | Birthday.MissingColumnThrows | Birthday.AlignedMeaning |
| Notes.js:184 | saveGroupMentors is defined twice as a global (GroupContactMentors.js:30 and Mentors.js:153); when Mentors.js loads last the two-argument call passes the mentor array as the group name | a full save with no mentors reports ok false ('Missing group.'); with mentors, no mentor is linked and mentorsAdded is 0; on a mentor tab not three columns wide the save fails and the tab is cleared | the contact-keyed mentor save of GroupContactMentors.js:30 | not executed; depends on the order the script files load | Notes.MentorsJsBindingLosesMentors | Notes.FullSaveCounts |
