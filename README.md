# Coyahue Service Desk: a Dafny model of the ticket lifecycle, SLA, inbox, roles and FAQ

Coyahue Service Desk is a Django helpdesk. Requesters open tickets. Technicians work on
the tickets assigned to them. Administrators edit tickets, assign technicians and read
reports. Every change leaves a history entry and sends portal notifications. A small
knowledge base of FAQ articles takes votes and attachments.

This project models the parts of that system that carry rules, and proves what those
rules promise:

- `text.dfy` (module `Text`): the string operations the handlers rely on. These are
  Python's `strip()`, `upper()`/`lower()` on ASCII, the `icontains` search, slicing
  `s[:n]`, and the decimal rendering of ids in f-strings.
- `accounts.dfy` (module `Accounts`): users, the technician profile, `get_full_name`, and
  the `post_save` hook that creates a technician's profile. It includes a `Directory`
  class holding the user, profile and role tables, whose `Save` enforces the unique
  e-mail and runs the hook.
- `roles.dfy` (module `Roles`): the case-insensitive `require_role` helper of the views
  and the two case-sensitive REST permission classes.
- `sla.dfy` (module `Sla`): the ticket records and the SLA classifier (`sla_deadline`,
  `sla_status`, `sla_cumplido_bool`). It also holds the close-stamp rule that both edit
  handlers apply.
- `notifications.dfy` (module `Notifications`): the notification record and the unread
  summary added to every page. A `NotificationTable` class carries the inbox operations:
  mark one read, mark all read, delete all.
- `desk.dfy` (module `Desk`): the POST branches of the administrator, technician and
  requester ticket views, the password-recovery fan-out, the user edit form and the
  password rules. It also has the SLA-compliance count and the burndown series of the
  reports dashboard. All of this lives in a `HelpDesk` class that owns the ticket tables
  and uses a `Directory` and a `NotificationTable`.
- `knowledge.dfy` (module `KnowledgeBase`): the FAQ records and their helpers
  (`total_votos`, `porcentaje_utilidad`, `extension`, `es_imagen`, `es_pdf`). A
  `FaqStore` class follows the listing, detail, vote and admin create/edit views.

Timestamps are whole seconds. The clock reading `timezone.now()` is a parameter `now`.
The database's auto-increment counters are fields of the classes. An id the database would
hand out is the current counter value.

Each stateful handler is a method. Its `ensures` gives the whole new state as a function
of the old state and the inputs. The properties the code promises are then proved about
those functions:

- the close stamp is set exactly when the new status is final;
- there is one assignment row per ticket;
- every ticket's status is a row of the status catalog, and every user's role is null or a row of the role table;
- the history only grows;
- one vote per user and article, with counters that move by exactly one;
- dense attachment numbering;
- frame properties for the inbox.

### Behaviour of the code that the model keeps

- The SLA deadline is computed from the priority's `sla_horas` alone
  (tickets/models.py:158). The ticket's own `sla_horas_objetivo` is read only by the
  report count and by the administrator's success message. An `sla_horas` of 0 means no SLA.
- A rating's score is stored whatever its size. Only the positive-integer column refuses
  a negative score.
- A comment whose text is blank after stripping is not an error. The POST falls through:
  to the update branch for administrator and technician, to the rating branch for the
  requester.
- The writes of one request are not atomic. An administrator update naming an unknown
  technician has already saved the ticket, close stamp included, when the 404 is raised.
  No history entry and no notification follow.
- The technician's status change sends no notification.
- The "Abierto" status is fetched or created on every request that passes the role check
  of the creation view, before the form is looked at. A GET request counts too.
- The FAQ edit view saves the form as it is, blank title, problem or solution included.
  Only the creation view checks them.
- Comment notifications leave `tipo_notificacion` at the column's default, the empty string.
- The user edit view writes whatever the form sends. A missing first or last name is a
  null, and a role id may name no role. The save then fails with an integrity error, as
  it does for an e-mail that another user has, and nothing is written.

## Model

| member | source | states |
|---|---|---|
| Text.TrimLeftShape | accounts/models.py:72 | trimming on the left keeps a suffix that does not start with whitespace, and all it removes is whitespace |
| Text.TrimRightShape | accounts/models.py:72 | trimming on the right keeps a prefix that does not end with whitespace, and all it removes is whitespace |
| Text.StripEnds | accounts/models.py:72 | `strip()` never lengthens its input, and its result is empty or starts and ends with a non-space |
| Text.StripShape | knowledge_base/views.py:19 | `strip()` returns a slice of the input with only whitespace cut off on either side |
| Text.StripEmptyIff | accounts/views.py:946-949 | a text is blank after `strip()` exactly when it is all whitespace, so `if texto:` refuses exactly the whitespace-only inputs |
| Text.StripIdempotent | knowledge_base/views.py:196 | stripping an already stripped value changes nothing |
| Text.EqualsIgnoreCaseEquivalence | accounts/views.py:58 | comparing `upper()` forms is reflexive, symmetric and transitive, and relates a string to its lower- and upper-case variants |
| Text.Take | accounts/views.py:1399 | `texto[:100]` has length min(len, 100) and is a prefix of the text |
| Text.StripExamples | accounts/views.py:946-949 | the information separators U+001C to U+001F and the non-ASCII spaces are stripped as Python strips them, so a comment of "\x1c" alone is blank |
| Text.NatToStringRoundTrip | accounts/views.py:1356 | the decimal rendering of an id is all digits and reads back as that id, so distinct tickets get distinct titles |
| Accounts.GetFullName | accounts/models.py:71-73 | the e-mail when "first last" is all whitespace; otherwise "first last" with exactly its surrounding whitespace removed: a slice with only whitespace cut off on either side, non-empty and with non-space ends |
| Accounts.StripIsInfix | accounts/models.py:72 | the stripped name occurs as a contiguous piece of "first last" |
| Accounts.FullNameEmptyIff | accounts/models.py:71-73 | the full name is empty exactly when both name parts are blank and the e-mail is empty |
| Accounts.FindProfile | accounts/models.py:84-88 | finds a profile linked to the user, or proves that none is |
| Accounts.NoProfileCountZero | accounts/models.py:84-88 | a user no profile links to has a profile count of zero |
| Accounts.OneProfileCountOne | accounts/models.py:84-88 | under the one-to-one constraint a user with a profile has exactly one |
| Accounts.UserIndex | accounts/views.py:352 | the position of the row with the user's id, or -1 with proof that no row has it |
| Accounts.UpsertUserKeeps | accounts/views.py:352 | the save stores the user, keeps every stored id and every row with another id, adds a row only for a new id, and keeps ids and e-mails unique when no other user has the e-mail |
| Accounts.ProfilesKept | accounts/signals.py:13-21 | get-or-create never loses a profile: every profile id stored before is still found after |
| Accounts.FindProfileUnique | accounts/models.py:84-88 | under the one-to-one constraint the profile found is the only one of its user |
| Accounts.SignalEffectForTechnician | accounts/signals.py:13-21 | after saving a user whose role upper-cases to TECNICO, the user has exactly one profile, the table stays one-to-one, and the existing rows are kept unchanged as a prefix |
| Accounts.SignalEffectOtherRoles | accounts/signals.py:10-25 | a user without a role, or with another role, leaves the profile table as it was: nothing created, nothing deleted |
| Accounts.SignalEffectIdempotent | accounts/signals.py:18-21 | saving the same user again leaves the profile table unchanged, whatever id would come next |
| Accounts.FindTecnico | accounts/views.py:1004 | the profile with the given id from the table, or proof that no row has that id |
| Accounts.FindByEmail | accounts/views.py:80 | the user row with the given e-mail, or proof that no row has it |
| Accounts.Directory.TecnicoById | accounts/views.py:1004 | `Tecnico.objects.get(id=...)`: a stored profile with that id, or none exists |
| Accounts.Directory.UserByEmail | accounts/views.py:80 | `Usuario.objects.get(email=...)`: a stored user with that e-mail, or none exists |
| Accounts.Directory.EnsureProfile | accounts/views.py:1182-1184 | get-or-create of the user's profile: the table afterwards is the get-or-create of the old table, `created` holds exactly when the user had none, and the returned profile is stored and belongs to the user |
| Accounts.Directory.OnUsuarioSaved | accounts/signals.py:7-25 | the post-save receiver leaves the users as they were and the profile table as the signal's effect on the old one, keeping the directory's invariant |
| Accounts.Directory.Save | accounts/models.py:28-36 | the save succeeds exactly when no other user has the e-mail. On refusal nothing changes. On success the user table is the old one with the row of that id replaced, or with the user appended when the id is new, and the profile table is the signal's effect. Every stored user's role stays null or a row of the role table |
| Accounts.FindRol | accounts/models.py:30-36 | the role found is a row of the role table with that id, and none is found exactly when no row has it |
| Roles.EsAdministrador | tickets/permissions.py:3-6 | False for an anonymous user, an error for a null role, and True exactly for a role named "ADMIN" in that case |
| Roles.EsTecnico | tickets/permissions.py:9-12 | False for an anonymous user, an error for a null role, and True exactly for a role named "TECNICO" in that case |
| Roles.RequireRoleIgnoresCase | accounts/views.py:53-59 | `require_role` holds exactly for a logged-in user with a role whose upper-cased name equals the upper-cased request, so the spelling of the requested name does not matter |
| Roles.ExactAdminImpliesRequireRole | tickets/permissions.py:4-12 | whoever a REST permission admits also passes the view helper for the same role |
| Roles.CaseSensitivityDiffers | tickets/permissions.py:4-6 | a role stored as "admin" passes `require_role(user, "ADMIN")` but is refused by `EsAdministrador` |
| Roles.RolesExclusive | accounts/views.py:53-59 | no user is both administrator and technician, under either check |
| Sla.Deadline | tickets/models.py:153-160 | a deadline exists exactly when `sla_horas` is set and nonzero, and is then the creation time plus that many hours, strictly after creation |
| Sla.StatusCharacterization | tickets/models.py:162-196 | SIN_SLA exactly when there is no deadline. Each of the five other tags holds under exactly the condition the code tests for it, so exactly one tag applies |
| Sla.WarningWindow | tickets/models.py:190-194 | an open ticket warns exactly from creation + 3/4 of its SLA until the deadline, which is the integer form of `restantes/total <= 0.25` |
| Sla.StatusMonotoneInTime | tickets/models.py:186-196 | as time passes an open ticket only moves from EN_CURSO to ADVERTENCIA to VENCIDO; a closed ticket's tag does not depend on the clock |
| Sla.FinalWithoutCloseIsOpen | tickets/models.py:179-188 | a final status without a close time is classified by the open-ticket rules |
| Sla.ClosedComplianceDefined | tickets/models.py:180-208 | for a closed ticket with an SLA the compliance value is defined, and true exactly when it closed by the deadline |
| Sla.Examples | tickets/models.py:187-196 | with 24 h of SLA a ticket is EN_CURSO at 10 h, ADVERTENCIA at 23 h and VENCIDO at 25 h; closed at 20 h it is CUMPLIDO and at 30 h VENCIDO_CERR; 0 h means SIN_SLA |
| Sla.CumplidoBool | tickets/models.py:198-208 | True exactly for CUMPLIDO, False exactly for VENCIDO and VENCIDO_CERR, None for the rest |
| Sla.CloseStamp | accounts/views.py:991-997 | the close time is set exactly when the new status is final; an existing stamp is kept; a missing one becomes `now` |
| Sla.CloseStampRoundTrips | accounts/views.py:991-997 | the rule is idempotent, reopening clears the stamp, and closing again after a reopen stamps the new time |
| Sla.CloseStampAfterCreation | accounts/views.py:1258-1263 | a close time never lies before the creation time when the clock does not run backwards |
| Notifications.MarkOneRead | notifications/views.py:20-27 | only the notification with that id and owner becomes read; every other row is unchanged |
| Notifications.MarkAllReadOf | notifications/views.py:34-37 | exactly the user's unread notifications become read; every other row is unchanged |
| Notifications.WithoutUser | notifications/views.py:50-52 | the rows left are exactly those of other users, and as many rows go as the user owned |
| Notifications.UnreadList | notifications/context_processors.py:11-14 | exactly the user's unread notifications, as many as the unread count |
| Notifications.Insert | notifications/context_processors.py:14 | inserting into a newest-first list keeps it newest first and adds exactly that row |
| Notifications.SortNewestFirst | notifications/context_processors.py:14 | `order_by("-fecha_envio")` gives a newest-first permutation of the rows |
| Notifications.UnreadContext | notifications/context_processors.py:4-19 | nothing for an anonymous visitor; otherwise exactly the visitor's unread notifications, newest first, and a total equal to their number |
| Notifications.NoUnreadCountZero | notifications/views.py:34-37 | with nothing unread left, the unread count is zero |
| Notifications.MarkAllReadIdempotent | notifications/views.py:31-44 | after marking all read nothing is unread, and a second call changes nothing and would report 0 |
| Notifications.MarkAllReadKeepsOthers | notifications/views.py:34-37 | another user's unread count is untouched by a user's mark-all |
| Notifications.DeleteKeepsOthers | notifications/views.py:50-52 | deleting a user's notifications leaves none of theirs and keeps every other user's unread count |
| Notifications.WithoutUserIdsIncreasing | notifications/views.py:52 | deleting rows keeps the table's ids increasing and below the next id |
| Notifications.NotificationTable.Send | notifications/models.py:9-19 | appends one unread row with the next id and the time `now`, and nothing else changes |
| Notifications.NotificationTable.MarkRead | notifications/views.py:19-28 | found exactly when the user owns a notification with that id; the table becomes `MarkOneRead` of the old one |
| Notifications.NotificationTable.MarkAllRead | notifications/views.py:31-44 | the table becomes `MarkAllReadOf` of the old one, and the count returned is the old unread count |
| Notifications.NotificationTable.DeleteAll | notifications/views.py:47-57 | a non-POST changes nothing. A POST removes exactly the user's rows and returns how many they owned |
| Desk.DisplayName | accounts/views.py:1231 | `get_full_name() or email` is `get_full_name` itself, since its own fallback already gives the e-mail |
| Desk.FindEstado | accounts/views.py:989 | the status row with the given id, or proof that none has it |
| Desk.FindEstadoByName | accounts/views.py:1315-1321 | the position of a status with the given name, or proof that none has it |
| Desk.GetOrCreateAbierto | accounts/views.py:1315-1321 | the status returned is named "Abierto" and stored. An existing catalog with one is left as it is; otherwise exactly the default row is appended |
| Desk.GetOrCreateAbiertoIdempotent | accounts/views.py:1315-1321 | get-or-create keeps status ids and names unique, and a second call changes nothing and returns the same row |
| Desk.FindEstadoAppend | tickets/models.py:127-131 | statuses are only added, so a status found before an append is still found after it, and every catalog row is found by its id: the ticket's status foreign key survives the get-or-create of "Abierto" |
| Desk.FindAssignment | accounts/views.py:1005-1011 | the assignment row the upsert finds for the ticket, or proof there is none |
| Desk.FirstActive | accounts/views.py:1199-1204 | `.filter(ticket=..., activo=True).first()`: the first active row of the ticket, or proof that none is active |
| Desk.UpsertAssigns | accounts/views.py:1002-1011 | the upsert keeps one assignment row per ticket, and leaves that row active for the chosen technician (what the technician view then finds). It adds a row exactly when the ticket had none, and leaves every other ticket's rows unchanged |
| Desk.Edited | accounts/views.py:979-989 | each non-empty form id replaces the ticket's field; empty ones keep it; no other field changes |
| Desk.OrDefault | accounts/views.py:1019 | `comentario or default`: the comment when non-empty, and the default when it is empty |
| Desk.SlaFlash | accounts/views.py:1043-1051 | the SLA sentence exists exactly for a closed ticket with a nonzero objective, and says whether its duration is within the objective |
| Desk.SlaCompliance | accounts/views.py:524-532 | the loop yields the number of tickets within their objective and the number with an objective and a close stamp |
| Desk.ComplianceBounds | accounts/views.py:524-538 | the in-SLA count never exceeds the tickets measured, and the percentage is missing exactly when no ticket has an objective and a close stamp |
| Desk.FlashAgreesWithReport | accounts/views.py:1044-1051 | for a ticket with a nonzero objective, the flash message and the report count agree on compliance |
| Desk.BacklogIsCreatedMinusClosed | accounts/views.py:593-599 | when tickets close after they are created, a day's backlog is the tickets created by then minus those closed in a final status by then |
| Desk.Burndown | accounts/views.py:590-600 | seven values, oldest first, the k-th being the backlog of day today - 6 + k |
| Desk.ProfilePasswordChange | accounts/views.py:1460-1484 | accepted exactly when the current password checks, both new values agree and the new one has at least 8 characters; each failure is reported in the order the code tests it |
| Desk.AdminPasswordChange | accounts/views.py:339-350 | a blank new password keeps the old one. Otherwise the stripped value is set when it has at least 8 characters and refused when shorter |
| Desk.ShortPasswordsRejected | accounts/views.py:1471-1478 | a password shorter than 8 characters is never accepted by the profile form, and padding it with whitespace does not get it set by the admin form |
| Desk.Admins | accounts/views.py:1350 | the `iexact` filter keeps exactly the users whose role is ADMIN up to case, and never more rows than there are users |
| Desk.Fanout | accounts/views.py:1351-1359 | one notice per administrator, in order, with consecutive ids |
| Desk.FanoutReachesAdmins | accounts/views.py:1350-1359 | a user gets one of the fan-out's notices exactly when they are a stored administrator |
| Desk.FanoutSnoc | accounts/views.py:1351-1359 | one more administrator adds exactly one notice, with the next id, at the end |
| Desk.FanoutStep | accounts/views.py:1351-1359 | one more user examined by the loop adds one notice if they are an administrator and nothing otherwise |
| Desk.SavedEdit | accounts/views.py:979-999 | the saved ticket has a close stamp exactly when its new status is final |
| Desk.UpdateNotesRecipients | accounts/views.py:1022-1040 | an update sends one notice, or two when a technician is named. Ids are consecutive. The last notice goes to the requester with the new status. The first goes to the named technician with the assignment |
| Desk.Rate | accounts/views.py:1406-1420 | an existing rating is kept as it is. Otherwise a non-negative score files exactly the new rating under the ticket, and a negative one is refused |
| Desk.SecondRatingKeepsFirst | accounts/views.py:1411-1420 | a second submission changes nothing: the first rating keeps its score, resolved flag and stripped comment |
| Desk.RateKeyed | tickets/models.py:304-309 | ratings stay keyed by their ticket, one per ticket; a new rating adds only its own ticket and moves no other |
| Desk.FindUser | accounts/views.py:329 | the user row with the given id, or proof that none has it |
| Desk.ProfileIdOf | accounts/views.py:1182-1184 | a user has a profile id exactly when a profile links to them |
| Desk.HelpDesk.AssigneeUser | accounts/views.py:1392-1397 | a user to notify exists exactly when the ticket has an active assignment, since every assignment names a stored profile; it is the user of the profile that assignment names |
| Desk.HelpDesk.SaveTicket | accounts/views.py:999 | `ticket.save()` of a ticket whose status is stored replaces that ticket's row and keeps the desk's invariant, the status foreign key included |
| Desk.HelpDesk.AssignTicket | accounts/views.py:1003-1011 | the assignments become the upsert of the old ones, and the ticket is then assigned to that technician. The id counter moves only when a row is added |
| Desk.HelpDesk.Record | accounts/views.py:1014-1020 | the history grows by exactly the one entry, with the next id |
| Desk.HelpDesk.CommentAndNotify | accounts/views.py:949-963 | exactly one comment is appended. One notice to the destination is appended when there is one. Nothing else changes |
| Desk.HelpDesk.NotifyAdmins | accounts/views.py:1350-1359 | the inbox grows by exactly the fan-out to the stored administrators |
| Desk.HelpDesk.FollowUp | accounts/views.py:1001-1040 | after the save: the named technician's single active assignment, one history entry from the old status to the new one with the comment or its default, and the update notices |
| Desk.HelpDesk.NotifyUpdate | accounts/views.py:1022-1040 | the inbox grows by exactly the update notices |
| Desk.HelpDesk.AdminUpdate | accounts/views.py:968-1057 | the ticket is saved with the form's ids, the close stamp of its new status and the update time. An unknown technician then stops the request with nothing more written. Otherwise the follow-up writes happen, and the outcome carries the SLA sentence |
| Desk.HelpDesk.AdminOnTicket | accounts/views.py:943-1057 | a non-blank comment stores the stripped text and notifies the requester, leaving tickets, history and assignments alone. Anything else is the edit below |
| Desk.HelpDesk.AdminEdit | accounts/views.py:968-1057 | a form id naming no row changes nothing; anything else is the update. A form without a status keeps the ticket's own, which is always stored, so such a form is never refused for its status |
| Desk.HelpDesk.AdminPost | accounts/views.py:926-1057 | a non-administrator is refused and a missing ticket is a 404, both changing nothing. Otherwise the POST has the effect above, so a form without a status and with stored category, priority and area ids is saved |
| Desk.HelpDesk.TechChangeStatus | accounts/views.py:1242-1276 | a technician not actively assigned gets no status change, no history entry and no notice; an unknown status changes nothing; otherwise the status change. A form without a status keeps the ticket's own, which is always stored, so the assigned technician's change then always goes through |
| Desk.HelpDesk.ApplyTechStatus | accounts/views.py:1250-1273 | the ticket gets the new status and the close stamp it calls for, and one history entry is appended with the stripped comment or its default; nothing is sent |
| Desk.HelpDesk.TechOnTicket | accounts/views.py:1216-1276 | a missing ticket is a 404 changing nothing; a non-blank comment notifies the requester; anything else is the guarded status change, which an assigned technician's form without a status always passes |
| Desk.HelpDesk.TechnicianPost | accounts/views.py:1177-1276 | a non-technician is refused with nothing changed. Otherwise the technician's profile is fetched or created first, and the POST acts with that profile as the guard's identity, so an assigned technician's form without a status always changes the status |
| Desk.HelpDesk.OpenStatus | accounts/views.py:1315-1321 | the catalog and the status returned are the get-or-create of "Abierto", and that status is found by its id |
| Desk.HelpDesk.CreateTicket | accounts/views.py:1333-1359 | one new ticket under a fresh id in the given stored status, without close stamp or SLA objective. One history entry without a previous status. One `creacion` notice per administrator |
| Desk.HelpDesk.SubmitTicket | accounts/views.py:1323-1359 | a GET does nothing; a missing title, description or area, or an area id that names no row, creates nothing; otherwise the ticket is created in the given status |
| Desk.HelpDesk.RequesterCreate | accounts/views.py:1309-1362 | a non-requester is refused with nothing changed. "Abierto" is fetched or created on every request that passes, and the form is then handled as above with that status |
| Desk.HelpDesk.SaveRatings | accounts/views.py:1412-1420 | stores the rating table, which stays keyed by ticket |
| Desk.HelpDesk.RequesterRate | accounts/views.py:1406-1423 | no score is no action. The ratings become what get-or-create leaves. The outcome says whether a rating was created. Comments and notices are untouched |
| Desk.HelpDesk.RequesterOnTicket | accounts/views.py:1379-1423 | a non-blank comment is stored. When the ticket has an active assignment, the assigned technician's user gets a notice quoting at most 100 characters. Otherwise the rating form applies |
| Desk.HelpDesk.RequesterPost | accounts/views.py:1368-1423 | a non-requester is refused. A ticket that is not the user's own is a 404. Both change nothing. The owner's POST has the effect above |
| Desk.HelpDesk.RecoverPassword | accounts/views.py:71-112 | the stripped, lower-cased e-mail decides the outcome. Empty: rejected. Unknown or an administrator's: no notice. Any other user: one `recuperacion_password` notice per administrator |
| Desk.HelpDesk.EditUser | accounts/views.py:325-353 | only administrators; an unknown user is a 404; a short non-blank password refuses the edit. Otherwise the save fails, with nothing written, on a missing name, then on an e-mail another user has, then on a role id that names no role. Else the user table becomes the old one with that row replaced by the edited user carrying the found role, and the profile signal runs |
| KnowledgeBase.PorcentajeUtilidad | knowledge_base/models.py:57-63 | None exactly when the article has no votes; otherwise the share of useful votes, between 0 and 100 |
| KnowledgeBase.LastIndex | knowledge_base/models.py:140-143 | `rfind`: the last position of the character, or -1 when it does not occur |
| KnowledgeBase.SplitExtShape | knowledge_base/models.py:140-143 | `splitext`'s two parts give back the path. The extension is empty or a dot followed by no dot or slash. It is non-empty exactly when the last path component has a dot after a non-dot character |
| KnowledgeBase.ImageAndPdfExclusive | knowledge_base/models.py:145-152 | no file is both an image and a PDF |
| KnowledgeBase.ExtensionExamples | knowledge_base/models.py:140-143 | "a.tar.gz" splits at the last dot; a dot in a directory name or a leading dot gives no extension; ".PDF" folds to ".pdf" |
| KnowledgeBase.VoteValueCases | knowledge_base/views.py:85-88 | the vote is useful exactly for "si", not useful exactly for "no", and invalid otherwise |
| KnowledgeBase.FindVote | knowledge_base/views.py:91-94 | the user's vote on the article, or proof they have none |
| KnowledgeBase.CountVotesSplit | knowledge_base/models.py:65-68 | useful plus not-useful votes are all the votes on an article |
| KnowledgeBase.UniqueVotesAtMostOne | knowledge_base/models.py:95 | under `unique_together` a user has at most one vote per article, and none exactly when the lookup finds none |
| KnowledgeBase.CountVotesSnoc | knowledge_base/views.py:104-118 | a new vote is counted once, under its own article and kind only |
| KnowledgeBase.CountVotesNone | knowledge_base/views.py:176-185 | an article no vote names has zero votes of either kind |
| KnowledgeBase.Counted | knowledge_base/views.py:110-118 | a vote moves its own counter by exactly one, leaves the other, adds one to the total and changes nothing else |
| KnowledgeBase.EditedArticle | knowledge_base/views.py:219-229 | the edit writes the stripped texts and keeps the id, author, view count and vote counters |
| KnowledgeBase.DefaultLabelStripped | knowledge_base/views.py:192-196 | a file with no description given gets the default label "Archivo n", which `strip()` leaves intact |
| KnowledgeBase.Adjuntos | knowledge_base/views.py:191-199 | the upload loop creates one row per uploaded file |
| KnowledgeBase.AdjuntosSnoc | knowledge_base/views.py:191-199 | one more upload adds one row at the end, with the next id, order and description |
| KnowledgeBase.OrdenesOfAdjuntos | knowledge_base/views.py:191-199 | a batch of uploads numbers its rows base, base + 1, ... and adds nothing to any other article |
| KnowledgeBase.NumberingStaysDense | knowledge_base/views.py:235-246 | absent deletions, numbering each edit's new uploads from the current count keeps an article's orders exactly 0, 1, 2, .... Each edit adds one row per file and leaves other articles alone |
| KnowledgeBase.DenseAppend | knowledge_base/views.py:236-244 | appending rows numbered on from the current count keeps the numbering dense |
| KnowledgeBase.FaqStore.TotalIsVoteCount | knowledge_base/models.py:57-68 | a stored article's `total_votos` is its number of vote rows, and its percentage is missing exactly when it has none |
| KnowledgeBase.FaqStore.Listar | knowledge_base/views.py:19-36 | exactly the published articles that match the stripped query (when not blank), case-insensitively in title, problem, solution or tags, and lie in the category (when given) |
| KnowledgeBase.FaqStore.ListarNarrows | knowledge_base/views.py:23-36 | no query and no category lists every published article, and every filter only narrows that |
| KnowledgeBase.FaqStore.PriorVote | knowledge_base/views.py:67-70 | the user's earlier vote exists exactly when the lookup finds one |
| KnowledgeBase.FaqStore.Detalle | knowledge_base/views.py:53-75 | a published article's view count goes up by exactly one and nothing else changes; any other article is a 404 that changes nothing |
| KnowledgeBase.FaqStore.Votar | knowledge_base/views.py:78-125 | these change nothing: a non-POST, a missing or unpublished article, a value other than "si"/"no", an earlier vote (reported back). Otherwise exactly one vote row is added and only its own counter moves, by one |
| KnowledgeBase.FaqStore.StoreVote | knowledge_base/views.py:103-118 | a first vote is stored and its article's counter moves by one, keeping every counter equal to its vote count |
| KnowledgeBase.FaqStore.SecondVoteRefused | knowledge_base/views.py:90-101 | after a successful vote the uniqueness constraint still holds, the lookup finds that vote, and the user has exactly one vote on the article |
| KnowledgeBase.FaqStore.AddAdjuntos | knowledge_base/views.py:188-199 | the attachments grow by exactly the rows of the upload loop, with fresh ids |
| KnowledgeBase.FaqStore.CreateArchivos | knowledge_base/views.py:191-199 | one row per uploaded file, in upload order, with the given description or "Archivo i+1", stripped |
| KnowledgeBase.FaqStore.AdminCrear | knowledge_base/views.py:155-206 | only administrators and technicians. A GET, a blank title, problem or solution, or a category id that names no category changes nothing. Otherwise one new article with stripped texts and zero counters, then its attachments numbered from 0 |
| KnowledgeBase.FaqStore.CreateArticle | knowledge_base/views.py:176-199 | the new article goes under a fresh id with the form's contents and zero counters, and its attachments are appended numbered from 0 |
| KnowledgeBase.FaqStore.AdminEditar | knowledge_base/views.py:209-255 | only administrators and technicians. An unknown article is a 404. A GET, or a category id that names no category, changes nothing. Any other POST saves the form and numbers new attachments from the article's current attachment count |

## Left out

- KnowledgeBase.PorcentajeUtilidad: the exact ratio is stated. The rounding to one decimal is not modelled, because it is floating-point formatting.
- Report days are counted in UTC from the epoch. The conversion to the server's local time zone made by the `__date` lookups is not modelled.
- Text.Upper: upper- and lower-casing cover ASCII letters only. Python's full Unicode case mapping is not modelled.
- Timestamps are whole seconds. Sub-second parts of `DateTimeField` values and the float hour arithmetic of the report and the flash message are not modelled. The SLA comparisons are made exactly in seconds instead.
- Form fields arrive already parsed. A malformed id or score makes `int(...)` raise, and that error is not modelled.
- Desk.HelpDesk.EditUser: the `email` and `rol` keys are taken as present. A form without them raises before anything is read, and that error is not modelled.
- The role table is only read. Creating, editing or deleting roles is not modelled; the desk is built over a given role table.
- The score's upper bound (a small positive integer column) and the 1..5 choices are not modelled, because the code does not check them.
- File uploads are names only. Storage and the deletion of stored files are not modelled.
- The GET branches (page contexts), template rendering, redirects and flash-message texts are not modelled. The admin update's SLA sentence is kept as a boolean.
- The `cumplio_sla` value of the admin detail page (accounts/views.py:1060-1065) is not modelled, because it compares a rounded float.
- The other report aggregates are not modelled, because they reduce to float averages and rounding: backlog age, throughput, MTTR, CSAT, CFD, workload and forecast.
- Excel and PDF exports, login and logout are not modelled. Password hashing is not modelled either: `check_password` is the parameter `actualOk`.
- The avatar branch of `editar_perfil` is a membership test of the choice list and changes only a display field, so it is not modelled.
- The catalog, user and ticket list views are not modelled, and neither are `tickets_eliminar`, `faq_admin_listar`, `faq_admin_eliminar`, `faq_admin_eliminar_archivo` or `notificaciones_listar`. These are queries, deletions and renderings with no rule beyond the filters modelled above.
- Cascade deletes performed by the database are not modelled.
- The API viewsets of tickets/views.py are not modelled. They write fields the models do not have.
- Serializers, admin registrations, URL routing, the user manager and `EventoCritico` are not modelled.
- Listing order, `destacados[:5]` and the `ordering` options of the models are not modelled. The order of rows is table order, and only the unread summary's newest-first order is proved.
- KnowledgeBase.FaqStore.Listar: the category filter compares the stored foreign key only. Whether the category exists is not checked, just as the query does not check it. The create and edit views' foreign-key failure is modelled as `InvalidCategory`.
- The FAQ store's invariant ties each article's counters to its vote rows. A counter edited through the admin site would break it, and that path is not modelled.
- Concurrency and transactions are not modelled. The code runs each request's writes one after another without a transaction, and the model does the same.
