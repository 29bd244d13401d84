# tenang-antri queue server — a Dafny model

tenang-antri is a ticket-queue server. A kiosk issues numbered tickets per service category ("A001"), staff at counters call, complete, skip, transfer and cancel them, the public tracks a ticket's place in line, and administrators manage categories, counters, staff and reports. A websocket hub pushes every queue change to the open displays.

This project models the core of that server in Dafny and proves what its code promises:

- `Entities`, `Sql`, `Scanner`, `Dynamic`: the records (users, categories, counters, tickets), their status vocabularies, the nullable column values and the dynamically typed values that reach filters, templates and request decoders.
- `TicketQueries`: the SQL of the ticket table as functions over its rows. This covers the listing filters and paging, the next waiting ticket by priority and then age, the status update with its timestamps, today's counts, and the next ticket number.
- `TicketRepository`: the repository code around that SQL. This covers empty inputs, missing rows, the `%s%03d` number format, the scanned row and the category/counter join.
- `Store`: one in-memory store standing for all repositories. It is a class whose methods are each proved against a function on its state. Database failures the services react to are inputs.
- `Associations`: the counter–category and user–counter tables.
- `StaffService`: the counter's dispatch state machine. It covers call next, complete, no-show, pause and resume, transfer and cancel, with their error cases and the rule that a counter serves one ticket at a time.
- `TrackingService` and `KioskService`: public tracking (position and estimated wait) and ticket issuance.
- `Hub`: the websocket hub's register, unregister and broadcast events, each over bounded client buffers. A full client is dropped.
- `StaffHandler`, `KioskHandler`, `AdminHandler`, `AdminService`: the handlers' paging, status codes, broadcasts, reports and CSV export, and the admin operations.
- `ServerHelper`: the template helpers.
- `Auth`: the authentication and role middleware.
- `CategoriesJs` and `TicketJs`: the checks in the admin category page's script, and the duration text, badges and sort control of the staff ticket page.

"Today" is a predicate on timestamps (`isToday`), and `NOW()` is the store's clock. Token verification is a parameter. Every operation follows the code as written. Where that code is evidently wrong, the intended behaviour is a separately named member, listed under "Findings".

## Model

| member | source | states |
|---|---|---|
| Entities.ParseTicketStatus | internal/dto/requests.go:32 | only the five status names are accepted, and an accepted name is the name of the status it gives |
| Entities.TicketStatusRoundTrip | internal/dto/requests.go:32 | every ticket status's name is accepted and gives that status back |
| Entities.CounterStatusName | internal/model/counter.go:10-13 | every counter status has a non-empty name; the busy status is named `serving` |
| Entities.CountStatusZero | internal/handler/admin_handler.go:754-762 | a status count is zero exactly when no ticket row has that status |
| Entities.StatusCountsPartition | internal/service/staff_service.go:407-417 | the five per-status counts add up to the number of ticket rows |
| Scanner.PtrToInt | internal/helper/scanner.go:111-118 | the `*T` value is nil exactly when the column is NULL, and otherwise holds the column's value |
| Scanner.PtrToString | internal/helper/scanner.go:120-126 | the `*T` value is nil exactly when the column is NULL, and otherwise holds the column's text |
| Scanner.PtrToBool | internal/helper/scanner.go:128-134 | the `*T` value is nil exactly when the column is NULL, and otherwise holds the column's flag |
| Scanner.ToNullString | internal/helper/scanner.go:136-139 | the value is NULL exactly for the empty string and always carries the text |
| Scanner.ToNullInt64 | internal/helper/scanner.go:141-147 | the value is NULL exactly for a nil `*T` value and otherwise carries the pointed-to integer |
| Scanner.IntRoundTrip | internal/helper/scanner.go:111-147 | storing an optional integer and reading it back gives it unchanged |
| Scanner.StringRoundTrip | internal/helper/scanner.go:120-139 | storing a string and reading it back gives nil for the empty string and the string otherwise |
| Associations.LinkedIds | internal/query/counter_category_queries.go:25-26 | an owner's list (a counter's categories; for `user_counters`, internal/query/user_counter_queries.go:25-26, a user's counters, whose first entry the `LIMIT 1` query reads) has no more entries than the table has rows |
| Associations.LinkedIdsFromRows | internal/repository/counter_category_repository.go:93-112 | every id read for an owner comes from a row linking that owner to it |
| Associations.WithoutOwner | internal/query/counter_category_queries.go:41-42 | the delete of one owner's rows (also `DELETE FROM user_counters WHERE user_id = $1`, internal/query/user_counter_queries.go:29-30) never adds a row |
| Associations.WithoutOwnerRows | internal/query/counter_category_queries.go:41-42 | the delete keeps exactly the rows of the other owners |
| Associations.Links | internal/service/admin_service.go:290-298 | assigning a list of categories writes one row per entry, in list order, each linking the counter to that entry |
| Associations.LinksAppend | internal/service/admin_service.go:290-298 | writing one more id of the list appends exactly its row |
| Associations.LinksReadBack | internal/repository/counter_category_repository.go:93-112 | the rows written for a list read back as exactly that list for the owner, as nothing for any other owner, and are all removed by the owner's delete |
| Associations.LinkedIdsConcat | internal/query/counter_category_queries.go:25-26 | reading an owner's ids from two blocks of rows reads the first block then the second |
| Associations.LinkedIdsAppend | internal/repository/user_counter_repository.go:37-54 | inserting one row adds its id to the end of its owner's list and to no other list |
| Associations.WithoutOwnerConcat | internal/query/counter_category_queries.go:41-42 | the delete works block by block |
| Associations.WithoutOwnerReads | internal/repository/counter_category_repository.go:163-171 | after the delete the owner has no linked id and every other owner keeps its list, in order; the same holds for the user delete at internal/repository/user_counter_repository.go:104-112 |
| Associations.WithoutOwnerClears | internal/repository/user_counter_repository.go:104-112 | after the delete the owner has no linked id |
| Associations.WithoutOwnerKeepsOthers | internal/repository/counter_category_repository.go:163-171 | the delete leaves every other owner's list as it was |
| Associations.WithoutAbsentOwner | internal/query/counter_category_queries.go:41-42 | deleting the rows of an owner that has none changes nothing |
| Associations.WithoutOwnerIdempotent | internal/query/user_counter_queries.go:29-30 | deleting twice removes no more than deleting once |
| Text.Atoi | internal/handler/admin_handler.go:451-462 | `strconv.Atoi`: a result only for an optional sign followed by decimal digits whose value fits in 64 bits; such a digit string, with or without a leading `-`, gives its decimal value |
| Text.GoQuo | internal/server/helper.go:40-45 | Go's `/` truncates toward zero: the magnitude of the quotient is the quotient of the magnitudes, and a non-zero quotient has the sign of dividend times divisor |
| Text.GoRem | internal/server/helper.go:46-48 | Go's `%`: the remainder is below the divisor's magnitude and has the sign of the dividend |
| Text.GoDivision | internal/server/helper.go:40-48 | the quotient times the divisor plus the remainder is the dividend, and the remainder lies between zero and the divisor on the dividend's side |
| Text.NatToDecimal | internal/repository/ticket_repository.go:309 | `%d` of a non-negative number is a non-empty digit string without a leading zero, except for 0 itself |
| Text.IntToDecimal | internal/server/helper.go:114 | `%d` of any integer is non-empty and starts with `-` exactly for a negative number |
| Text.DecimalRoundTrip | internal/repository/ticket_repository.go:309 | reading the printed digits back gives the number |
| Text.Pad3 | internal/repository/ticket_repository.go:309 | `%03d` gives at least three digits, and exactly the plain decimal text once it needs more than three |
| Text.Pad3RoundTrip | internal/repository/ticket_repository.go:309 | reading a `%03d` text back gives the printed number |
| Text.AtoiOfDigits | internal/handler/admin_handler.go:451-462 | an unsigned digit string within 64 bits reads as its value |
| Text.AtoiOfNegative | internal/handler/admin_handler.go:451-462 | a `-` and a digit string within 64 bits reads as the negated value |
| Text.AtoiRoundTrip | internal/handler/admin_handler.go:451-462 | every 64-bit integer printed with `%d` reads back as itself |
| Text.KeepDigits | internal/query/ticket_queries.go:183 | `regexp_replace(…, '[^0-9]', '', 'g')` leaves only digits, never lengthens the text, and keeps a digit string as it is |
| Text.KeepDigitsAppend | internal/query/ticket_queries.go:183 | stripping the non-digits of two pieces one after the other strips the whole |
| Text.StringLessIrreflexive | internal/query/ticket_queries.go:183 | the text order used by `MAX` is irreflexive |
| Text.StringLessAsymmetric | internal/query/ticket_queries.go:183 | the text order used by `MAX` is asymmetric |
| Text.StringLessTotal | internal/query/ticket_queries.go:183 | any two different texts are ordered one way or the other |
| Text.StringLessTransitive | internal/query/ticket_queries.go:183 | the text order used by `MAX` is transitive |
| Text.Join | internal/server/helper.go:135 | `strings.Join` of no part is empty and of one part is that part |
| Text.AsciiLower | internal/middleware/auth.go:107 | `strings.ToLower` on A–Z: the same length, each capital letter lowered and every other character kept |
| Auth.BearerLowersToScheme | internal/middleware/auth.go:103-107 | the scheme word "Bearer" that the cookie fallback adds lowers to "bearer", so a cookie token passes the format check |
| Store.WithTicketStatus | internal/repository/ticket_repository.go:179-183 | the status update changes only the ticket table, at the store's clock |
| Store.WithAssignment | internal/repository/ticket_repository.go:185-189 | the assignment changes only the ticket table, at the store's clock |
| AdminHandler.CountTicketsByStatus | internal/handler/admin_handler.go:754-762 | the count is the number of tickets with exactly that status, never more than the number of tickets |
| AdminHandler.HourOf | internal/handler/admin_handler.go:858-861 | the hour of a creation time is between 0 and 23 |
| AdminHandler.HoursPartition | internal/handler/admin_handler.go:855-873 | every ticket falls in exactly one of the 24 hours, so the hour counts add up to the number of tickets |
| AdminHandler.HourlyBreakdown | internal/handler/admin_handler.go:855-873 | the result has 24 entries, entry `h` is hour `h` with the number of tickets created in that hour |
| AdminHandler.HourlyCountsAddUp | internal/handler/admin_handler.go:855-873 | the 24 hourly counts add up to the number of tickets |
| AdminHandler.HourlyPrefix | internal/handler/admin_handler.go:855-873 | the first `k` hourly counts add up to the tickets created before hour `k` |
| AdminHandler.KeysOf | internal/handler/admin_handler.go:813-822 | a key is grouped exactly when at least one ticket with a set id prints as that key |
| AdminHandler.CountKeysAll | internal/handler/admin_handler.go:813-853 | counting over all grouped keys counts every ticket whose id is set, once |
| AdminHandler.CountKeysSplit | internal/handler/admin_handler.go:813-853 | the count over a set of keys is the count of one key plus the count of the rest |
| AdminHandler.CountByKey | internal/handler/admin_handler.go:813-822 | the grouping map holds exactly the printed ids of the tickets whose id is set, each with its number of tickets |
| AdminHandler.Breakdown | internal/handler/admin_handler.go:813-853 | one entry per distinct key, each with its (positive) number of tickets, covering every key, and the counts add up to the number of tickets with a set id |
| AdminHandler.CategoryBreakdown | internal/handler/admin_handler.go:813-832 | one entry per distinct category id, each with its number of tickets, adding up to the tickets that have a category |
| AdminHandler.CounterBreakdown | internal/handler/admin_handler.go:834-853 | one entry per distinct counter id, each with its number of tickets, adding up to the tickets that have a counter |
| AdminHandler.ListPaging | internal/handler/admin_handler.go:451-465 | the list loads exactly when `page` (default 1) and `limit` (default 50) parse, and the offset is (page - 1) × limit |
| AdminHandler.DefaultListPaging | internal/handler/admin_handler.go:451-465 | without parameters the list holds 50 rows from the first |
| AdminHandler.ListPageOffset | internal/handler/admin_handler.go:464-465 | for page ≥ 1 and limit ≥ 0 the offset is non-negative and page `p` ends where `p` full pages end |
| AdminHandler.ListHeaderStats | internal/handler/admin_handler.go:475-496 | Total is the number of tickets, Waiting and Serving count those statuses, Completed counts completed tickets created today |
| AdminHandler.CompletedTodayWithinCompleted | internal/handler/admin_handler.go:491-494 | the completed card never exceeds the number of completed tickets |
| AdminHandler.HeaderWithinTotal | internal/handler/admin_handler.go:475-496 | Waiting + Serving + Completed never exceeds Total |
| AdminHandler.WaitTimeText | internal/handler/admin_handler.go:653-659 | a NULL wait time prints as "0m 0s" |
| AdminHandler.ServiceTimeText | internal/handler/admin_handler.go:661-665 | a NULL service time prints as "0m" |
| AdminHandler.WaitTimeReadsBack | internal/handler/admin_handler.go:653-659 | a wait of `w ≥ 0` seconds prints as "Mm Ss" whose M × 60 + S is `w`, with S below 60 |
| AdminHandler.ServiceTimeReadsBack | internal/handler/admin_handler.go:661-665 | a service time of `w ≥ 0` seconds prints as its whole minutes followed by "m" |
| AdminHandler.CsvFields | internal/handler/admin_handler.go:667-676 | a ticket's line has the eight columns of the header |
| AdminHandler.CsvLine | internal/handler/admin_handler.go:667-676 | every ticket line ends with a line break |
| AdminHandler.ExportCsv | internal/handler/admin_handler.go:650-679 | the export is the header line followed by the tickets' lines, in list order |
| AdminHandler.JoinNoBreak | internal/handler/admin_handler.go:667-676 | joining break-free fields with a break-free separator gives a break-free text |
| AdminHandler.FieldsSingleLine | internal/handler/admin_handler.go:667-676 | when the ticket number, notes and time text hold no line break, no CSV field of the ticket does |
| AdminHandler.CsvLineHasOneNewline | internal/handler/admin_handler.go:667-676 | a ticket line with break-free fields holds exactly one line break |
| AdminHandler.HeaderHasOneNewline | internal/handler/admin_handler.go:651 | the header is exactly one line |
| AdminHandler.CsvOneLinePerTicket | internal/handler/admin_handler.go:650-676 | the export has exactly one line more than there are tickets, as long as no field holds a line break |
| AdminHandler.CsvLinesCount | internal/handler/admin_handler.go:653-676 | the ticket lines hold exactly one line break per ticket |
| AdminService.PriorityOf | internal/service/admin_service.go:17-34 | an integer priority is kept, a text is read as a decimal integer, and an empty or unparsable text or any other value gives 0 |
| AdminService.PriorityFormMatchesJson | internal/service/admin_service.go:17-34 | a priority posted as the text of a number gives the same priority as the number itself |
| AdminService.PriorityDefaultsToZero | internal/service/admin_service.go:23-33 | a missing, empty, non-numeric or boolean priority falls back to 0 |
| AdminService.NullIfEmpty | internal/service/admin_service.go:198-199 | the stored text is NULL exactly when it is empty, and keeps the text |
| AdminService.NewCategory | internal/service/admin_service.go:192-204 | a new category is active, takes its priority from the converter and its texts from the request, empty description and icon as NULL |
| AdminService.CreateCategory | internal/service/admin_service.go:192-204 | the store afterwards and the returned category are those of inserting the new category |
| AdminService.CreatedCategoryIsActive | internal/service/admin_service.go:192-204 | the new category is active, has the converted priority and a fresh id, every other category and table is unchanged, and the store stays consistent |
| AdminService.UpdateCategoryStatus | internal/service/admin_service.go:224-232 | the result and the new store are those of looking the category up and writing it back with the new flag |
| AdminService.StatusChangesOnlyFlag | internal/service/admin_service.go:224-232 | an unknown category is an error and nothing changes; otherwise only that category's active flag changes |
| AdminService.StatusToggleRestores | internal/service/admin_service.go:224-232 | setting a category's flag and then setting it back restores the store |
| AdminService.NewCounter | internal/service/admin_service.go:255-260 | a new counter is always offline, with no category and no staff, and empty name and location as NULL |
| AdminService.AcceptedIds | internal/service/admin_service.go:267-270 | the kept category ids are a sub-list of the request's, all of them when no insert is refused |
| AdminService.AcceptedAreAccepted | internal/service/admin_service.go:267-270 | every kept id is in the request and its insert was accepted |
| AdminService.CreateCounter | internal/service/admin_service.go:254-273 | the returned counter and the new store are those of inserting the offline counter and then one association per accepted category |
| AdminService.AddCategories | internal/service/admin_service.go:267-270 | the loop appends one association row per accepted id, in list order, and changes nothing else |
| AdminService.FreshCounterHasNoCategories | internal/service/admin_service.go:254-273 | a counter id not handed out yet has no category |
| AdminService.CreatedCounterIsOffline | internal/service/admin_service.go:254-273 | the new counter is offline under a fresh id, serves exactly the accepted categories (all of them when none is refused), and the store stays consistent |
| AdminService.NewCounterReadsBack | internal/service/admin_service.go:267-270 | the rows written for a fresh counter read back as exactly the accepted ids |
| AdminService.FirstRejected | internal/service/admin_service.go:350-355 | the index is the first refused insert, with every insert before it accepted, or the list's length when none is refused |
| AdminService.FirstRejectedAt | internal/service/admin_service.go:350-355 | the first refused insert is the unique index with all earlier inserts accepted and itself refused |
| AdminService.AssignCategoriesToCounter | internal/service/admin_service.go:343-357 | the error and the new store are those of deleting the counter's rows (a failed delete returning its error and changing nothing) and inserting the ids up to the first refused one |
| AdminService.AssignReplaces | internal/service/admin_service.go:343-357 | when every write succeeds the counter serves exactly the given ids, in order, and every other counter and table is unchanged |
| AdminService.AssignStopsAtFirstError | internal/service/admin_service.go:350-355 | the call fails exactly when an insert is refused, returns that insert's error, and the counter keeps only the ids before it |
| AdminService.AssignIdempotent | internal/service/admin_service.go:343-357 | assigning the same list twice leaves the same table as assigning it once |
| AdminService.EditedProfile | internal/service/admin_service.go:116-119 | the returned user has the request's texts (empty ones NULL) and role, and keeps its id, username, active flag and counter |
| AdminService.StoredProfile | internal/repository/user_repository.go:76-78 | the stored row holds each text as it is, an empty one as '' rather than NULL, and is otherwise the edited user |
| AdminService.UpdateUserProfile | internal/service/admin_service.go:110-139 | the result and the new store are those of the profile update followed by the association writes, whose errors are ignored |
| AdminService.ProfileSetsCounter | internal/service/admin_service.go:110-139 | an unknown user is an error and nothing changes; otherwise the user works at exactly the given counter, or none without one, and every other user keeps theirs |
| AdminService.ReassignReads | internal/service/admin_service.go:127-135 | deleting a user's counter rows and inserting the given one leaves that user with exactly it, and others unchanged |
| AdminService.ProfileFailedDeleteAddsCounter | internal/service/admin_service.go:127-131 | because the delete's error is ignored, a failed delete and a successful insert leave the user with the old counters plus the new one |
| AdminService.ProfileEmptyTextStoredAsEmpty | internal/service/admin_service.go:116-122 | an empty full name is returned as NULL but stored as '' |
| AdminService.CancelTicket | internal/service/admin_service.go:426-432 | the result and the new store are those of setting the ticket cancelled and reading it back with its details |
| AdminService.AdminCancelAnyStatus | internal/service/admin_service.go:426-432 | the admin cancel writes what the staff cancel writes and, whatever the ticket's status was, the ticket reads back cancelled with its category |
| AdminService.UpdateCategoryStatusSpec | internal/service/admin_service.go:224-233 | fails exactly for an unknown category, then with nothing changed; otherwise the returned category is the stored one with only the active flag set; tickets, counters, users and the category ids are kept |
| AdminService.CreateCounterSpec | internal/service/admin_service.go:254-274 | the new counter is offline under the next serial id with the requested number and is added to the counters; tickets, categories and users are kept; the old association rows stay in front and at most one row per requested id follows |
| AdminService.AssignSpec | internal/service/admin_service.go:343-358 | a failed delete is returned with nothing changed; only the association table changes; a returned insert error is the error of one of the listed ids, and no error means every insert was accepted |
| AdminService.UpdateUserProfileSpec | internal/service/admin_service.go:110-139 | fails exactly for an unknown user, then with nothing changed; the returned profile keeps the username and takes the requested role; only that user's row changes, storing exactly the requested name, email and phone texts; tickets, counters and categories are kept |
| AdminService.AdminCancelSpec | internal/service/admin_service.go:425-432 | counters, users and ticket count are kept; a returned ticket is the cancelled ticket with that id; an unknown id is the no-rows error with nothing changed |
| TicketQueries.CategoryPriority | internal/query/ticket_queries.go:98-99 | the priority sub-select is NULL exactly when the ticket has no stored category |
| TicketQueries.NotAheadTransitive | internal/query/ticket_queries.go:97-100 | the dispatch order (priority descending with NULL first, then creation time ascending) is a total preorder |
| TicketQueries.NextTicket | internal/query/ticket_queries.go:89-105 | no ticket exactly when no waiting ticket is in the given categories; otherwise a waiting ticket of those categories that no other such ticket precedes in the dispatch order |
| TicketQueries.CurrentForCounter | internal/query/ticket_queries.go:107-117 | no ticket exactly when nothing is serving at the counter; otherwise a ticket serving there with no other serving ticket called later |
| TicketQueries.Elapsed | internal/query/ticket_queries.go:69-70 | the duration is NULL exactly when either time is NULL, and otherwise adds to the earlier time to give the later |
| TicketQueries.StatusUpdated | internal/query/ticket_queries.go:60-80 | serving sets only the status and called_at = now; completed and no_show set status, completed_at = now, wait = called − created and service = now − called; any other status changes only the status |
| TicketQueries.AssignedTo | internal/query/ticket_queries.go:82-86 | the ticket gets the counter, status serving and called_at = now whatever it was before, and nothing else changes |
| TicketQueries.UpdateStatusRows | internal/query/ticket_queries.go:60-80 | only the rows with the id are rewritten, every other row and the row order are unchanged |
| TicketQueries.AssignRows | internal/query/ticket_queries.go:82-86 | only the rows with the id are assigned, every other row and the row order are unchanged |
| TicketQueries.CountTodayInCategory | internal/query/ticket_queries.go:175-179 | the count is at most the number of rows, and zero exactly when no ticket of the category was created today |
| TicketQueries.DigitTexts | internal/query/ticket_queries.go:181-187 | every value the query compares is a non-empty digit string |
| TicketQueries.DigitTextsCover | internal/query/ticket_queries.go:181-187 | every ticket numbered today under the prefix that has a digit contributes its digits |
| TicketQueries.LikeAnyRest | internal/query/ticket_queries.go:185-186 | the pattern `%` matches every text, so whatever follows a matched prefix is accepted |
| TicketQueries.LikePlainPrefix | internal/query/ticket_queries.go:185-186 | for a prefix with no `_`, `%` or `\`, `ticket_number LIKE prefix || '%'` holds exactly when the number starts with the prefix |
| TicketQueries.UnderscorePrefixIsWildcard | internal/query/ticket_queries.go:185-186 | an `_` in a prefix matches any character: "AB001" matches the pattern of prefix "A_" without starting with "A_" |
| TicketQueries.TextMax | internal/query/ticket_queries.go:183 | `MAX` over texts is NULL exactly for no values, and otherwise one of them that no other exceeds in text order |
| TicketQueries.GenerateTicketNumberAsWritten | internal/query/ticket_queries.go:181-187 | 1 when no ticket matches; otherwise one more than the value of the text-largest digit string, between 1 and the int4 maximum, or an out-of-range error when that value reaches it |
| TicketQueries.SequenceOf | internal/query/ticket_queries.go:181-187 | a number has a sequence under a prefix exactly when it is the prefix followed by at least one digit, and the sequence is the value of those digits |
| TicketQueries.MaxSequence | internal/query/ticket_queries.go:181-187 | the largest sequence issued today under the prefix: at least every one of them and equal to one of them, or 0 |
| TicketQueries.NextTicketSequence | internal/query/ticket_queries.go:181-187 | the next sequence exceeds every sequence issued today under the prefix, is 1 or one more than an issued one, and fails only past the int4 range |
| TicketQueries.PlaceholdersAppend | internal/query/ticket_queries.go:125-165 | appending a fragment appends its placeholder, the ordering having none |
| TicketQueries.ConditionsAppend | internal/query/ticket_queries.go:125-150 | a condition is present after appending exactly when it was before or is the appended fragment |
| TicketQueries.AppendKeepsWellFormed | internal/query/ticket_queries.go:125-165 | appending a fragment with the next placeholder and its value keeps $1..$k consecutive with k arguments, each condition's argument being its filter's value |
| TicketQueries.OrderingKeepsWellFormed | internal/query/ticket_queries.go:153 | appending the ordering keeps the query well formed and its conditions |
| TicketQueries.AddCondition | internal/query/ticket_queries.go:125-150 | a filter adds its condition exactly when present and not the zero value, keeping the query well formed and argCount one past the arguments |
| TicketQueries.ListConditions | internal/query/ticket_queries.go:119-150 | the WHERE part has a condition for exactly the present non-zero filters, placeholders $1..$k with exactly k arguments |
| TicketQueries.AddPaging | internal/query/ticket_queries.go:155-165 | LIMIT and OFFSET are appended exactly when their filter is present and non-zero, after the existing fragments, keeping the query well formed |
| TicketQueries.ListShape | internal/query/ticket_queries.go:119-166 | the final query is the conditions, then the ordering, then only paging fragments |
| TicketQueries.ListTickets | internal/query/ticket_queries.go:119-166 | placeholders $1..$k in order with exactly k arguments, a condition for exactly the present non-zero filters, always ordered newest first after the conditions, and LIMIT or OFFSET exactly when non-zero |
| TicketQueries.WaitingPreviewInList | internal/query/ticket_queries.go:204-230 | no categories is an error; otherwise `$1` holds the limit and id `i` gets placeholder `$(i+2)` and the argument after it |
| TicketQueries.CompletedTodayInList | internal/query/ticket_queries.go:232-258 | no categories is an error; otherwise id `i` gets placeholder `$(i+1)` and argument `i` |
| Store.UserLookup | internal/repository/user_repository.go:44-59 | the lookup succeeds exactly for a stored user and returns that user; a missing one is an error |
| Store.CounterLookup | internal/repository/counter_repository.go:37-64 | the lookup finds exactly the stored counters; a missing counter is no counter and no error |
| Store.CategoryLookup | internal/repository/category_repository.go:26-40 | the lookup succeeds exactly for a stored category and returns it; a missing one is an error |
| Store.WithCounterStatus | internal/repository/counter_repository.go:90-94 | only the named counter's status changes; every other counter, the tickets, categories, users and clock are untouched, and an unknown id changes nothing |
| Store.NextTicketColumns | internal/repository/ticket_repository.go:199-204 | the returned ticket keeps the id, number and status, while the columns that are not scanned are NULL |
| Store.NextTicketOf | internal/repository/ticket_repository.go:191-212 | an empty category list is an error; no waiting ticket in the categories is no ticket and no error; otherwise the ticket is one of the dispatchable rows |
| Store.CurrentAt | internal/repository/ticket_repository.go:214-232 | no ticket exactly when nothing is serving at the counter; otherwise a stored ticket serving there |
| Store.DetailsById | internal/repository/ticket_repository.go:89-125 | a found ticket has the requested id, the status of its row and a NULL own category; a missing id is an error |
| Store.DetailsByNumber | internal/repository/ticket_repository.go:127-163 | a found ticket has the requested number and the status, creation time and category of its row; a missing number is an error |
| Store.ScannedDetails | internal/repository/ticket_repository.go:89-125 | the read succeeds exactly when the ticket's category exists, and returns the ticket with its own category column NULL and the joined category |
| Store.InsertedRow | internal/query/ticket_queries.go:23-35 | the stored row has the new id, the clock as creation time, the inserted columns, and NULL counter and timestamps |
| Store.Inserted | internal/repository/ticket_repository.go:165-177 | the table gains the inserted row at its end, the serial advances, nothing else changes, and the ticket comes back with its id and creation time |
| Store.InsertedCategory | internal/repository/category_repository.go:42-55 | the category is stored under the next serial id, which is written back into it |
| Store.InsertedCounter | internal/repository/counter_repository.go:66-79 | the counter is stored under the next serial id, which is written back into it |
| Store.WithCategory | internal/repository/category_repository.go:57-64 | an update replaces the stored category with that id, and changes nothing when there is none |
| Store.WithUser | internal/repository/user_repository.go:76-83 | an update replaces the stored user with that id, and changes nothing when there is none |
| Store.InsertKeepsConsistent | internal/repository/ticket_repository.go:165-177 | inserting a ticket keeps ticket ids unique and below the serial |
| Store.FindUnique | internal/query/ticket_queries.go:37-44 | with unique ids, looking a row's id up finds that row |
| Store.Store.State | internal/repository/ticket_repository.go:40-45 | the store's value holds exactly its tables, clock and serials |
| Store.Store.constructor | internal/repository/ticket_repository.go:40-45 | a new store holds the given tables |
| Store.Store.Tick | internal/query/ticket_queries.go:65 | only the clock that `NOW()` reads advances |
| Store.Store.GetUser | internal/repository/user_repository.go:44-59 | returns the user lookup of the current state |
| Store.Store.GetCounter | internal/repository/counter_repository.go:37-64 | returns the counter lookup of the current state |
| Store.Store.GetCategory | internal/repository/category_repository.go:26-40 | returns the category lookup of the current state |
| Store.Store.UpdateCounterStatus | internal/repository/counter_repository.go:90-94 | the new state is the old one with only the counter's status written |
| Store.Store.GetNextTicket | internal/repository/ticket_repository.go:191-212 | returns the next ticket of the current state, an error for an empty list |
| Store.Store.GetCurrentForCounter | internal/repository/ticket_repository.go:214-232 | returns the counter's current serving ticket, if any |
| Store.Store.UpdateStatus | internal/repository/ticket_repository.go:179-183 | the new state is the old one with the ticket's status update applied at the clock |
| Store.Store.AssignToCounter | internal/repository/ticket_repository.go:185-189 | the new state is the old one with the ticket assigned to the counter at the clock |
| Store.Store.GetWithDetails | internal/repository/ticket_repository.go:89-125 | returns the ticket read by id with its details |
| Store.Store.GetByTicketNumber | internal/repository/ticket_repository.go:127-163 | returns the ticket read by number with its details |
| Store.Store.GetTodayCountByCategory | internal/repository/ticket_repository.go:295-300 | returns the number of today's tickets in the category |
| Store.Store.GenerateTicketNumber | internal/repository/ticket_repository.go:302-310 | returns the number and sequence the repository produces as written (the query of internal/query/ticket_queries.go:181-187 formatted with the prefix) over the current table |
| Store.Store.Create | internal/repository/ticket_repository.go:165-177 | the new state and the returned ticket are those of the insert |
| Store.Store.CreateCategory | internal/repository/category_repository.go:42-55 | the new state and the returned category are those of the insert |
| Store.Store.UpdateCategory | internal/repository/category_repository.go:57-64 | the new state is the old one with the category replaced |
| Store.Store.CreateCounter | internal/repository/counter_repository.go:66-79 | the new state and the returned counter are those of the insert |
| Store.Store.UpdateUser | internal/repository/user_repository.go:76-83 | the new state is the old one with the user replaced |
| Store.Store.DeleteCounterCategories | internal/repository/counter_category_repository.go:163-171 | only the association table changes, losing the counter's rows |
| Store.Store.CreateCounterCategory | internal/repository/counter_category_repository.go:40-57 | only the association table changes, gaining one row at its end |
| Store.Store.DeleteUserCounters | internal/repository/user_counter_repository.go:104-112 | only the user-counter table changes, losing the user's rows |
| Store.Store.CreateUserCounter | internal/repository/user_counter_repository.go:37-54 | only the user-counter table changes, gaining one row at its end |
| TicketRepository.OptionalRow | internal/repository/ticket_repository.go:205-210 | no row is no ticket and no error, a row is that ticket, and any other failure is passed on |
| TicketRepository.LastCalledNumber | internal/repository/ticket_repository.go:415-427 | no row is the empty number and no error; the call fails exactly when the query fails |
| TicketRepository.FormatTicketNumber | internal/repository/ticket_repository.go:309 | the number is the prefix followed by at least three digits, exactly three when the sequence is below 1000 |
| TicketRepository.DecimalLength | internal/repository/ticket_repository.go:309 | `%03d` pads: the decimal text is longer than three digits exactly from 1000 on |
| TicketRepository.FormatRoundTrip | internal/repository/ticket_repository.go:309 | the sequence reads back from the formatted number |
| TicketRepository.GenerateNumber | internal/repository/ticket_repository.go:302-310 | the corrected numbering (numeric maximum of the digits after the prefix): the result is the sequence (at least 1) and the prefix-formatted number, whose sequence reads back; it fails exactly when the next sequence is out of range |
| TicketRepository.GeneratedNumberIsNew | internal/query/ticket_queries.go:181-187 | under sequential use a generated number differs from every number issued today |
| TicketRepository.GenerateNumberAsWritten | internal/repository/ticket_repository.go:302-310 | the query's number formatted with the prefix; it fails exactly when the query does |
| TicketRepository.TextMaximumRepeatsNumber | internal/query/ticket_queries.go:183 | with "A999" and "A1000" issued today the query as written hands out "A1000" again, where the corrected rule gives "A1001" |
| TicketRepository.PrefixDigitsEnterNumber | internal/query/ticket_queries.go:183 | with "B2001" issued under prefix "B2" the query as written gives "B22002", where the corrected rule gives "B2002" |
| TicketRepository.PrefixDigitsAsWritten | internal/query/ticket_queries.go:183 | the prefix's digit is read as part of the number: "B2001" gives sequence 2002 |
| TicketRepository.PrefixDigitsCorrected | internal/query/ticket_queries.go:181-187 | reading only the digits after the prefix, "B2001" gives sequence 2 and the number "B2002" |
| TicketRepository.FromNullInt | internal/repository/ticket_repository.go:67-70 | a column is set exactly when it is not NULL, with its value |
| TicketRepository.TicketFromScan | internal/repository/ticket_repository.go:47-87 | a NULL category fails the read; otherwise counter, call and completion times, wait and service times are set exactly when their columns are not NULL, and the other columns are copied |
| TicketRepository.FindById | internal/query/ticket_queries.go:37-44 | a found row has the id; nothing is found exactly when no row has it |
| TicketRepository.FindByNumber | internal/repository/ticket_repository.go:127-131 | a found row has the number; nothing is found exactly when no row has it |
| TicketRepository.JoinDetails | internal/repository/ticket_repository.go:109-122 | the join succeeds exactly when the ticket's category exists; the counter is the stored one, or id 0 with empty texts when there is none |
| TicketRepository.WaitingPreviewArgs | internal/repository/ticket_repository.go:329-352 | no categories gives the empty list without a query; otherwise the arguments are the limit followed by the ids in order |
| TicketRepository.CompletedTodayArgs | internal/repository/ticket_repository.go:354-412 | no categories gives the empty list without a query; otherwise the arguments are the ids in order |
| StaffService.CounterIdOf | internal/service/staff_service.go:138 | a user without a counter (NULL counter_id) reads as counter 0, otherwise the stored counter id |
| StaffService.CategoryIdsOf | internal/service/staff_service.go:164-167 | the category list of a counter is empty exactly when its category is NULL, and otherwise holds that one category |
| StaffService.CallNext | internal/service/staff_service.go:132-196 | the store after CallNext and its result are those of the CallNext specification: user lookup, the no-counter, offline, already-serving, paused and no-category guards, then the dispatch |
| StaffService.Dispatch | internal/service/staff_service.go:173-195 | marks the counter serving, takes the next ticket, sets the counter back to idle on an empty queue, otherwise assigns the ticket and returns it with its details |
| StaffService.CompleteTicket | internal/service/staff_service.go:199-228 | the store and result follow the completion specification: the current ticket becomes completed, then the counter idle; no counter or no current ticket is a no-op |
| StaffService.MarkNoShow | internal/service/staff_service.go:231-251 | the store and result follow the no-show specification: the current ticket becomes no_show and the counter is not touched |
| StaffService.PauseCounter | internal/service/staff_service.go:254-265 | the user's counter is set to paused; a user without a counter changes nothing |
| StaffService.ResumeCounter | internal/service/staff_service.go:268-279 | the user's counter is set to idle; a user without a counter changes nothing |
| StaffService.TransferTicket | internal/service/staff_service.go:340-347 | the ticket is assigned to the target counter and returned with its details |
| StaffService.CancelTicket | internal/service/staff_service.go:428-430 | the ticket's status is set to cancelled |
| StaffService.CallNextGuards | internal/service/staff_service.go:138-171 | when any guard fails (no counter, offline, a ticket already serving, paused, no category) CallNext returns no ticket and the database is unchanged |
| StaffService.AssignKeepsIds | internal/service/staff_service.go:189 | assigning a ticket rewrites one row in place and keeps every row's id, so ids stay unique |
| StaffService.CallNextAssigns | internal/service/staff_service.go:173-195 | with every guard passing and a dispatchable ticket, the database after CallNext is the counter set serving plus the assignment of the next ticket, and the result is that ticket's details |
| StaffService.CallNextServes | internal/service/staff_service.go:173-192 | with a ready counter and a waiting ticket of its category the next ticket becomes serving at that counter and the counter becomes serving; no other counter changes |
| StaffService.CallNextReturns | internal/service/staff_service.go:188-195 | in that situation CallNext succeeds exactly when the ticket's category exists, and returns the same ticket, serving at the counter |
| StaffService.CallNextEmptyQueue | internal/service/staff_service.go:182-186 | a ready counter with an empty queue ends idle, no ticket changes, and no ticket is returned |
| StaffService.DispatchLeavesServing | internal/service/staff_service.go:152-156 | a dispatch that returns a ticket leaves a current ticket at the counter and keeps users and the set of counters |
| StaffService.SecondCallNextIsNoOp | internal/service/staff_service.go:152-156 | one ticket at a time: calling again right after a successful CallNext returns no ticket and changes nothing |
| StaffService.CompleteServes | internal/service/staff_service.go:211-227 | with a current ticket, CompleteTicket succeeds, that ticket is completed with the completion time set to now, and the counter becomes idle |
| StaffService.NothingToFinish | internal/service/staff_service.go:216-218 | without a current ticket both CompleteTicket and MarkNoShow succeed and change nothing |
| StaffService.NoShowLeavesCounter | internal/service/staff_service.go:241-250 | MarkNoShow changes only the ticket table: the current ticket becomes no_show with its completion time set, counters stay as they were |
| StaffService.SetOwnCounterTouchesNoTicket | internal/service/staff_service.go:254-279 | pause and resume set only the user's counter's status, whatever it was, and never touch a ticket |
| StaffService.TransferAssigns | internal/service/staff_service.go:340-347 | after a transfer the ticket is serving at the target counter whatever its status was, no counter changes, and the returned ticket says so |
| StaffService.CancelAnyStatus | internal/service/staff_service.go:428-430 | cancelling succeeds on a ticket of any status, sets only that row's status and leaves every other row and table as it was |
| StaffService.TodayStats | internal/service/staff_service.go:397-417 | Total is the number of today's tickets and Waiting, Serving and Completed count the tickets of each status |
| StaffService.StatsWithinTotal | internal/service/staff_service.go:407-417 | the three counted statuses together never exceed Total |
| StaffService.TodayInCategories | internal/service/staff_service.go:406 | a ticket is among today's tickets of the categories exactly when it is in the table, has one of the categories and was created today |
| StaffService.GetAllTickets | internal/service/staff_service.go:359-425 | a missing user is an error, a user without a counter or a counter without category gets an empty list with zero stats, otherwise the page and count of the filtered query are returned with the stats of today's tickets in the counter's category |
| StaffService.CallNextSpec | internal/service/staff_service.go:132-197 | an unknown user is the lookup error with nothing changed; users, categories, the number of tickets and the set of counters never change; the store changes only for a user whose counter exists; a called ticket was a dispatchable waiting ticket of that counter's category |
| StaffService.DispatchSpec | internal/service/staff_service.go:173-196 | users, categories, ticket count and counters' keys are kept; without a category the counter is left busy and the error returned; an empty queue sets the counter back to idle with the tickets unchanged; a called ticket leaves the counter busy and was dispatchable before the call |
| StaffService.CompleteSpec | internal/service/staff_service.go:199-229 | fails exactly for an unknown user, then with nothing changed; users, categories, ticket count and counters' keys are kept; the store changes only when the user's counter is serving a ticket |
| StaffService.NoShowSpec | internal/service/staff_service.go:231-252 | fails exactly for an unknown user, then with nothing changed; the counters are never touched; the store changes only when the user's counter is serving a ticket |
| StaffService.SetOwnCounterSpec | internal/service/staff_service.go:254-280 | fails exactly for an unknown user, then with nothing changed; no ticket is touched; a user with an existing counter gets that counter's status set to the requested one |
| StaffService.TransferSpec | internal/service/staff_service.go:340-348 | no counter or user changes and the ticket count is kept; a returned ticket is the transferred one; an unknown id is the no-rows error with nothing changed |
| StaffService.CancelSpec | internal/service/staff_service.go:428-431 | the cancel always succeeds, touches no counter or user and keeps the ticket count; an unknown id changes nothing |
| TrackingService.CategoryArg | internal/service/tracking_service.go:96 | the ticket's nullable category id becomes the query argument: an integer exactly when the id is set, NULL otherwise |
| TrackingService.WaitingListed | internal/service/tracking_service.go:94-99 | the list holds exactly the waiting tickets of the argument's category, and nothing when the argument is NULL |
| TrackingService.CountEarlier | internal/service/tracking_service.go:104-109 | the number of tickets created strictly before the given time, never more than the list's length |
| TrackingService.CalculateQueuePosition | internal/service/tracking_service.go:88-112 | a ticket that is not waiting is at position 0, a failed list is reported as the error, otherwise the position is one more than the number of listed tickets created before it |
| TrackingService.QueuePosition | internal/service/tracking_service.go:88-112 | the position is 0 exactly for tickets that are not waiting and at least 1 for waiting ones |
| TrackingService.Ahead | internal/service/tracking_service.go:93-109 | an independent count, on the whole table, of the waiting tickets of the category created before the given time |
| TrackingService.CountEarlierAppend | internal/service/tracking_service.go:104-109 | counting over two lists one after the other adds their counts |
| TrackingService.AheadCountsListed | internal/service/tracking_service.go:93-109 | counting the listed tickets created earlier equals the direct count on the table |
| TrackingService.AheadMonotone | internal/service/tracking_service.go:106 | a later time never counts fewer tickets ahead |
| TrackingService.AheadStrict | internal/service/tracking_service.go:106 | a listed ticket created between two times is counted before the later time and not before the earlier one |
| TrackingService.EarlierIsAhead | internal/service/tracking_service.go:88-112 | of two waiting tickets of the same category the one created earlier has a strictly smaller position, at least 1 |
| TrackingService.UpdatePrefix | internal/query/ticket_queries.go:60-80 | a status update commutes with dropping the table's last row |
| TrackingService.UpdateAbsent | internal/query/ticket_queries.go:60-80 | updating an id no row carries leaves the table unchanged |
| TrackingService.UniqueInit | internal/query/ticket_queries.go:60-80 | dropping the last row keeps ids unique, and no other row has the last row's id |
| TrackingService.AheadAfterLeaving | internal/service/tracking_service.go:93-109 | moving one earlier waiting ticket out of "waiting" lowers the count ahead by exactly one |
| TrackingService.LeavingMovesUp | internal/service/tracking_service.go:88-112 | when an earlier waiting ticket of the same category is served, completed or cancelled, a later ticket's position drops by one |
| TrackingService.EstimateWaitTime | internal/service/tracking_service.go:115-128 | the estimate is 0 for a ticket that is not waiting and five minutes per position for a waiting one |
| TrackingService.EarlierWaitsLess | internal/service/tracking_service.go:115-128 | of two waiting tickets of the same category the earlier one gets a strictly shorter estimate, at least five minutes |
| TrackingService.TrackingError | internal/service/tracking_service.go:38-44 | a missing ticket is reported as "ticket not found" and any other lookup error as "failed to retrieve ticket" |
| TrackingService.InfoOf | internal/service/tracking_service.go:47-82 | the record carries the ticket's number, status and creation time and its category's name and colour; the counter's number and name only when a counter is assigned; position and estimate only for a waiting ticket |
| TrackingService.AsWrittenPositionIsAlwaysOne | internal/service/tracking_service.go:67-82 | as written, since the looked-up ticket has no category id, every waiting ticket is reported at position 1 with a five-minute wait |
| TrackingService.WithJoinedCategory | internal/repository/ticket_repository.go:127-163 | the looked-up ticket with the category id the join found |
| TrackingService.TrackingInfoOf | internal/service/tracking_service.go:35-85 | tracking fails exactly when the lookup by number fails, with the translated message, and otherwise returns the record with the position counted in the ticket's own category |
| TrackingService.TrackedPositionCountsAhead | internal/service/tracking_service.go:67-82 | with the category taken from the join, a waiting ticket's reported position is behind every earlier waiting ticket of its category |
| TrackingService.TrackingInfoAsWritten | internal/service/tracking_service.go:35-85 | tracking as written fails exactly when the lookup by number fails, with the translated message, and otherwise returns the record of the ticket with that number |
| TrackingService.GetTicketTrackingInfo | internal/service/tracking_service.go:35-85 | the tracking lookup on the store, with the position counted by the loop from the looked-up ticket, returns the as-written tracking record |
| KioskService.NewTicket | internal/service/kiosk_service.go:55-60 | the ticket handed to Create carries the generated number, the request's category and priority, and is waiting |
| KioskService.EstimatedMinutes | internal/service/kiosk_service.go:91 | for non-negative inputs the estimate is the average wait in seconds times the position, divided by 60 and rounded down |
| KioskService.EstimateSample | internal/service/kiosk_service_test.go:46-55 | a 600-second average at position 5 gives 50 minutes |
| KioskService.EstimateMonotone | internal/service/kiosk_service.go:91 | a later position never gets a shorter estimate |
| KioskService.GenerateTicketSpec | internal/service/kiosk_service.go:40-94 | issuance as written: an unknown category is the lookup's error with nothing stored, the store changes only by inserting the new ticket under the number the repository's query gives, and a success adds exactly one row |
| KioskService.GenerateTicket | internal/service/kiosk_service.go:40-94 | the result and the new store are those of the issuance specification, with the number from the repository as written |
| KioskService.FailureStoresNothing | internal/service/kiosk_service.go:42-53 | an unknown category or a failed number generation returns an error and stores no ticket |
| KioskService.IssueAppends | internal/service/kiosk_service.go:55-91 | in a consistent store, issuing under a known category with a given number succeeds and appends exactly one waiting row with that number, the request's category and priority and the next serial id; the position is today's count for the category (0 when the count fails) and the estimate is 0 without statistics |
| KioskService.IssuedTicketWaits | internal/service/kiosk_service.go:55-91 | with the category present and the query answering, issuance succeeds and appends one waiting row numbered `<prefix><n>` with n the number the query returns, the request's category and priority; the position is today's count for the category |
| KioskService.CorrectedGenerateTicketSpec | internal/service/kiosk_service.go:40-94 | the same issuance with the corrected numbering: the same error cases and the same single insert |
| KioskService.CorrectedIssuanceIsNew | internal/service/kiosk_service.go:55-91 | with the corrected numbering the issued ticket is waiting and its number is carried by no ticket of today |
| Hub.Registered | internal/websocket/hub.go:48-51 | registering adds the client to the set, a new client with an empty send buffer, and closes nothing |
| Hub.Unregistered | internal/websocket/hub.go:54-61 | a registered client is removed and its buffer closed; an unknown client changes nothing |
| Hub.Fanout | internal/websocket/hub.go:63-73 | after a broadcast exactly the clients with room remain, each with the message appended to its buffer; every client with a full buffer is closed and removed and its buffer is left as it was |
| Hub.RegisterKeepsValid | internal/websocket/hub.go:48-51 | registering a client that was never closed keeps every registered client with an open buffer and every buffer within capacity |
| Hub.RegisterIdempotent | internal/websocket/hub.go:50 | registering the same client twice is the same as registering it once |
| Hub.UnregisterKeepsValid | internal/websocket/hub.go:54-61 | unregistering keeps the hub well formed and the client is no longer registered |
| Hub.FanoutKeepsValid | internal/websocket/hub.go:63-73 | a broadcast never overfills a buffer of capacity 256 and never adds a client |
| Hub.PublishOrder | internal/websocket/hub.go:63-73 | a client that stays registered through two broadcasts receives both, in publish order |
| Hub.LateClientMissesEarlier | internal/websocket/hub.go:48-73 | a client registered after a broadcast does not receive it, only what is broadcast after it joined |
| Hub.FullClientDropped | internal/websocket/hub.go:66-70 | a client whose buffer is full is dropped and closed and gets no message |
| Hub.EnvelopeOf | internal/websocket/hub.go:78-88 | a payload that does not marshal gives no message; otherwise the message is tagged with the type and carries the payload |
| Hub.Broadcasted | internal/websocket/hub.go:78-91 | broadcasting an unmarshallable payload changes nothing; otherwise it is the fan-out of the tagged message |
| Hub.Hub.State | internal/websocket/hub.go:14-20 | the hub's fields as one state value |
| Hub.Hub.constructor | internal/websocket/hub.go:36-43 | a new hub has no clients and is well formed |
| Hub.Hub.Register | internal/websocket/hub.go:48-51 | the hub's new state is the register branch applied to the old one, and stays well formed |
| Hub.Hub.Unregister | internal/websocket/hub.go:54-61 | the hub's new state is the unregister branch applied to the old one, and stays well formed |
| Hub.Hub.Publish | internal/websocket/hub.go:63-73 | delivering the message client by client, dropping every full one, gives exactly the fan-out state, whatever the order |
| Hub.Hub.Broadcast | internal/websocket/hub.go:78-91 | the hub's new state is the broadcast of the tagged payload, or the old state when it does not marshal |
| Hub.Hub.BroadcastTicketUpdate | internal/websocket/hub.go:93-95 | a broadcast tagged ticket_update |
| Hub.Hub.BroadcastCounterUpdate | internal/websocket/hub.go:97-99 | a broadcast tagged counter_update |
| Hub.Hub.BroadcastStatsUpdate | internal/websocket/hub.go:101-103 | a broadcast tagged stats_update |
| Hub.Hub.BroadcastDisplayUpdate | internal/websocket/hub.go:105-107 | a broadcast tagged display_update |
| StaffHandler.Positive | internal/handler/staff_handler.go:261-269 | the parameter read as an integer when it is one and at least 1, the default otherwise; never below 1 |
| StaffHandler.QueryParam | internal/handler/staff_handler.go:261 | a present parameter's text (even empty), the default text when absent |
| StaffHandler.TotalPages | internal/handler/staff_handler.go:288-291 | at least one page; one page when the total fits in one; otherwise just enough pages of the limit to hold every row |
| StaffHandler.CeilingBounds | internal/handler/staff_handler.go:288 | Go's ceiling division lies between the page bounds of the total |
| StaffHandler.PaginationOf | internal/handler/staff_handler.go:261-294 | page and limit are the parsed parameters with defaults 1 and 20, the offset skips the earlier pages, and the previous and next links show exactly when a page exists on that side |
| StaffHandler.DefaultPagination | internal/handler/staff_handler.go:261-277 | without parameters the page is 1 of 20 rows, starting at row 0, with no previous link |
| StaffHandler.HasNextIffRowsRemain | internal/handler/staff_handler.go:288-294 | the next link shows exactly when rows remain after this page |
| StaffHandler.NextPageFollows | internal/handler/staff_handler.go:275-277 | the next page keeps the limit and starts where this one ends |
| StaffHandler.CallNextStatus | internal/handler/staff_handler.go:58-71 | a service failure answers 500, no ticket 409, a called ticket 200 |
| StaffHandler.AfterCallNext | internal/handler/staff_handler.go:64-69 | the hub is unchanged unless a ticket was called, and then receives one ticket_update carrying it |
| StaffHandler.CallNext | internal/handler/staff_handler.go:55-72 | the store changes as CallNext specifies, the status follows the service's answer, and the hub gets the broadcast of a called ticket only |
| StaffHandler.CalledTicketBroadcastOnce | internal/handler/staff_handler.go:69 | every client with room receives exactly one message when a ticket is called, tagged ticket_update |
| KioskHandler.QueueMapOf | internal/handler/kiosk_handler.go:52-54 | every category that has a statistics row has an entry in the map |
| KioskHandler.QueueMapLastWins | internal/handler/kiosk_handler.go:52-54 | a category's entry is the waiting count of its last row |
| KioskHandler.QueueMapKeys | internal/handler/kiosk_handler.go:52-54 | the map holds exactly the categories that have a row |
| KioskHandler.QueueMap | internal/handler/kiosk_handler.go:44-54 | the loop builds the count map the rows define |
| KioskHandler.MergedOf | internal/handler/kiosk_handler.go:56-62 | every category in input order, each with its waiting count, 0 for a category without a row |
| KioskHandler.Merge | internal/handler/kiosk_handler.go:56-62 | the loop builds exactly that merged list |
| KioskHandler.BeforeAsymmetric | internal/handler/kiosk_handler.go:64-69 | the display comparison is asymmetric: a category that goes before another is not also after it |
| KioskHandler.NotAfterTransitive | internal/handler/kiosk_handler.go:64-69 | the "may stand before" relation of the comparison is transitive, so the order is a total preorder |
| KioskHandler.SwapDown | internal/handler/kiosk_handler.go:64-69 | exchanging two neighbours moves only those two entries and keeps the same entries |
| KioskHandler.StartInserting | internal/handler/kiosk_handler.go:64-69 | an ordered prefix is the start state of inserting the next entry |
| KioskHandler.SwapKeepsInserting | internal/handler/kiosk_handler.go:64-69 | a swap of the moving entry with a neighbour that should come after it keeps the insertion's state one place lower |
| KioskHandler.InsertionDone | internal/handler/kiosk_handler.go:64-69 | once the entry stops moving the prefix one longer is in display order |
| KioskHandler.SortCategories | internal/handler/kiosk_handler.go:64-69 | the array ends with higher priority first and equal priorities by name, and holds the same entries |
| KioskHandler.ShowKiosk | internal/handler/kiosk_handler.go:31-75 | the page lists every category once with its waiting count, in display order; failed lookups give an empty list or zero counts; the active counters come from the statistics, 0 when they fail |
| KioskHandler.EveryCategoryListed | internal/handler/kiosk_handler.go:56-69 | every input category appears on the page with its own count |
| KioskHandler.NoQueueInfoNoCounts | internal/handler/kiosk_handler.go:45-50 | when the queue statistics fail every listed count is 0 |
| KioskHandler.GenerateStatus | internal/handler/kiosk_handler.go:78-125 | a form that does not bind is 400, a failed issuance 500, a success 200 for an HTMX request and 201 for JSON |
| KioskHandler.AfterIssue | internal/handler/kiosk_handler.go:104-109 | a failed issuance broadcasts nothing; the hub stays well formed |
| KioskHandler.StatsBeforeTicket | internal/handler/kiosk_handler.go:105-109 | a client with room for both receives the statistics first and then the issued ticket |
| KioskHandler.NoStatsOnlyTicket | internal/handler/kiosk_handler.go:106-109 | without statistics the client receives only the issued ticket |
| KioskHandler.GenerateTicket | internal/handler/kiosk_handler.go:78-125 | an unbound form answers 400 and changes nothing; otherwise the store changes as the as-written issuance specifies, the status follows its result, and the hub receives the statistics and ticket broadcasts of a success |
| ServerHelper.FormatDurationAsWritten | internal/server/helper.go:19-30 | as written: under a minute "< 1 min", then the template placeholder texts, which carry no number |
| ServerHelper.AsWrittenLosesMinutes | internal/server/helper.go:24-25 | as written, two minutes and fifty minutes print the same text, and it has no digit |
| ServerHelper.FormatDuration | internal/server/helper.go:19-30 | the intended helper: under a minute "< 1 min", and no other text |
| ServerHelper.FormatDurationMinutes | internal/server/helper.go:23-25 | under an hour the text is a decimal number followed by " min", and that number is the whole minutes |
| ServerHelper.FormatDurationHours | internal/server/helper.go:27-29 | from an hour on the text is the hours and the remaining minutes, which recompose the whole minutes, with fewer than 60 minutes |
| ServerHelper.FormatDurationDistinguishes | internal/server/helper.go:23-25 | under an hour, different whole-minute counts print differently |
| ServerHelper.Div | internal/server/helper.go:40-45 | a zero divisor gives 0; otherwise the quotient, rounded down for non-negative operands |
| ServerHelper.Mod | internal/server/helper.go:46-48 | the remainder, undefined (a panic) exactly for a zero divisor |
| ServerHelper.DivModRecompose | internal/server/helper.go:40-48 | for a non-zero divisor quotient times divisor plus remainder is the dividend, and the remainder is smaller than the divisor and has the dividend's sign |
| ServerHelper.DivTruncates | internal/server/helper.go:44-47 | division truncates toward zero: -7 div 2 is -3 with remainder -1 |
| ServerHelper.NumActive | internal/server/helper.go:61-69 | the number of active categories, at most the list's length |
| ServerHelper.NumActiveExtremes | internal/server/helper.go:61-78 | the count is 0 exactly when no category is active and the length exactly when all are |
| ServerHelper.CountActive | internal/server/helper.go:61-69 | the loop counts the active categories |
| ServerHelper.CountInactive | internal/server/helper.go:70-78 | the loop counts the others: active and inactive counts add up to the length |
| ServerHelper.PrioritySumConcat | internal/server/helper.go:49-60 | the priority sum of two lists one after the other is the sum of their sums |
| ServerHelper.Sum | internal/server/helper.go:49-60 | the sum of the priorities for a category list and the field "Priority"; 0 for any other field or any other kind of items |
| ServerHelper.DictOf | internal/server/helper.go:79-92 | an odd number of arguments or a key that is not a string is an error (the odd count with its own message); otherwise the map of the pairs |
| ServerHelper.Dict | internal/server/helper.go:79-92 | the loop returns exactly that answer |
| ServerHelper.DictKeys | internal/server/helper.go:83-90 | the map's keys are exactly the string keys passed |
| ServerHelper.DictLookup | internal/server/helper.go:89 | with distinct keys each key maps to the value that follows it |
| ServerHelper.FilterText | internal/server/helper.go:117-125 | a filter's text when it is a string, "" when it is absent or of another type |
| ServerHelper.Optional | internal/server/helper.go:117-133 | a parameter for a non-empty value and none for an empty one |
| ServerHelper.PaginationParams | internal/server/helper.go:109-114 | the parameters start with the page, clamped to at least 1 |
| ServerHelper.AppendOptional | internal/server/helper.go:117-133 | appending an optional parameter of a higher rank keeps the order, and the parameter is there exactly when its value is non-empty |
| ServerHelper.ParamsInOrder | internal/server/helper.go:113-133 | the parameters come in the fixed order page, date_from, date_to, status, sort_by, sort_order, none of them empty |
| ServerHelper.ParamsPresent | internal/server/helper.go:117-133 | each filter and sort setting appears in the link exactly when it is non-empty |
| ServerHelper.Rendered | internal/server/helper.go:114-132 | each parameter is rendered as key=value |
| ServerHelper.URLStartsWithPage | internal/server/helper.go:108-135 | the link is the staff ticket path followed by the clamped page first |
| ServerHelper.URLWithoutFilters | internal/server/helper.go:108-135 | with no filter and no sort setting the link names only the page, and a page below 1 links to page 1 |
| ServerHelper.BuildPaginationURL | internal/server/helper.go:108-136 | the link is the staff ticket list path `/staff/tickets?` followed by a non-empty query, since it always carries the page |
| Auth.FlexibleInt | internal/middleware/auth.go:28-48 | a quoted claim decodes exactly as its text reads as an integer, a number decodes when it fits an int, null gives 0, and a boolean is an error |
| Auth.QuotedClaimMatchesNumber | internal/middleware/auth.go:28-48 | a user id sent as a number or as the same number quoted decodes to the same value |
| Auth.QuotedNonIntegerFails | internal/middleware/auth.go:34-37 | a quoted text that is not an integer, even an empty one, is an error |
| Auth.FirstSpace | internal/middleware/auth.go:106 | the index found holds the first space of the text, and none is found exactly when there is no space |
| Auth.SplitOnce | internal/middleware/auth.go:106 | one part, the whole text, exactly when it has no space; otherwise the text before the first space, which has no space, and everything after it, which recompose the text |
| Auth.SplitOnceAfterScheme | internal/middleware/auth.go:106 | only the first space separates the scheme: a token may itself contain spaces |
| Auth.HeaderAcceptedIff | internal/middleware/auth.go:106-111 | a header is accepted exactly when the text before its first space is "bearer" in any letter case, and the token is everything after that space |
| Auth.HeaderWithoutSpaceRejected | internal/middleware/auth.go:106-110 | a header without a space is always rejected as badly formatted |
| Auth.CookieFallback | internal/middleware/auth.go:94-104 | without a header the auth_token cookie is used as the bearer token, whatever it holds; with neither the request is refused |
| Auth.Authenticate | internal/middleware/auth.go:92-124 | every refusal of the middleware answers 401 |
| Auth.RoleCheck | internal/middleware/auth.go:126-155 | no role is 401 and a role that is not text 500; a text role passes exactly when it is in the allowed list and is refused with 403 otherwise |
| Auth.CurrentUserId | internal/middleware/auth.go:157-161 | the user id the middleware stored when it is an int, 0 when it is absent or of another type |
| Auth.AuthenticatedContext | internal/middleware/auth.go:112-121 | a request that passes authentication carries its token's user id, which the handlers read back, and that token's role, which the role check looks at |
| Auth.BearerToken | internal/middleware/auth.go:94-111 | "header or cookie required" exactly when there is neither a header nor a cookie; every other failure is the format error; a token taken from a header is the text after the first space, and the word before it lowers to "bearer" |
| CategoriesJs.LeadingSpaces | web/static/js/categories.js:64 | the length of the whitespace the text starts with: all of it is whitespace and the next character is not |
| CategoriesJs.TrailingSpaces | web/static/js/categories.js:64 | the length of the whitespace the text ends with: all of it is whitespace and the character before it is not |
| CategoriesJs.LeadingSpacesIs | web/static/js/categories.js:64 | the leading whitespace is exactly the whitespace before the first other character |
| CategoriesJs.TrailingSpacesIs | web/static/js/categories.js:64 | the trailing whitespace is exactly the whitespace after the last other character |
| CategoriesJs.Trim | web/static/js/categories.js:64 | the trimmed text is no longer than the input and neither starts nor ends with whitespace |
| CategoriesJs.TrimOfPadded | web/static/js/categories.js:64 | trimming a text padded with whitespace on both sides gives back the text |
| CategoriesJs.TrimIdempotent | web/static/js/categories.js:64 | trimming twice is trimming once |
| CategoriesJs.TrimParts | web/static/js/categories.js:64 | a text is its leading whitespace, its trim and its trailing whitespace; a text with nothing else is all whitespace |
| CategoriesJs.AllSpaceTrimsEmpty | web/static/js/categories.js:64 | a text of whitespace only, however padded, trims to the empty text |
| CategoriesJs.TrimIgnoresPadding | web/static/js/categories.js:64 | more whitespace around a text never changes its trim |
| CategoriesJs.TrimAmidSpace | web/static/js/categories.js:64 | a text between layers of whitespace trims to that text |
| CategoriesJs.JsLength | web/static/js/categories.js:67 | a text's JavaScript length counts each character once, or twice outside the Basic Multilingual Plane |
| CategoriesJs.BmpLength | web/static/js/categories.js:67 | in the Basic Multilingual Plane the JavaScript length is the number of characters |
| CategoriesJs.NameAcceptedIff | web/static/js/categories.js:63-91 | a name is accepted exactly when its trimmed text is 2 to 100 characters long, and the message names the bound that failed; 100 characters pass although the message says "less than 100" |
| CategoriesJs.NameIgnoresPadding | web/static/js/categories.js:63-91 | whitespace typed around a name never changes the verdict |
| CategoriesJs.AstralCharacterCountsTwice | web/static/js/categories.js:67 | a single character outside the Basic Multilingual Plane is a long enough name |
| CategoriesJs.PrefixAcceptedIff | web/static/js/categories.js:93-130 | a prefix is accepted exactly when its trimmed text is 1 to 10 ASCII letters and digits; the first failing check (empty, too long, charset) picks the message |
| CategoriesJs.PrefixIgnoresPadding | web/static/js/categories.js:93-130 | whitespace typed around a prefix never changes the verdict |
| CategoriesJs.DigitPrefixAccepted | web/static/js/categories.js:115 | a prefix with a digit, such as "B2", passes the form |
| CategoriesJs.RadixDigit | web/static/js/categories.js:133 | a digit's value stays below the radix |
| CategoriesJs.DigitRun | web/static/js/categories.js:133 | the length of the longest run of digits the text starts with: those are digits and the next character is not |
| CategoriesJs.Unsigned | web/static/js/categories.js:133 | the number read after the sign is never negative |
| CategoriesJs.RunValueDecimal | web/static/js/categories.js:133 | a run of decimal digits reads as its decimal value |
| CategoriesJs.DigitRunOf | web/static/js/categories.js:133 | the digit run of digits followed by a non-digit is those digits |
| CategoriesJs.ParseIntUnsigned | web/static/js/categories.js:133 | a text starting with a digit is read as its unsigned number |
| CategoriesJs.ParseIntReadsDecimal | web/static/js/categories.js:133 | a non-negative number printed in decimal reads back whatever non-digit text follows it, unless 0 is followed by an x |
| CategoriesJs.ParseIntReadsHex | web/static/js/categories.js:133 | after "0x" the longest run of hexadecimal digits is read in base 16 |
| CategoriesJs.UnsignedHex | web/static/js/categories.js:133 | the unsigned part of "0x" and hexadecimal digits is their base-16 value |
| CategoriesJs.ParseIntHexWithoutDigits | web/static/js/categories.js:133 | "0x" without a hexadecimal digit is not a number |
| CategoriesJs.PriorityAcceptsPercent | web/static/js/categories.js:132-151 | a priority written in decimal is accepted exactly when it is at most 100 |
| CategoriesJs.PriorityIgnoresUnits | web/static/js/categories.js:133-136 | text after the number does not change the priority's verdict ("50kg" is 50) |
| CategoriesJs.PriorityNeedsDigits | web/static/js/categories.js:136 | a priority without a number is rejected |
| CategoriesJs.SubmittedPriority | web/static/js/categories.js:253 | the edit form sends the parsed priority, or 0 when it is not a number |
| CategoriesJs.UpdateSentIff | web/static/js/categories.js:244-276 | the edit is sent exactly when name, prefix and icon are filled, the prefix is letters and digits, the priority is 0 to 100 and the colour is #RRGGBB; what is sent is the form with its priority as a number |
| CategoriesJs.UpdateAlertOrder | web/static/js/categories.js:258-271 | the first failing check picks the alert: a missing field before the prefix, the prefix before the priority |
| CategoriesJs.UnparsedPrioritySentAsZero | web/static/js/categories.js:253 | a priority that is not a number, which the field validator rejects, is sent by the edit form as 0 |
| CategoriesJs.UpdateSkipsPrefixLength | web/static/js/categories.js:263-266 | the edit form does not check the prefix length: a prefix the field validator rejects as too long passes it |
| CategoriesJs.AlnumTrimmed | web/static/js/categories.js:94-115 | letters and digits have nothing to trim and count one each |
| CategoriesJs.FilterCategories | web/static/js/categories.js:405-424 | each card is shown exactly when its lower-cased name contains the lower-cased search text and the status filter is empty or equals its status |
| CategoriesJs.AsciiLowerIdempotent | web/static/js/categories.js:408 | lower-casing twice is lower-casing once |
| CategoriesJs.SearchIgnoresCase | web/static/js/categories.js:406-415 | the search is case-blind: the term in capitals shows the same cards |
| CategoriesJs.FilterExtremes | web/static/js/categories.js:412-422 | with no search text and no filter every card is shown; a status filter shows only cards of that status |
| CategoriesJs.NarrowerSearchShowsFewer | web/static/js/categories.js:415 | typing more of the search text never shows a card that was hidden |
| CategoriesJs.ValidateName | web/static/js/categories.js:63-91 | the name is accepted exactly when its trimmed length is 2 to 100; the too-short message exactly below 2 and the too-long message exactly above 100 |
| CategoriesJs.ValidatePrefix | web/static/js/categories.js:93-130 | the prefix is accepted exactly when it is 1 to 10 letters and digits once trimmed; each message exactly for its case: empty, longer than 10, or another character |
| CategoriesJs.ParseInt | web/static/js/categories.js:133 | `parseInt` gives a number only when, after leading white space, the text starts with a sign or a digit; a negative number only after a `-`; white space alone is NaN |
| CategoriesJs.ValidatePriority | web/static/js/categories.js:132-151 | the priority is accepted exactly when it parses to an integer from 0 to 100; otherwise the range message is shown |
| CategoriesJs.UpdateCheck | web/static/js/categories.js:244-276 | an update is sent only with a non-empty name, prefix and icon, a prefix of letters and digits only, a priority from 0 to 100 (an unparsed one sent as 0) and a `#RRGGBB` colour, and carries exactly those form fields; a rejection is one of the four alert messages |
| TicketJs.FormatDuration | web/templates/pages/staff/ticket.js:169-182 | a missing or zero duration reads "0 detik"; otherwise the hour, minute and (under an hour) second words joined by spaces, "0 detik" when there is none; never empty |
| TicketJs.Decomposition | web/templates/pages/staff/ticket.js:172-174 | for a non-negative duration hours, minutes and seconds recompose it, with minutes and seconds below 60 |
| TicketJs.WordsPresentIffPositive | web/templates/pages/staff/ticket.js:176-181 | a duration has at least one word exactly when it is positive, so a negative one shows "0 detik" |
| TicketJs.HoursHideSeconds | web/templates/pages/staff/ticket.js:179 | from one hour on the seconds are not shown: durations that differ only in their seconds print the same |
| TicketJs.UnitWordInjective | web/templates/pages/staff/ticket.js:177-179 | a number followed by a unit word gives the number back |
| TicketJs.UnitsDiffer | web/templates/pages/staff/ticket.js:178-179 | a minutes word is never a seconds word |
| TicketJs.ShortWordsInjective | web/templates/pages/staff/ticket.js:178-179 | the minutes and seconds words give back the minutes and the seconds |
| TicketJs.BelowHourReadsBack | web/templates/pages/staff/ticket.js:169-182 | under an hour the text determines the duration: two different durations never print the same |
| TicketJs.StatusLabels | web/templates/pages/staff/ticket.js:96-117 | each of the five statuses has its fixed Indonesian label |
| TicketJs.StatusBadgesDistinct | web/templates/pages/staff/ticket.js:93-117 | different statuses get different labels, each with a colour, and any other text is shown unchanged without colour |
| TicketJs.SortInputs.constructor | web/templates/pages/staff/ticket.js:185-186 | the sort inputs start with the page's column and order |
| TicketJs.SortInputs.SortBy | web/templates/pages/staff/ticket.js:184-198 | a click on the current column flips the order (anything but "asc" becomes "asc"), a click on another column selects it in descending order |
| TicketJs.SortClicks | web/templates/pages/staff/ticket.js:184-198 | a click always sorts by the clicked column, a new column starts descending, two clicks on the same column restore an asc or desc order, and a click on the current column always changes the order |
| TicketJs.DurationWords | web/templates/pages/staff/ticket.js:169-182 | at most three words; from one hour on the hours come first and at most one more word follows (the seconds are dropped); under an hour with minutes, the minutes come first |
| TicketJs.StatusBadge | web/templates/pages/staff/ticket.js:91-117 | a colour is given exactly for the five status names, and any other text is shown as it is |
| TicketJs.NextSort | web/templates/pages/staff/ticket.js:184-196 | the clicked column becomes the sort column; the order is "asc" or "desc", "desc" for a new column, and flipped for the current one |

## Left out

- HTTP routing, Gin contexts, HTML template loading and rendering, `main` and configuration: plumbing around the modelled logic.
- Executing SQL through pgx, and the `Scan` calls themselves: each query is stated as a function over the rows, and each scan as a conversion of one row.
- The repository CRUD methods that only pass their arguments to one statement (for example the category and counter updates): the store's update methods stand for them.
- Concurrency in the hub: goroutines, channels, the read and write pumps, the mutex and the websocket upgrade. The model handles one event at a time, in the order the run loop receives them.
- Atomicity of ticket numbering: two kiosks reading the same maximum at once are not modelled, because each model operation runs alone.
- JWT signing and verification, and bcrypt password hashing: cryptography, taken as the `parse` parameter or left out.
- Floating-point code, namely the admin average-time figures (internal/handler/admin_handler.go:764-811) and the `float64` branch of the priority conversion: Dafny has no IEEE doubles here.
- Date and time formatting, time zones and `CURRENT_DATE`: "today" is the `isToday` parameter and timestamps are integer seconds.
- The DOM effects of the category page validators (messages, borders, custom validity), the form submission after a sort click, and the other static scripts: only the decisions those scripts make are modelled.
- CategoriesJs: JavaScript's `toLowerCase` is modelled for A–Z only, and numbers are unbounded integers rather than doubles (no values beyond 2^53).
- AdminService: a form field that is absent is treated as the empty text, which is what Gin's `PostForm` returns.
- KioskService.GenerateTicketSpec: the insert of the new ticket never fails in the model, and the only failures it takes as input are the category lookup, the numbering and the count.
- AdminService: the error of the status update in the admin cancel is not an input, so that cancel always succeeds once the ticket is found.
- Database errors other than the ones the model takes as inputs (connection loss, constraint violations).
- JSON encoding of broadcast payloads: it is the `encode` parameter of the hub helpers.
- The duplicate `UnmarshalJSON` definitions of the DTO and model packages, and the router's `FuncMap` registration: each concept is modelled once.
- Dashboard, queue-status, current-ticket and ticket-detail reads, `ResetYesterdayTickets` and `CallAgain`: these pass one repository read or one status write through, which the store functions already state.
- Text.GoQuo and Text.GoRem model Go's truncating `/` and `%`, and the helpers that use Dafny's own operators are restricted to non-negative operands.
- CounterRepository.GetByID returns no counter and no error for a missing id. The model returns the resulting nil-counter message as an ordinary error (`StaffService.NilCounterMessage`).
- Numbering follows the code as written. The query at internal/query/ticket_queries.go:181-187 strips every non-digit from the whole ticket number, prefix included, and takes the textual maximum of what remains over today's numbers that match `prefix%` under `LIKE`. The repository, the kiosk issuance and its handler use that numbering. The corrected numbering, the numeric maximum of the digits after the prefix, lives in separately named members (`TicketRepository.GenerateNumber`, `KioskService.CorrectedGenerateTicketSpec`). The code around the query belongs to a different revision and is not part of this model: kiosk_service.go calls `GenerateNumber` with another signature and assigns a plain int to the nullable category id, and the repository tests expect a `daily_sequence` column. In the model the kiosk fills only the fields that revision's query reads.

## Notes on the code

- `updateCategory` in the category script does not repeat the prefix-length check, and it sends a priority that is not a number as 0 (`CategoriesJs.UpdateChecks`).
- The name message says "less than 100" while a name of exactly 100 characters is accepted, and the edit check does not trim the name.
- The admin ticket list's page number is not clamped to the page count.
- `UpdateUserProfile` stores an empty text as '' rather than NULL.
- When the delete of the old counter–category rows fails, they are kept and no new rows are written. New associations are plain INSERTs, so assigning the same pair twice stores it twice.
- `GetWithDetails` and `GetByTicketNumber` scan the category id into a local variable, so the returned ticket's `CategoryID` stays NULL (the third finding follows from this).
- Category ids are serial and never 0.
- Public tracking (`TrackingService.GetTicketTrackingInfo`) follows the code as written, so its position comes from the NULL category id; `TrackingService.TrackingInfoOf` is the corrected record.
- `_` and `%` in a category prefix are `LIKE` wildcards in the numbering query, so prefix "A_" also counts today's "AB…" numbers (`TicketQueries.UnderscorePrefixIsWildcard`). The category script allows only letters and digits, but the server's request only requires a prefix.

## Findings

| source | as written | input that shows it | evidently intended | confidence | as-written member | corrected member |
|---|---|---|---|---|---|---|
| internal/query/ticket_queries.go:181-187 | the next number is `MAX` of the digit texts left after stripping every non-digit of today's matching numbers, cast to an integer only after the maximum, so the maximum is textual | "A999" and "A1000" issued today under prefix "A": the textual maximum is "999", so the query hands out 1000 and "A1000" is issued a second time | the numeric maximum plus one, "A1001" | not executed | TicketRepository.TextMaximumRepeatsNumber, TicketRepository.GenerateNumberAsWritten, TicketQueries.GenerateTicketNumberAsWritten | TicketRepository.GenerateNumber, TicketRepository.GeneratedNumberIsNew, TicketQueries.NextTicketSequence, KioskService.CorrectedGenerateTicketSpec, KioskService.CorrectedIssuanceIsNew |
| internal/query/ticket_queries.go:183 | the sequence is read by stripping every non-digit from the whole number, so a digit inside the prefix becomes part of the count | prefix "B2" (accepted by the category form, see CategoriesJs.DigitPrefixAccepted) with "B2001" issued today: the query reads 2001 and issues "B22002" | the digits after the prefix, giving "B2002" | not executed | TicketRepository.PrefixDigitsEnterNumber, TicketRepository.PrefixDigitsAsWritten | TicketRepository.GenerateNumber, TicketRepository.PrefixDigitsCorrected |
| internal/service/tracking_service.go:94-109 | the position is counted among the waiting tickets whose category equals the looked-up ticket's `CategoryID`, which the lookup at internal/repository/ticket_repository.go:127-163 leaves NULL, so no ticket matches | any waiting ticket with others of its category waiting ahead of it: it is told it is first in line (position 1) | the position among the tickets of the category the join found | not executed | TrackingService.AsWrittenPositionIsAlwaysOne, TrackingService.TrackingInfoAsWritten, TrackingService.GetTicketTrackingInfo | TrackingService.TrackingInfoOf, TrackingService.TrackedPositionCountsAhead, TrackingService.EarlierIsAhead |
| internal/server/helper.go:19-30 | from one minute on `formatDuration` returns the template placeholder text `{{ . }} min` or `{{ . }}h {{ . }}m`, with no number in it | 120 seconds and 3000 seconds both give "{{ . }} min" | the whole minutes ("2 min", "50 min"), or hours and minutes from an hour on, as the commented-out lines in that function show | not executed | ServerHelper.FormatDurationAsWritten, ServerHelper.AsWrittenLosesMinutes | ServerHelper.FormatDuration, ServerHelper.FormatDurationMinutes, ServerHelper.FormatDurationHours, ServerHelper.FormatDurationDistinguishes |
