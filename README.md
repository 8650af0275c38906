# EventTracker core, modelled in Dafny

EventTracker is a Next.js and Prisma application for running events. Admins
create events and users. Participants join teams and log entries against
event items, and entries earn points. Every change an admin or participant
makes is written to an audit log. This project models the application's
business rules over its tables and proves properties of them. It also
models the pure helpers the admin and dashboard pages use.

The database is an in-memory value `Schema.Tables` with one field per table:
users, events, teams, memberships, participations, items, entries and the
audit log. Row ids are natural numbers handed out by a counter. The class
`Store.Db` holds those tables as fields, and its methods create, update and
delete rows in place. Each route handler is modelled twice:

- a function over `Tables` that gives the response and the new tables, with
  lemmas stating what the route promises;
- a `Handle…` method that makes the same decisions step by step against
  `Store.Db`, whose `ensures` ties the final state to that function.

Modules, one per source file or shared concern:

- **Generators** (`lib/generators.ts`): the password loop and the bounded
  retry loop for five-digit public IDs. The random bytes and `Math.random()`
  values come from an oracle, read through a cursor, and are held in the
  class `Generators.Entropy`.
- **Proxy** (`proxy.ts`): the access decision for a path, a session cookie
  and a role.
- **Slug** (`app/admin/page.tsx`): `slugify`, its idempotence, and the
  event form's auto-following slug.
- **DateFormat** (`lib/utils.ts`): `formatDateTime` on components already
  extracted from a date, with a parser that inverts it.
- **AuditLogView** (`app/admin/logs/page.tsx`): action colours and the
  log-detail sentences.
- **UsersPage**, **TeamsPage** and **Dashboard**: the admin and dashboard
  pages' filters, partitions and selection state. The selection state is a
  class whose handlers replace its fields.
- **Lists**, **Sorting**, **Text**, **Json**, **JsNumber**: shared sequence,
  ordering, ASCII string, JSON-value and JavaScript `parseInt` helpers.
- **Schema** and **Store**: the tables as a value, and the class that
  updates them in place.
- **EntriesRoute**, **EventsRoute**, **ProfileRoute**, **SettingsRoute**,
  **TeamsListRoute**, **TeamsRoute**, **UsersRoute**, **UsersBulkRoute**:
  the API routes.
- **MigrateTeams** and **MigrateLegacy**: the two backfill migrations.

Outside collaborators become inputs:

- A session is `NoCookie`, `Invalid`, or `Verified(claims)`, which stands for
  what `verifyToken` returned.
- A password hash is `Hashed(plain)`.
- A database refusal during the legacy backfill is a function from
  (user, event) pairs to an optional error message.
- The random streams are an oracle.

Notes on how the code behaves, which the model follows:

- `PATCH /api/user/settings` checks username uniqueness by exact match.
  `PATCH /api/user/profile` compares lower-cased names and skips the caller.
- In the profile route, a request that only sets the welcome flag writes the
  flag and then answers "No changes provided".
- In the entries route, a quantity of 0 is falsy and is refused as a missing
  field.
- In `POST /api/users`, the random avatar is drawn inside the transaction,
  before the user row is written. A write that then fails still uses up that
  draw.
- The legacy backfill counts every upsert that goes through, including ones
  that found a row already there. So the number it reports is not the number
  of rows created.
- The teams backfill counts participants, not teams.

## Model

| member | source | states |
|---|---|---|
| Generators.CharsetSize | lib/generators.ts:7 | the password alphabet has 70 characters |
| Generators.PasswordChar | lib/generators.ts:12 | the character a byte selects is always in the alphabet |
| Generators.PasswordOf | lib/generators.ts:11-13 | the password has one character per byte, character i chosen by byte i alone |
| Generators.GeneratePassword | lib/generators.ts:6-16 | the loop builds a password of exactly `length` characters, all from the alphabet, equal to `PasswordOf` of the bytes |
| Generators.Candidate | lib/generators.ts:22-28 | a candidate lies within 10000..99999 for every `Math.random()` value |
| Generators.CandidateTextShape | lib/generators.ts:28-29 | a candidate's text is five decimal digits that read back as the candidate |
| Generators.AvatarIndex | app/api/users/route.ts:62 | `Math.floor(Math.random() * 20)` is below 20 |
| Generators.PickPublicId | lib/generators.ts:21-45 | the retry loop as a function; it uses at most 100 draws |
| Generators.GenerateUniquePublicId | lib/generators.ts:21-45 | the `while` loop returns what `PickPublicId` describes: the ID, or `None` where the source throws, and the draws used |
| Generators.PickFound | lib/generators.ts:37-38 | a free candidate is returned at once |
| Generators.PickAtLimit | lib/generators.ts:27-44 | after 100 tries no ID is returned |
| Generators.PickIsFree | lib/generators.ts:32-39 | a returned ID is not used by the chosen model and is the first free candidate drawn |
| Generators.PickedIdShape | lib/generators.ts:19-29 | a returned ID is five digits with a value in 10000..99999 |
| Generators.PickExhausted | lib/generators.ts:25-44 | no ID is returned only after exactly 100 draws, all of them taken |
| Generators.PickSkipsTaken | lib/generators.ts:37-41 | a taken candidate costs one try and one draw |
| Generators.ExhaustedMessage | lib/generators.ts:44 | the thrown error text begins "Failed to generate unique publicId for " |
| Generators.Bytes | lib/generators.ts:9 | `crypto.randomBytes(n)` yields the next n bytes of the stream |
| Generators.Entropy.RandomAvatar | app/api/users/route.ts:62 | one `Math.random()` draw gives the avatar index; the byte stream is untouched |
| Generators.Entropy.NewPassword | lib/generators.ts:6-16 | the password is that of the next `length` bytes, which are consumed |
| Generators.Entropy.NewPublicId | lib/generators.ts:21-45 | the ID and the draws used are those of `PickPublicId` |
| Generators.Entropy.constructor | lib/generators.ts:9 | a fresh source of randomness has used none of either stream |
| Proxy.Bypasses | proxy.ts:11-19 | public paths (`/login`, `/api/login`, `/api/register` prefixes and exactly "/") and static paths; stated by `Proxy.Decide` and `Proxy.PublicPrefixPasses` |
| Proxy.Authenticated | proxy.ts:21-33 | a present, non-empty token that verifies; stated by `Proxy.Decide` |
| Proxy.Decide | proxy.ts:8-50 | a request passes untouched exactly when its path is public or static; otherwise a missing, empty or rejected token redirects to "/", exactly "/admin" needs SUPER_ADMIN, and a passing request carries x-user-id and x-user-role from the token |
| Proxy.AdminSubpathsNotRoleChecked | proxy.ts:36-38 | a non-SUPER_ADMIN is redirected from "/admin" but passes on "/admin/users" |
| Proxy.PublicPrefixPasses | proxy.ts:6-14 | anything under "/login" or "/api/register" passes whatever the cookie |
| Proxy.NotStartsWith | proxy.ts:12 | a path that differs from a prefix at some position inside both does not start with it |
| Slug.RemoveUnkept | app/admin/page.tsx:53 | the result is the input filtered to word characters, white space and hyphens, in order; a string of such characters is unchanged |
| Slug.KeptUnchanged | app/admin/page.tsx:53 | text made only of word characters, white space and hyphens passes the removal step unchanged |
| Slug.RemoveUnkeptDrops | app/admin/page.tsx:53 | a character outside `[\w\s-]` is removed wherever it stands and the text on both sides is kept |
| Slug.DropSeparators | app/admin/page.tsx:54 | the rest of the string after a leading run of white space and underscores |
| Slug.CollapseSeparators | app/admin/page.tsx:54 | no white space or underscore remains; a string without them is unchanged; on lower-case kept characters the result is made of slug characters |
| Slug.DropRun | app/admin/page.tsx:54 | a leading run of white space and underscores is removed up to the first other character |
| Slug.CollapseRun | app/admin/page.tsx:54 | each maximal run of white space and underscores becomes exactly one "-"; the text before it is kept and the text after it is collapsed in turn |
| Slug.CollapseHead | app/admin/page.tsx:54 | a first character that is not a separator is kept as it is |
| Slug.CollapseLead | app/admin/page.tsx:54 | a leading separator run becomes one "-" in front of the collapsed rest |
| Slug.SplitHead | app/admin/page.tsx:54 | a concatenation splits into its first character and the rest |
| Slug.StripLeadingHyphens | app/admin/page.tsx:55 | a suffix of the input that does not start with a hyphen, the input itself when it did not |
| Slug.StripTrailingHyphens | app/admin/page.tsx:55 | a prefix of the input that does not end with a hyphen, the input itself when it did not |
| Slug.StripHyphens | app/admin/page.tsx:55 | the result neither starts nor ends with a hyphen and keeps slug characters |
| Slug.Slugify | app/admin/page.tsx:49-56 | on ASCII input the output holds only a-z, 0-9 and "-", and never starts or ends with "-" |
| Slug.SlugFixpoint | app/admin/page.tsx:49-56 | every step leaves a slug unchanged, so `slugify` of a slug is that slug |
| Slug.SlugifyIdempotent | app/admin/page.tsx:49-56 | `slugify(slugify(s)) == slugify(s)` |
| Slug.SlugifyCleanText | app/admin/page.tsx:49-56 | on lower-case, trimmed text of kept characters, `slugify` is the separator collapse followed by the hyphen strip |
| Slug.SlugifyJoinsWords | app/admin/page.tsx:49-56 | two slugs joined by any run of white space or underscores give the two slugs joined by one "-" |
| Slug.CollapseJoin | app/admin/page.tsx:54 | two slugs around a separator run collapse to the two slugs joined by one "-" |
| Slug.SlugHasNoSeparator | app/admin/page.tsx:54 | a slug holds no white space or underscore |
| Slug.EndsOfJoin | app/admin/page.tsx:55 | a joined string starts with the first part's first character and ends with the last part's last character |
| Slug.JoinedIsClean | app/admin/page.tsx:51-53 | two slugs around a separator run are lower-case kept characters with no white space at either end |
| Slug.EventForm.constructor | app/admin/page.tsx:58-69 | both fields start empty |
| Slug.EventForm.HandleNameChange | app/admin/page.tsx:58-63 | the slug becomes `slugify` of the new name iff it was empty or equal to `slugify` of the previous name, and is kept otherwise |
| Slug.EventForm.FinalSlug | app/admin/page.tsx:69 | the typed slug when non-empty, else `slugify` of the name |
| Slug.EventForm.CreateSucceeded | app/admin/page.tsx:77-78 | a successful creation clears name and slug |
| Slug.TrimmedNoUpper | app/admin/page.tsx:51-52 | after lower-casing and trimming no upper-case letter is left |
| Slug.SlugCharKept | app/admin/page.tsx:53-54 | a character a slug may hold survives the removal step and is not a separator |
| DateFormat.To12Hour | lib/utils.ts:52-55 | the shown hour is in 1..12, the suffix is AM iff the 24-hour value is below 12, and `From12Hour` gives the 24-hour value back |
| DateFormat.MidnightAndNoon | lib/utils.ts:53-55 | hour 0 shows as 12 AM and hour 12 as 12 PM |
| DateFormat.Minutes2 | lib/utils.ts:56 | minutes are exactly two digits, zero-padded, that read back as the minutes |
| DateFormat.MonthIndexFrom | lib/utils.ts:48-49 | finds the first position of a month name in the 12-entry table, or reports that there is none |
| DateFormat.MonthsDistinct | lib/utils.ts:48 | the month abbreviations are distinct and contain no space |
| DateFormat.FormatDateTime | lib/utils.ts:46-58 | the text "day month year h:mm AM/PM" splits at spaces back into exactly its five fields, so the layout is unambiguous; `FormatThenParse` proves it reads back as its inputs |
| DateFormat.Fields | lib/utils.ts:48-57 | the five fields are the day, a month abbreviation, the year, the time `h:mm`, which splits at the colon into the hour from `To12Hour` and the two-digit minutes from `Minutes2`, and the AM or PM suffix |
| DateFormat.FieldsSplit | lib/utils.ts:57 | joining the five fields with single spaces and splitting at spaces gives back exactly the fields |
| DateFormat.FormatThenParse | lib/utils.ts:46-58 | the text "day month year h:mm AM/PM" reads back as the day, zero-based month, year, 24-hour hour and minutes it was made from |
| DateFormat.ParseNat | lib/utils.ts:50-51 | reading a field as a number succeeds exactly on a non-empty run of decimal digits |
| DateFormat.ParseNatOfString | lib/utils.ts:50-51 | the rendered day and year read back as the numbers they came from |
| DateFormat.TimeHasNoSpace | lib/utils.ts:57 | the `h:mm` field holds no space, so it stays one field |
| DateFormat.TimeSplit | lib/utils.ts:56-57 | splitting `h:mm` at the colon gives back the hour text and the two-digit minutes |
| DateFormat.DigitsHaveNoSeparator | lib/utils.ts:57 | a character that is not a digit never occurs in a run of digits, so the separators of the formatted text are unambiguous |
| AuditLogView.GetActionColor | app/admin/logs/page.tsx:11-16 | success iff the action contains CREATE; destructive iff it contains DELETE but not CREATE; primary iff it contains UPDATE or RESET and neither of the others; muted otherwise |
| AuditLogView.CreateBeatsDelete | app/admin/logs/page.tsx:11-13 | "X_CREATE_DELETE" is coloured as a creation |
| AuditLogView.FirstTruthy | app/admin/logs/page.tsx:21 | the target is null iff none of the keys is truthy, else the value of the first truthy key |
| AuditLogView.UserFieldLabel | app/admin/logs/page.tsx:33-46 | hasSeenWelcome becomes "welcome status", avatarIndex "profile avatar", other names are kept |
| AuditLogView.ResetSentenceEnd | app/admin/logs/page.tsx:52-53 | the reset sentence ends in " manually." exactly for a manual reset |
| AuditLogView.RenderLogDetails | app/admin/logs/page.tsx:18-75 | details that do not parse, or parse to null, are shown verbatim |
| AuditLogView.RenderUpdates | app/admin/logs/page.tsx:28-68 | the four update actions dispatch to their own sentences |
| AuditLogView.UserUpdateEventFirst | app/admin/logs/page.tsx:29-31 | for USER_UPDATE a truthy eventName wins over updatedFields: the sentence is an assignment |
| AuditLogView.ProfileUpdateSentence | app/admin/logs/page.tsx:41-50 | a list of field names renders as "Updated " and the renamed labels joined by ", ", and an empty list as "Updated profile settings." |
| AuditLogView.TeamUpdateSentence | app/admin/logs/page.tsx:66-68 | iconIndex becomes "team icon"; labels that join to nothing render as "settings", which for non-empty names happens iff the list is empty |
| AuditLogView.TeamLabelsNonEmpty | app/admin/logs/page.tsx:67 | the joined labels of a non-empty list of non-empty names are not empty |
| AuditLogView.PasswordResetManual | app/admin/logs/page.tsx:51-53 | USER_PASSWORD_RESET says "manually" iff isManualReset is truthy |
| UsersPage.FilteredUsers | app/admin/users/page.tsx:41-45 | the search filter over the loaded users; stated by `UsersPage.FilterSpec` and `UsersPage.EmptySearchKeepsAll` |
| UsersPage.FilterSpec | app/admin/users/page.tsx:41-45 | a user is listed iff its lower-cased username or public ID contains the lower-cased search, and the list keeps the loaded order |
| UsersPage.EmptySearchKeepsAll | app/admin/users/page.tsx:41-45 | an empty search keeps every user, in order |
| UsersPage.Ids | app/admin/users/page.tsx:49 | the ids of the listed users, in list order |
| UsersPage.ToggleSpec | app/admin/users/page.tsx:55-61 | toggling a selected id removes every occurrence of it and keeps the other ids in order; toggling an unselected id appends it |
| UsersPage.ToggleTwice | app/admin/users/page.tsx:55-61 | toggling the same id twice gives back the same set of selected ids, and the same list when the id was unselected |
| UsersPage.ParseBulkText | app/admin/users/page.tsx:92 | the names are the non-blank trimmed lines, in line order, one name per non-blank line (a repeated line gives a repeated name); none is empty or has white space at either end |
| UsersPage.Lines | app/admin/users/page.tsx:92 | one trimmed line per line of the text, none with white space at either end |
| UsersPage.ParseBulkTextRoundTrip | app/admin/users/page.tsx:92-93 | names without surrounding white space, one per line, parse back as themselves in input order |
| UsersPage.UserSelection.constructor | app/admin/users/page.tsx:36 | the selection starts empty |
| UsersPage.UserSelection.SelectAll | app/admin/users/page.tsx:47-53 | checking selects the listed ids in list order and checks the header box when the list is non-empty; unchecking clears |
| UsersPage.UserSelection.SelectUser | app/admin/users/page.tsx:55-61 | the selection becomes `Toggled` of the old one |
| UsersPage.UserSelection.BulkActionSucceeded | app/admin/users/page.tsx:77-78 | after a successful bulk action nothing is selected |
| UsersPage.FilterDropsLast | app/admin/users/page.tsx:55-61 | filtering out an id that was just appended to a list without it gives the list back |
| UsersPage.TrimAll | app/admin/users/page.tsx:92 | names without white space at either end are left unchanged by trimming |
| TeamsPage.MapSet | app/admin/teams/page.tsx:19 | setting an existing key of the event `Map` keeps its position and replaces its value; a new key is appended |
| TeamsPage.FirstIndex | app/admin/teams/page.tsx:19 | the position of the first team of an event: it belongs to that event and no earlier team does |
| TeamsPage.LastIndex | app/admin/teams/page.tsx:19 | the position of the last team of an event: it belongs to that event and no later team does |
| TeamsPage.MapSetDistinct | app/admin/teams/page.tsx:19 | setting a key keeps the event ids of the `Map` distinct |
| TeamsPage.EventMapDistinct | app/admin/teams/page.tsx:19 | the event drop-down offers no event id twice |
| TeamsPage.EventMapKeys | app/admin/teams/page.tsx:19 | the drop-down offers an event iff some loaded team belongs to it |
| TeamsPage.EventMapStep | app/admin/teams/page.tsx:19 | one more team either updates the entry of its event in place or appends a new entry for it |
| TeamsPage.EventMapNames | app/admin/teams/page.tsx:19 | each offered event carries the event name of the last team of that event (later `Map` writes win) |
| TeamsPage.FirstIndexInPrefix | app/admin/teams/page.tsx:19 | an event already present before the last team keeps its first position |
| TeamsPage.FirstIndexOfNew | app/admin/teams/page.tsx:19 | an event first seen at the last team has its first position there |
| TeamsPage.EventMapOrder | app/admin/teams/page.tsx:19 | events are offered in the order of their first team (a `Map` keeps insertion order) |
| TeamsPage.UniqueEvents | app/admin/teams/page.tsx:19 | the event drop-down built through a `Map`; stated by `EventMapDistinct`, `EventMapKeys`, `EventMapNames` and `EventMapOrder` |
| TeamsPage.FilteredTeams | app/admin/teams/page.tsx:22-28 | the search, empty-team and event filters; stated by `TeamsPage.FilterSpec` |
| TeamsPage.ZeroMemberCount | app/admin/teams/page.tsx:31 | the number of teams without members; stated by `TeamsPage.ZeroMemberCountUnfiltered` |
| TeamsPage.FilterSpec | app/admin/teams/page.tsx:22-28 | a team is shown iff its lower-cased name or event name contains the lower-cased search, it has no members when that filter is on, and it belongs to the chosen event when one is chosen; the shown teams keep the loaded order |
| TeamsPage.ZeroMemberCountUnfiltered | app/admin/teams/page.tsx:31 | the empty-team count ignores the search and event filters: it is the length of the list with only the empty-team filter on |
| TeamsPage.SameFilter | app/admin/teams/page.tsx:22-31 | filters with pointwise equal tests give the same list |
| TeamsPage.TeamIds | app/admin/teams/page.tsx:37 | the set of ids of the given rows, exactly |
| TeamsPage.TeamSelection.constructor | app/admin/teams/page.tsx:15 | the selection starts empty |
| TeamsPage.TeamSelection.SelectAll | app/admin/teams/page.tsx:33-39 | clears the selection when its size equals the number of shown teams, otherwise selects exactly the shown teams |
| TeamsPage.TeamSelection.SelectTeam | app/admin/teams/page.tsx:41-49 | flips membership of that one team id and leaves every other id as it was |
| TeamsPage.TeamSelection.BulkDeleteRequest | app/admin/teams/page.tsx:51-62 | sends exactly the selected ids, and only when the selection is non-empty and the confirmation is accepted |
| TeamsPage.TeamSelection.BulkDeleteSucceeded | app/admin/teams/page.tsx:67-68 | a successful bulk delete clears the selection |
| Dashboard.FilteredEvents | app/dashboard/DashboardContent.tsx:47-52 | the name search over the user's events; stated by `Dashboard.FilterSpec` |
| Dashboard.OngoingEvents | app/dashboard/DashboardContent.tsx:54 | the filtered events with status ONGOING; stated by `Dashboard.StatusPartition` |
| Dashboard.UpcomingEvents | app/dashboard/DashboardContent.tsx:55 | the filtered events with status UPCOMING; stated by `Dashboard.StatusPartition` |
| Dashboard.FinishedEvents | app/dashboard/DashboardContent.tsx:56 | the filtered events with status FINISHED; stated by `Dashboard.StatusPartition` |
| Dashboard.DisplayEvents | app/dashboard/DashboardContent.tsx:58 | the ongoing tab lists exactly the filtered events with status ONGOING, the upcoming tab exactly those with status UPCOMING |
| Dashboard.FilterSpec | app/dashboard/DashboardContent.tsx:47-52 | an event is listed iff its lower-cased name contains the lower-cased query; the list keeps the loaded order, is empty without loaded events, and an empty query keeps every event |
| Dashboard.StatusPartition | app/dashboard/DashboardContent.tsx:54-56 | the ongoing, upcoming and finished lists keep the filtered order, are pairwise disjoint, and together hold exactly the filtered events whose status is one of the three |
| Dashboard.DashboardView.constructor | app/dashboard/DashboardContent.tsx:25-27 | the dashboard opens on the ongoing tab with the modal closed and no event selected |
| Dashboard.DashboardView.HandleEventClick | app/dashboard/DashboardContent.tsx:30-37 | an upcoming event opens the modal with that event selected; any other event navigates to `/events/<slug>`; the tab is unchanged |
| Dashboard.DashboardView.SetActiveTab | app/dashboard/DashboardContent.tsx:27 | switches the tab and changes nothing else |
| Lists.Filter | app/admin/teams/page.tsx:22-28 | `filter` keeps exactly the elements that pass, never grows the list, has as many elements as pass, and keeps the whole list when every element passes |
| Lists.Map | app/admin/teams/page.tsx:37 | `map` gives one result per element, the i-th from the i-th element |
| Lists.FilterSublist | app/admin/teams/page.tsx:22-28 | a filtered list keeps the order of the list it came from |
| Lists.FilterAppend | app/api/admin/migrate/legacy-data/route.ts:32-60 | filtering a concatenation filters each part |
| Lists.FilterDropsRejected | app/admin/page.tsx:53 | an element that fails the test is dropped and the elements around it are filtered as before |
| Lists.MapAppend | app/api/admin/migrate/legacy-data/route.ts:32-60 | mapping a concatenation maps each part |
| Sorting.Descending | app/api/events/route.ts:24-26 | newest first: the listed ids are exactly the stored ids, in strictly decreasing order |
| Sorting.Ascending | app/api/admin/migrate/legacy-data/route.ts:22-26 | a `findMany` without `orderBy`: exactly the stored ids, in strictly increasing order |
| Sorting.BelowStep | app/api/events/route.ts:24-26 | raising the id bound by one adds that id when it is stored |
| Sorting.AscendingCount | app/api/admin/migrate/legacy-data/route.ts:22-26 | the increasing list holds each stored id exactly once |
| Sorting.DescendingCount | app/api/events/route.ts:24-26 | the newest-first list holds each stored id exactly once |
| Sorting.StrLeqTotal | app/api/teams/list/route.ts:53-56 | the text order `orderBy: 'asc'` uses is total |
| Sorting.StrLeqTrans | app/api/teams/list/route.ts:53-56 | the text order is transitive |
| Sorting.StrLeqAntisym | app/api/teams/list/route.ts:53-56 | the text order is antisymmetric |
| Sorting.Insert | app/api/teams/list/route.ts:53-56 | inserting adds exactly that element (as a multiset) |
| Sorting.InsertSorted | app/api/teams/list/route.ts:53-56 | inserting into a sorted list keeps it sorted |
| Sorting.SortBy | app/api/teams/list/route.ts:53-56 | the sorted list is a permutation of the input |
| Sorting.SortBySorted | app/api/teams/list/route.ts:53-56 | the sorted list is ordered by any total order |
| Text.LowerChar | app/admin/users/page.tsx:42-44 | `toLowerCase` on one ASCII character: upper-case letters map to their lower-case letter, everything else is unchanged |
| Text.Lower | app/admin/users/page.tsx:42-44 | `toLowerCase` lowers each character in place and keeps the length |
| Text.LowerNoUpper | app/admin/users/page.tsx:42-44 | a string without upper-case letters is its own lower case |
| Text.StartsWithConcat | proxy.ts:12 | a string starts with whatever was put in front of it |
| Text.ContainsEmpty | app/admin/users/page.tsx:41-45 | every string includes the empty string, so an empty search hides nothing |
| Text.ContainsAt | app/admin/logs/page.tsx:12-14 | `includes` is exactly "occurs at some position" |
| Text.TrimStart | app/admin/users/page.tsx:92 | removes exactly the leading white space |
| Text.TrimEnd | app/admin/users/page.tsx:92 | removes exactly the trailing white space |
| Text.TrimSpec | app/admin/users/page.tsx:92 | `trim` returns a slice with no white space at either end and only white space around it |
| Text.TrimIdentity | app/admin/users/page.tsx:92 | a string with no white space at either end is its own trim |
| Text.IndexOf | lib/utils.ts:57 | the first position of a character: it holds the character and no earlier position does |
| Text.Split | app/admin/users/page.tsx:92 | `split` yields at least one part and no part holds the separator |
| Text.JoinSplit | app/admin/users/page.tsx:92 | joining the parts of a split with the same separator gives the input back |
| Text.SplitAtFirst | app/admin/users/page.tsx:92 | splitting stops at the first separator |
| Text.SplitJoin | app/admin/users/page.tsx:92 | splitting a join of separator-free parts gives the parts back |
| Text.DigitChar | lib/generators.ts:29 | the digit character of a value below ten, which reads back as that value |
| Text.NatToString | lib/generators.ts:29 | `toString` of a non-negative integer is a non-empty run of decimal digits |
| Text.NatToStringRoundTrip | lib/generators.ts:29 | reading back the decimal rendering of a number gives the number |
| Text.Pow10 | lib/generators.ts:22-23 | powers of ten are positive |
| Text.NatToStringLength | lib/generators.ts:19-29 | a number in [10^k, 10^(k+1)) renders with exactly k + 1 digits |
| Text.PadStart2 | lib/utils.ts:56 | `padStart(2, '0')` leaves strings of length two or more alone and left-pads shorter ones with zeros to length two |
| Json.Lookup | app/admin/logs/page.tsx:21 | a property read finds the last field with that key, as `JSON.parse` keeps the last value of a repeated key, or reports that no field has it |
| Json.Or | app/admin/logs/page.tsx:21 | the logical-or operator gives its left operand when that is truthy and its right operand otherwise |
| Json.StrArray | app/api/teams/list/route.ts:126 | a JSON array holding exactly the given strings, in order |
| Schema.FirstMembership | app/api/teams/route.ts:26-28 | `findFirst` by user gives the first membership row of that user, or none exactly when the user has no membership |
| Schema.TeamMembers | app/api/teams/route.ts:50-52 | the memberships of a team are exactly the rows pointing at it |
| Schema.CountMembers | app/api/teams/route.ts:50-53 | a team's member count is zero exactly when no membership row points at it |
| Schema.DeleteTeams | app/api/teams/list/route.ts:116-119 | `deleteMany` on teams removes exactly those teams and cascades to their memberships and entries; the remaining teams keep their values and users, events, participations, items and logs are unchanged |
| Schema.DeleteUsers | app/api/users/bulk/route.ts:43-45 | `deleteMany` on users removes exactly those users and cascades to their memberships, participations and entries; the remaining users and participation rows keep their values and teams, events, items and logs are unchanged |
| Schema.SetWelcome | app/api/users/bulk/route.ts:64-67 | `updateMany` of the welcome flag touches only the users table and keeps its keys |
| Store.Db.constructor | app/api/users/route.ts:2 | the database object holds the given tables |
| Store.Db.Restore | app/api/users/route.ts:61 | a failed transaction leaves the tables as they were when it started |
| Store.Db.CreateUser | app/api/users/route.ts:63 | `user.create` stores the row under a fresh id and changes nothing else |
| Store.Db.CreateEvent | app/api/events/route.ts:84 | `event.create` stores the row under a fresh id and changes nothing else |
| Store.Db.CreateTeam | app/api/teams/route.ts:74 | `team.create` stores the row under a fresh id and changes nothing else |
| Store.Db.CreateMembership | app/api/teams/route.ts:83 | `teamMember.create` appends the row under a fresh id and changes nothing else |
| Store.Db.CreateItem | app/api/entries/route.ts:67 | `item.create` appends the row under a fresh id and changes nothing else |
| Store.Db.CreateEntry | app/api/entries/route.ts:77 | `entry.create` appends the row under a fresh id and changes nothing else |
| Store.Db.Log | lib/logger.ts:18-31 | `logAction` appends one audit row; a failed write never reaches the caller |
| Store.Db.UpdateMembershipTeam | app/api/teams/route.ts:35-38 | `teamMember.update` points one membership row at another team and changes nothing else |
| Store.Db.UpdateTeam | app/api/teams/route.ts:128-131 | `team.update` replaces one team row and changes nothing else |
| Store.Db.UpdateUser | app/api/user/settings/route.ts:88 | `user.update` replaces one user row and changes nothing else |
| Store.Db.SetParticipation | app/api/admin/migrate/legacy-data/route.ts:41-54 | writes one participation row and changes nothing else |
| Store.Db.UpdateWelcome | app/api/users/bulk/route.ts:64-67 | `updateMany` of the welcome flag, as `Schema.SetWelcome` describes |
| Store.Db.DeleteTeams | app/api/teams/list/route.ts:117-119 | `team.deleteMany`, as `Schema.DeleteTeams` describes |
| Store.Db.DeleteUsers | app/api/users/bulk/route.ts:43-45 | `user.deleteMany`, as `Schema.DeleteUsers` describes |
| Sorting.BelowZero | app/api/events/route.ts:24-26 | below bound 0 the descending list and the set below the bound are both empty |
| Sorting.DescendingStep | app/api/events/route.ts:24-26 | raising the bound by one lengthens the descending list by one exactly when the set holds the old bound |
| JsNumber.DigitIn | app/api/entries/route.ts:30 | a character is a base-10 digit of `parseInt` exactly when it is a decimal digit, with its decimal value |
| JsNumber.DigitRun | app/api/entries/route.ts:30 | `parseInt` reads the longest leading run of digits of the base: every character of the run is a digit, and the one after it is not |
| JsNumber.DecimalValue | app/api/entries/route.ts:30 | read in base 10, decimal digits have their decimal value |
| JsNumber.DecimalRun | app/api/entries/route.ts:30 | the base-10 run stops exactly at the end of a leading block of decimal digits |
| JsNumber.UnsignedDecimalPrefix | app/api/entries/route.ts:30 | unsigned decimal digits followed by a non-digit read as their value (unless they form a `0x` prefix) |
| JsNumber.ParseDecimalPrefix | app/api/entries/route.ts:30 | `parseInt("12abc")` is 12: digits followed by a non-digit read as the digits' value |
| JsNumber.UnsignedInt | app/api/entries/route.ts:30 | a string that starts with a digit is read without sign or white-space handling |
| JsNumber.ParseInt | app/api/entries/route.ts:30 | `parseInt(quantity)`: optional white space and sign, a `0x` prefix read as hexadecimal, then the leading digits, else NaN; stated by `ParseDecimalPrefix`, `ParseIntToString` and `ParseIntNoDigits` |
| JsNumber.ParseIntToString | app/api/entries/route.ts:30 | `parseInt(String(n))` gives back any integer `n` |
| JsNumber.ParseIntNumber | app/api/entries/route.ts:30 | a number in the request body is read as itself |
| JsNumber.UnsignedNoDigit | app/api/entries/route.ts:30-31 | without a leading decimal digit nothing is read (NaN) |
| JsNumber.ParseIntNoDigits | app/api/entries/route.ts:30-31 | a string without a single decimal digit is NaN, which the handler refuses |
| EntriesRoute.FindItem | app/api/entries/route.ts:59-64 | `item.findFirst` by exact name and event: the first such item, or none exactly when no item matches |
| EntriesRoute.UserTeam | app/api/entries/route.ts:45-48 | the team of the user's first membership, present exactly when that membership leads to an existing team |
| EntriesRoute.Validate | app/api/entries/route.ts:9-56 | an accepted request has a valid session, a truthy item name, quantity and event, a positive parsed count, a caller whose event is the requested one, a team from the first membership, and an event that is not finished unless the caller is an admin |
| EntriesRoute.Submit | app/api/entries/route.ts:7-112 | a refused request writes nothing; success is always the "Entry added successfully" response |
| EntriesRoute.Add | app/api/entries/route.ts:7-112 | POST /api/entries; stated by `AddNeedsFields`, `AddNeedsPositiveCount`, `AddNeedsEventMember`, `AddTeamAndFinishedGates`, `AddReusesItem`, `AddCreatesItem` and `AddRecordsEntry` |
| EntriesRoute.AddNeedsFields | app/api/entries/route.ts:26-28 | a missing or falsy item name, quantity or event (a quantity of 0 included) is refused with the required-fields message and no write |
| EntriesRoute.AddNeedsPositiveCount | app/api/entries/route.ts:30-33 | a quantity that is NaN or not positive is refused with the positive-number message and no write |
| EntriesRoute.AddNeedsEventMember | app/api/entries/route.ts:36-43 | a caller who is not a user of the requested event is refused and nothing is written |
| EntriesRoute.AddTeamAndFinishedGates | app/api/entries/route.ts:45-56 | a caller without a team is refused; with a team, a finished event refuses the request exactly when the caller is not an admin |
| EntriesRoute.AddReusesItem | app/api/entries/route.ts:59-85 | an existing item with that name is reused: no item is created and the entry's points are the count times the item's points |
| EntriesRoute.AddCreatesItem | app/api/entries/route.ts:66-85 | without such an item, one worth 1 point is created in the event (and the request fails when the event does not exist); the entry earns the count |
| EntriesRoute.AddRecordsEntry | app/api/entries/route.ts:76-106 | a successful request appends exactly one entry (parsed count, caller, first-membership team, item of that name in that event, points = count × item points) and one ENTRY_CREATE log row, and leaves users, teams, memberships, events and participations unchanged |
| EntriesRoute.HandleAdd | app/api/entries/route.ts:7-112 | the handler's writes and response are exactly those `Add` describes |
| EventsRoute.ListedIds | app/api/events/route.ts:24-25 | every listed id is an existing event |
| EventsRoute.OrElse | app/api/events/route.ts:88 | a status that is not truthy falls back to UPCOMING; a truthy one is kept |
| EventsRoute.DateOrNull | app/api/events/route.ts:89-90 | a truthy date is kept, anything else becomes null |
| EventsRoute.List | app/api/events/route.ts:7-49 | GET /api/events; stated by `ListNeedsSuperAdmin`, `ListSpec` and `ListComplete` |
| EventsRoute.ListNeedsSuperAdmin | app/api/events/route.ts:14-21 | without a SUPER_ADMIN session the list request is refused with no rows |
| EventsRoute.ListSpec | app/api/events/route.ts:24-42 | each row is an existing event with its team and user counts and `participants` equal to the user count, newest first |
| EventsRoute.ListComplete | app/api/events/route.ts:24-34 | a SUPER_ADMIN sees every event |
| EventsRoute.Create | app/api/events/route.ts:51-114 | POST /api/events; stated by `CreateNeedsSuperAdmin`, `CreateNeedsNameAndSlug`, `CreateSlugTaken`, `CreateDefaults` and `CreateKeepsSlugsUnique` |
| EventsRoute.CreateNeedsSuperAdmin | app/api/events/route.ts:61-64 | a non-SUPER_ADMIN is refused with the create-forbidden message and nothing is written |
| EventsRoute.CreateNeedsNameAndSlug | app/api/events/route.ts:70-72 | a missing or empty name or slug is refused and nothing is written |
| EventsRoute.CreateSlugTaken | app/api/events/route.ts:75-81 | a slug some event already has is refused and nothing is written |
| EventsRoute.CreateDefaults | app/api/events/route.ts:84-106 | a successful create adds exactly one event under a fresh id with the given name and slug, the given status or UPCOMING, the given dates and null for absent ones, the caller as creator, and one EVENT_CREATE log row |
| EventsRoute.CreateKeepsSlugsUnique | app/api/events/route.ts:74-93 | creating an event keeps slugs unique |
| EventsRoute.HandleCreate | app/api/events/route.ts:51-114 | the handler's writes and response are exactly those `Create` describes |
| ProfileRoute.Collect | app/api/user/profile/route.ts:26-48 | `updateData` gets a username exactly when a truthy one is given, a password hash exactly when a truthy password is given, and any defined avatar index |
| ProfileRoute.Keys | app/api/user/profile/route.ts:64 | `Object.keys(updateData)`: empty exactly when nothing is set, naming each set field once and no other |
| ProfileRoute.ApplyData | app/api/user/profile/route.ts:68-70 | `user.update` replaces exactly the fields in `updateData` and keeps the rest of the row |
| ProfileRoute.Write | app/api/user/profile/route.ts:50-85 | the writes touch only the users, participations and logs, never remove a log row, and never add or remove a participation row |
| ProfileRoute.TakenIff | app/api/user/profile/route.ts:29-38 | a new username is refused exactly when another user holds it ignoring case (the caller's own name in another case is allowed); a refusal writes nothing |
| ProfileRoute.WelcomeOnlyOnParticipation | app/api/user/profile/route.ts:50-62 | the welcome flag never reaches a user row: no user's flag changes and no user row appears or disappears |
| ProfileRoute.WelcomeOnlyRequest | app/api/user/profile/route.ts:50-66 | a request that only sets an event's welcome flag writes the participation row and still answers "No changes provided"; without it nothing is written |
| ProfileRoute.Profile | app/api/user/profile/route.ts:8-97 | PATCH of the profile; stated by `TakenIff`, `WelcomeOnlyOnParticipation`, `WelcomeOnlyRequest`, `ProfileSuccess` and `ProfileKeepsNamesUnique` |
| ProfileRoute.ProfileSuccess | app/api/user/profile/route.ts:39-90 | a successful request changes the caller's row in exactly the requested fields (the avatar index as given, 0 included, with no range check) and logs the changed field names in the order they were set |
| ProfileRoute.ProfileLogRenders | app/api/user/profile/route.ts:79-85 | the logged record renders on the audit-log page as "Updated " followed by the changed fields' labels |
| ProfileRoute.ProfileKeepsNamesUnique | app/api/user/profile/route.ts:29-40 | the update keeps usernames distinct ignoring case |
| ProfileRoute.HandleProfile | app/api/user/profile/route.ts:8-97 | the handler's writes and response are exactly those `Profile` describes |
| SettingsRoute.Apply | app/api/user/settings/route.ts:88-91 | `user.update` with `updates` replaces exactly the username and hash present and keeps the rest of the row |
| SettingsRoute.Change | app/api/user/settings/route.ts:34-96 | only the caller's own row and the log can change, and log rows are only ever appended |
| SettingsRoute.Settings | app/api/user/settings/route.ts:9-32 | success needs a valid session whose user still exists |
| SettingsRoute.SettingsFrame | app/api/user/settings/route.ts:7-102 | whatever the outcome, no other user's row changes, no user row appears or disappears, and the log only grows |
| SettingsRoute.SameUsernameIsNoChange | app/api/user/settings/route.ts:37-86 | asking for the name one already has, with no new password, is refused as "No changes provided" and writes nothing |
| SettingsRoute.TakenUsernameRefused | app/api/user/settings/route.ts:37-42 | a new username another user holds (exact match) is refused before anything is written |
| SettingsRoute.PasswordChecksRefuse | app/api/user/settings/route.ts:60-68 | a new password without the current one, or with a wrong one, is refused and the row is unchanged, though a rename log row already written stays |
| SettingsRoute.SettingsSuccess | app/api/user/settings/route.ts:36-96 | success changes the caller's username when it differs and the hash when a new password is given (at least one of the two), checks the current password, and logs one row per change, rename first |
| SettingsRoute.SettingsKeepsUsernamesUnique | app/api/user/settings/route.ts:37-44 | no request can give two users the same username |
| SettingsRoute.HandleSettings | app/api/user/settings/route.ts:7-102 | the handler's writes and response are exactly those `Settings` describes |
| TeamsListRoute.Rows | app/api/teams/list/route.ts:25-76 | every team (with a fresh id) has its projection among the rows |
| TeamsListRoute.IdList | app/api/teams/list/route.ts:104-119 | `teamIds` read as row ids, element for element, or none exactly when some element is not an id |
| TeamsListRoute.Found | app/api/teams/list/route.ts:111-114 | the teams found are exactly the existing teams among the requested ids, in the default increasing id order |
| TeamsListRoute.Remove | app/api/teams/list/route.ts:116-137 | removes exactly the requested teams with their memberships and entries, logs the count and the found names, and reports how many existed |
| TeamsListRoute.NeedAdmin | app/api/teams/list/route.ts:20-102 | both verbs turn away anyone who is not SUPER_ADMIN or EVENT_ADMIN, and nothing changes |
| TeamsListRoute.RowLeqTotalOrder | app/api/teams/list/route.ts:53-56 | ordering by event name and then team name is a total order |
| TeamsListRoute.List | app/api/teams/list/route.ts:11-84 | GET /api/teams/list; stated by `NeedAdmin`, `ListSorted`, `ListComplete` and `RowMembers` |
| TeamsListRoute.ListSorted | app/api/teams/list/route.ts:25-78 | an admin's list is a permutation of the team projections, sorted by event name and then team name |
| TeamsListRoute.ListComplete | app/api/teams/list/route.ts:25-78 | every team is listed |
| TeamsListRoute.RowMembers | app/api/teams/list/route.ts:35-75 | a row's member count equals the number of its memberships, and its member list holds one (user id, username) pair per membership, in membership order |
| TeamsListRoute.Delete | app/api/teams/list/route.ts:90-143 | DELETE /api/teams/list; stated by `NeedAdmin`, `DeleteNeedsIds`, `DeleteBadId`, `DeleteRemoves` and `DeleteIsRemove` |
| TeamsListRoute.DeleteNeedsIds | app/api/teams/list/route.ts:104-108 | a `teamIds` that is missing, not an array or empty is refused and nothing is written |
| TeamsListRoute.DeleteBadId | app/api/teams/list/route.ts:111-142 | an element that is not an id fails the request and nothing is deleted |
| TeamsListRoute.DeleteRemoves | app/api/teams/list/route.ts:110-137 | an admin's delete removes exactly the listed teams in any event, with their memberships and entries, reports the number that existed, and logs that count and the names found |
| TeamsListRoute.DeleteIsRemove | app/api/teams/list/route.ts:104-137 | an accepted delete performs the removal of exactly the ids it lists |
| TeamsListRoute.IdSetOfItems | app/api/teams/list/route.ts:112-118 | the id set holds exactly the ids listed in `teamIds` |
| TeamsListRoute.FoundCount | app/api/teams/list/route.ts:111-126 | one logged name per deleted team, and the count is the number deleted |
| TeamsListRoute.HandleDelete | app/api/teams/list/route.ts:90-143 | the handler's writes and response are exactly those `Delete` describes |
| TeamsRoute.Join | app/api/teams/route.ts:24-59 | a JOIN transaction either succeeds with "Joined team successfully" or fails and leaves the tables as they were |
| TeamsRoute.CreateDefault | app/api/teams/route.ts:66-91 | a failed CREATE_DEFAULT transaction leaves the tables as they were |
| TeamsRoute.Post | app/api/teams/route.ts:8-99 | a rejected POST changes no table |
| TeamsRoute.Patch | app/api/teams/route.ts:101-147 | a rejected PATCH changes no table |
| TeamsRoute.JoinNeedsTeamId | app/api/teams/route.ts:22 | JOIN without a team id is refused with "Team ID required" before anything is read or written |
| TeamsRoute.OtherActionInvalid | app/api/teams/route.ts:94 | any action other than JOIN and CREATE_DEFAULT is refused and changes nothing |
| TeamsRoute.FirstMembershipIs | app/api/teams/route.ts:26-29 | a row of the user with no earlier row of the user is what `findFirst` finds |
| TeamsRoute.Cleanup | app/api/teams/route.ts:48-56 | removing the team left behind; stated by `TeamsRoute.CleanupShape` |
| TeamsRoute.CleanupShape | app/api/teams/route.ts:48-56 | the cleanup removes the team left behind exactly when it is not the target and has no members, and touches nothing else; it fails only when that team row is missing |
| TeamsRoute.Moved | app/api/teams/route.ts:31-46 | moving or creating the membership; stated by `TeamsRoute.MovedShape` |
| TeamsRoute.MovedShape | app/api/teams/route.ts:31-46 | the move repoints the first membership when there is one, and otherwise appends a membership for the caller; users and teams are untouched |
| TeamsRoute.JoinMovesMembership | app/api/teams/route.ts:24-58 | after a successful JOIN the caller's first membership points at the target team; a row is added only when the caller had none, and every other row is unchanged |
| TeamsRoute.JoinCleansUp | app/api/teams/route.ts:48-56 | the team left behind is deleted exactly when it is not the target and no membership points at it any more; the target team survives and no other team is touched |
| TeamsRoute.JoinPreservesValid | app/api/teams/route.ts:24-59 | JOIN keeps every membership pointing at an existing user and team, and ids fresh |
| TeamsRoute.CreateDefaultWhenMember | app/api/teams/route.ts:69-71 | a caller with any membership, in any event, gets "User already has a team" and nothing changes |
| TeamsRoute.CreateDefaultCreates | app/api/teams/route.ts:73-90 | otherwise success adds exactly one team (named after the caller, the caller's avatar as icon, a public ID no team had, in the given event) and exactly the caller's membership in it |
| TeamsRoute.CreateDefaultIdempotent | app/api/teams/route.ts:66-91 | a second CREATE_DEFAULT after a successful one changes nothing |
| TeamsRoute.PatchForbidden | app/api/teams/route.ts:115-122 | a caller who is neither a member of the team nor SUPER_ADMIN is refused and nothing changes |
| TeamsRoute.UpdatedFields | app/api/teams/route.ts:124-126 | the keys of `updateData`; stated by `TeamsRoute.UpdatedFieldsSpec` |
| TeamsRoute.UpdatedFieldsSpec | app/api/teams/route.ts:124-126 | `updateData` holds "name" exactly when a non-empty name is given and "iconIndex" exactly when an index is given, each once |
| TeamsRoute.PatchUpdatesFields | app/api/teams/route.ts:124-142 | a successful PATCH changes only the named team: its name when a non-empty name is given, its icon whenever an index is given (0 included); one TEAM_UPDATE row names the keys set |
| TeamsRoute.PatchLogRendering | app/api/teams/route.ts:134-140 | the logged row reads on the audit-log page as "Updated <labels> for team.", or "Updated settings for team." exactly when nothing was set |
| TeamsRoute.JoinTx | app/api/teams/route.ts:24-59 | the JOIN transaction's writes and response are exactly those `Join` describes |
| TeamsRoute.CreateDefaultTx | app/api/teams/route.ts:66-91 | the CREATE_DEFAULT transaction's writes, response and random draws are exactly those `CreateDefault` describes |
| TeamsRoute.HandlePost | app/api/teams/route.ts:8-99 | the POST handler's writes, response and random draws are exactly those `Post` describes |
| TeamsRoute.HandlePatch | app/api/teams/route.ts:101-147 | the PATCH handler's writes and response are exactly those `Patch` describes |
| UsersRoute.Admit | app/api/users/route.ts:10-53 | an admitted request has a valid admin session, a username, a scoped role that the caller may grant, and a username nobody has; a refusal is never a success |
| UsersRoute.Provision | app/api/users/route.ts:55-132 | a failure after the checks leaves the tables as they were and shows no credentials |
| UsersRoute.Create | app/api/users/route.ts:8-138 | a rejected request changes no table and shows no credentials |
| UsersRoute.ListedIds | app/api/users/route.ts:156-162 | every listed id is an existing user |
| UsersRoute.CreateNeedsAdmin | app/api/users/route.ts:18-21 | callers other than SUPER_ADMIN and EVENT_ADMIN are turned away, nothing changes and nothing is drawn |
| UsersRoute.EventAdminNeedsEvent | app/api/users/route.ts:28-32 | an EVENT_ADMIN whose own row is missing or has no event cannot create anyone |
| UsersRoute.CreateNeedsUsername | app/api/users/route.ts:38-40 | a missing username is refused before anything is drawn or written |
| UsersRoute.SuperAdminAnyRole | app/api/users/route.ts:42-44 | the role-selection check never turns a SUPER_ADMIN away |
| UsersRoute.CreateDuplicate | app/api/users/route.ts:46-53 | a username some user already has is refused and nothing is created |
| UsersRoute.AdmitEventAdmin | app/api/users/route.ts:28-36 | an admitted EVENT_ADMIN request is rewritten to a participant of the admin's own event |
| UsersRoute.ParticipantTeam | app/api/users/route.ts:83-100 | the participant's team and membership; stated by `UsersRoute.ParticipantTeamShape` |
| UsersRoute.ParticipantTeamShape | app/api/users/route.ts:83-100 | the participant's team is a new row at the counter, named after the user, in the given event, with the user's avatar as icon and a public ID no team had; one membership row links the user to it; nothing else changes |
| UsersRoute.CreateTx | app/api/users/route.ts:61-103 | the create transaction; stated by `CreateTxShape`, `ProvisionCreates` and `ProvisionTeamIffParticipant` |
| UsersRoute.CreateTxShape | app/api/users/route.ts:61-103 | the transaction writes the user at the next id with a random avatar, only for an existing event, and adds a team and membership exactly when the user is a participant with an event |
| UsersRoute.ProvisionCreates | app/api/users/route.ts:55-132 | success adds one user with the requested name, scoped role and event, a public ID no user had, and the hash of the returned password; the password is the custom one or 12 characters spelled by the next 12 random bytes; one USER_CREATE log row |
| UsersRoute.ProvisionTeamIffParticipant | app/api/users/route.ts:82-100 | a team comes with the new user exactly when the user is a participant with an event; it is named after the user, shares the user's avatar, and the user is its only member |
| UsersRoute.EventAdminCreatesParticipant | app/api/users/route.ts:28-36 | a successful EVENT_ADMIN request creates a participant of the admin's own event |
| UsersRoute.CreateUnique | app/api/users/route.ts:46-80 | a successful request adds a user whose name nobody had before |
| UsersRoute.List | app/api/users/route.ts:140-178 | GET /api/users; stated by `UsersRoute.ListSpec` and `UsersRoute.ListComplete` |
| UsersRoute.ListSpec | app/api/users/route.ts:140-178 | any verified caller gets the list; it never shows a SUPER_ADMIN and is newest first |
| UsersRoute.ListComplete | app/api/users/route.ts:156-176 | every user who is not a SUPER_ADMIN is listed |
| UsersRoute.CheckRequest | app/api/users/route.ts:10-53 | the handler's checks decide exactly what `Admit` describes |
| UsersRoute.CreateTxMethod | app/api/users/route.ts:61-103 | the transaction's writes and draws are those `CreateTx` describes, and a throw rolls every write back |
| UsersRoute.HandleCreate | app/api/users/route.ts:8-138 | the handler's writes, response, credentials and random draws are exactly those `Create` describes |
| UsersBulkRoute.Bulk | app/api/users/bulk/route.ts:8-180 | a rejected request changes no table and reports no created or failed users |
| UsersBulkRoute.BulkNeedsAdmin | app/api/users/bulk/route.ts:18-21 | callers other than SUPER_ADMIN and EVENT_ADMIN are turned away and nothing changes |
| UsersBulkRoute.Delete | app/api/users/bulk/route.ts:27-55 | the bulk delete; stated by `DeleteNeedsIds`, `DeleteProtectsSuperAdmin` and `DeleteRemoves` |
| UsersBulkRoute.DeleteNeedsIds | app/api/users/bulk/route.ts:27-30 | a missing or empty id list deletes nothing |
| UsersBulkRoute.DeleteProtectsSuperAdmin | app/api/users/bulk/route.ts:32-41 | when a caller who is not SUPER_ADMIN lists a SUPER_ADMIN nobody is deleted |
| UsersBulkRoute.DeleteRemoves | app/api/users/bulk/route.ts:27-55 | an accepted delete had a non-empty list with no protected user and removes exactly the listed users with their memberships and participations; teams stay; the list is logged |
| UsersBulkRoute.ToggleWelcome | app/api/users/bulk/route.ts:59-69 | the bulk welcome toggle; stated by `ToggleSetsExactly` and `ToggleWithoutValue` |
| UsersBulkRoute.ToggleSetsExactly | app/api/users/bulk/route.ts:59-69 | toggle_welcome sets the flag of exactly the listed users to the value and changes nothing else |
| UsersBulkRoute.ToggleWithoutValue | app/api/users/bulk/route.ts:59-69 | without a value no flag changes and the reply still counts the listed ids |
| UsersBulkRoute.Targets | app/api/users/bulk/route.ts:86-94 | the events new users join; stated by `UsersBulkRoute.EventAdminTargets` |
| UsersBulkRoute.EventAdminTargets | app/api/users/bulk/route.ts:86-94 | an EVENT_ADMIN's new users join exactly the admin's first event; an admin with no event is refused |
| UsersBulkRoute.DuplicateFails | app/api/users/bulk/route.ts:107-112 | a name already taken before the request or earlier in the batch fails as Duplicate username and writes nothing |
| UsersBulkRoute.StepFrame | app/api/users/bulk/route.ts:135-147 | one pass of the inner loop moves the counter by two and appends one membership of the user in the new team |
| UsersBulkRoute.StepTeams | app/api/users/bulk/route.ts:136-144 | one pass of the inner loop adds a team named after the user in that event with the user's avatar and keeps earlier teams |
| UsersBulkRoute.TeamsForFrame | app/api/users/bulk/route.ts:134-149 | the inner loop leaves users and logs alone and adds one membership per target event after the existing ones |
| UsersBulkRoute.TeamsForKeeps | app/api/users/bulk/route.ts:134-149 | the inner loop keeps every existing team unchanged |
| UsersBulkRoute.TeamsForMember | app/api/users/bulk/route.ts:145-147 | the inner loop's k-th membership links the user to the k-th new team |
| UsersBulkRoute.TeamsForTeam | app/api/users/bulk/route.ts:136-144 | the inner loop's k-th team is named after the user and sits in the k-th target event with the user's avatar |
| UsersBulkRoute.BulkTx | app/api/users/bulk/route.ts:119-152 | the per-user transaction; stated by `BulkTxShape` and `BulkTxTeam` |
| UsersBulkRoute.BulkTxShape | app/api/users/bulk/route.ts:119-152 | a committed transaction needed every target event to exist and adds exactly one participant linked to the target events plus one membership per event; logs stay |
| UsersBulkRoute.BulkTxTeam | app/api/users/bulk/route.ts:134-148 | a committed transaction gives the user one team per target event named after the user with the user's avatar and a membership in it |
| UsersBulkRoute.NamesAppend | app/api/users/bulk/route.ts:110-155 | pushing onto either list adds that one name to the names reported |
| UsersBulkRoute.TryCreate | app/api/users/bulk/route.ts:114-152 | one attempt for a free name; stated by `TryCreateGrows` |
| UsersBulkRoute.CreateOne | app/api/users/bulk/route.ts:102-156 | one pass of the loop; stated by `CreateOneNames` and `CreateOneKeeps` |
| UsersBulkRoute.CreateAll | app/api/users/bulk/route.ts:102-157 | the loop over the usernames; stated by `CreateAllPartition` and `CreateAllKeeps` |
| UsersBulkRoute.CreateOneNames | app/api/users/bulk/route.ts:102-156 | one pass of the loop reports a non-blank name exactly once and a blank name not at all |
| UsersBulkRoute.CreateAllPartition | app/api/users/bulk/route.ts:102-157 | over the loop every non-blank username lands in exactly one of the two lists and blank ones in neither |
| UsersBulkRoute.CommittedGrows | app/api/users/bulk/route.ts:119-152 | a committed transaction keeps every existing user and takes the new name |
| UsersBulkRoute.TryCreateGrows | app/api/users/bulk/route.ts:114-152 | a successful attempt keeps every existing user and takes the new name |
| UsersBulkRoute.CommitKeeps | app/api/users/bulk/route.ts:151 | recording a created user whose name was free keeps the batch invariant: created names distinct and free before the request and taken now |
| UsersBulkRoute.CreateOneKeeps | app/api/users/bulk/route.ts:102-156 | one pass of the loop keeps the batch invariant |
| UsersBulkRoute.CreateAllKeeps | app/api/users/bulk/route.ts:102-157 | the whole loop keeps the batch invariant |
| UsersBulkRoute.BulkCreate | app/api/users/bulk/route.ts:73-171 | bulk create; stated by `BulkCreatePartition`, `BulkCreateUnique`, `DuplicateFails` and `EventAdminTargets` |
| UsersBulkRoute.BulkCreatePartition | app/api/users/bulk/route.ts:73-171 | after a bulk create the two lists between them hold each non-blank username once |
| UsersBulkRoute.BulkCreateUnique | app/api/users/bulk/route.ts:73-171 | after a bulk create the created names are distinct and were free before the request and belong to users now |
| UsersBulkRoute.BulkTxMethod | app/api/users/bulk/route.ts:119-152 | the transaction with its nested loop over the target events does exactly what `BulkTx` describes and a throw rolls every write back |
| UsersBulkRoute.TryCreateMethod | app/api/users/bulk/route.ts:114-152 | the draws and transaction for one free name do exactly what `TryCreate` describes |
| UsersBulkRoute.CreateOneStep | app/api/users/bulk/route.ts:103-156 | one pass of the loop does exactly what `CreateOne` describes |
| UsersBulkRoute.CreateBatch | app/api/users/bulk/route.ts:102-157 | the loop over users does exactly what `CreateAll` describes |
| UsersBulkRoute.HandleBulk | app/api/users/bulk/route.ts:8-180 | the handler's writes, response, both lists and random draws are exactly those `Bulk` describes |
| MigrateTeams.Participants | app/api/admin/migrate/teams/route.ts:23-29 | the participants `findMany` returns are exactly the users whose role is PARTICIPANT |
| MigrateTeams.Events | app/api/admin/migrate/teams/route.ts:41-59 | the loop over one user's events adds only teams and memberships of that user after the existing ones; users, events and logs stay |
| MigrateTeams.Users | app/api/admin/migrate/teams/route.ts:34-62 | the loop over participants changes only teams, memberships and the id counter, and every membership it adds belongs to a participant in the loop that had none and has linked events |
| MigrateTeams.MigrateNeedsSuperAdmin | app/api/admin/migrate/teams/route.ts:17-20 | anyone but a SUPER_ADMIN is refused, and nothing changes or is drawn |
| MigrateTeams.EventsStep | app/api/admin/migrate/teams/route.ts:41-59 | a transaction that goes through hands the remaining events to the loop |
| MigrateTeams.NewMembers | app/api/admin/migrate/teams/route.ts:52-57 | the k-th membership a user gets links the user to the team created just before it |
| MigrateTeams.NewMembersCons | app/api/admin/migrate/teams/route.ts:41-59 | the first new membership followed by those of the remaining events |
| MigrateTeams.EventsMembers | app/api/admin/migrate/teams/route.ts:41-59 | when no transaction throws the user gets one new team and one membership in it per linked event |
| MigrateTeams.EventsKeepTeams | app/api/admin/migrate/teams/route.ts:41-59 | existing teams are left as they were |
| MigrateTeams.TeamsForCons | app/api/admin/migrate/teams/route.ts:44-50 | the first event's team followed by those of the remaining events |
| MigrateTeams.EventsTeams | app/api/admin/migrate/teams/route.ts:44-50 | the team created for each linked event is named after the user and lies in that event |
| MigrateTeams.HasTeamGrows | app/api/admin/migrate/teams/route.ts:36 | a user with a membership keeps one when rows are only appended |
| MigrateTeams.EventsCover | app/api/admin/migrate/teams/route.ts:41-59 | a user whose transactions all go through has a membership afterwards |
| MigrateTeams.UsersCover | app/api/admin/migrate/teams/route.ts:34-62 | after a loop without a throw every eligible participant has a membership |
| MigrateTeams.UsersCount | app/api/admin/migrate/teams/route.ts:31-62 | the count is the number of eligible participants in the loop |
| MigrateTeams.UsersNoneEligible | app/api/admin/migrate/teams/route.ts:34-39 | a loop over participants none of whom is eligible changes nothing and counts nothing |
| MigrateTeams.Migrate | app/api/admin/migrate/teams/route.ts:7-73 | the team backfill; stated by `MigrateNeedsSuperAdmin`, `MigrateSuccess` and `MigrateIdempotent` |
| MigrateTeams.MigrateSuccess | app/api/admin/migrate/teams/route.ts:7-67 | a backfill that completes was asked by a SUPER_ADMIN and reports the number of eligible participants; it only adds teams and memberships; each new membership belongs to a participant that had none and has linked events; and every participant with linked events has a membership afterwards |
| MigrateTeams.MigrateIdempotent | app/api/admin/migrate/teams/route.ts:7-67 | a second run after a completed one changes nothing and reports zero participants |
| MigrateTeams.BackfillUser | app/api/admin/migrate/teams/route.ts:41-59 | the inner loop with one transaction per event does exactly what `Events` describes |
| MigrateTeams.HandleMigrate | app/api/admin/migrate/teams/route.ts:7-73 | the handler's writes, response and random draws are exactly those `Migrate` describes |
| MigrateLegacy.AllUsers | app/api/admin/migrate/legacy-data/route.ts:22-26 | `findMany` returns every user |
| MigrateLegacy.LegacyEvents | app/api/admin/migrate/legacy-data/route.ts:34 | the loaded events are exactly the user's linked events that exist |
| MigrateLegacy.Upsert | app/api/admin/migrate/legacy-data/route.ts:41-54 | after the upsert the pair has a row; a row already there is left as it was; the only new row is that pair's with the welcome not yet seen; nothing else changes |
| MigrateLegacy.LegacyNeedsSuperAdmin | app/api/admin/migrate/legacy-data/route.ts:16-19 | anyone but a SUPER_ADMIN is refused and nothing changes |
| MigrateLegacy.UserPairsCons | app/api/admin/migrate/legacy-data/route.ts:37 | a user's pairs are the first event's pair followed by the rest |
| MigrateLegacy.EventsKeeps | app/api/admin/migrate/legacy-data/route.ts:37-59 | the inner loop only adds unseen participation rows for its own pairs and leaves existing rows as they were |
| MigrateLegacy.EventsCover | app/api/admin/migrate/legacy-data/route.ts:37-59 | after the inner loop every pair whose upsert went through has a row |
| MigrateLegacy.EventsCount | app/api/admin/migrate/legacy-data/route.ts:37-59 | the inner loop counts the pairs whose upsert went through |
| MigrateLegacy.EventsErrors | app/api/admin/migrate/legacy-data/route.ts:56-58 | the inner loop appends one error line per refused pair in order |
| MigrateLegacy.UsersKeeps | app/api/admin/migrate/legacy-data/route.ts:32-60 | the outer loop only adds unseen participation rows for the pairs of the listed users and leaves existing rows as they were |
| MigrateLegacy.UsersCover | app/api/admin/migrate/legacy-data/route.ts:32-60 | after the outer loop every pair whose upsert went through has a row |
| MigrateLegacy.MessagesAppend | app/api/admin/migrate/legacy-data/route.ts:57 | the error lines of two runs of pairs are those of the first followed by those of the second |
| MigrateLegacy.MessagesRefused | app/api/admin/migrate/legacy-data/route.ts:56-58 | there is one error line per refused pair, so none exactly when every upsert goes through |
| MigrateLegacy.UsersCount | app/api/admin/migrate/legacy-data/route.ts:28-60 | the outer loop counts the pairs whose upsert went through |
| MigrateLegacy.UsersErrors | app/api/admin/migrate/legacy-data/route.ts:29-60 | the outer loop reports the refused pairs in loop order |
| MigrateLegacy.PairsOf | app/api/admin/migrate/legacy-data/route.ts:32-37 | every visited pair is a listed user and one of its linked events that exists |
| MigrateLegacy.PairsCover | app/api/admin/migrate/legacy-data/route.ts:32-37 | every existing linked event of a listed user is visited |
| MigrateLegacy.PairsSameLinks | app/api/admin/migrate/legacy-data/route.ts:22-37 | the visited pairs depend only on the users and events |
| MigrateLegacy.Legacy | app/api/admin/migrate/legacy-data/route.ts:6-67 | the legacy backfill; stated by `LegacyNeedsSuperAdmin`, `LegacyKeeps`, `LegacyCovers`, `LegacyReport` and `LegacyIdempotent` |
| MigrateLegacy.LegacyKeeps | app/api/admin/migrate/legacy-data/route.ts:6-66 | a SUPER_ADMIN's run only adds participation rows for users and their existing linked events with the welcome not yet seen, and leaves existing rows as they were |
| MigrateLegacy.LegacyCovers | app/api/admin/migrate/legacy-data/route.ts:32-60 | after a SUPER_ADMIN's run every linked event of a user whose upsert went through has a row |
| MigrateLegacy.LegacyReport | app/api/admin/migrate/legacy-data/route.ts:55-66 | the count is that of the pairs whose upsert went through whether or not the row was new; errors has one line per refused pair in order and is left out exactly when no upsert was refused |
| MigrateLegacy.NothingToAdd | app/api/admin/migrate/legacy-data/route.ts:41-54 | when every visited pair already has a row the loops change nothing |
| MigrateLegacy.LegacyIdempotent | app/api/admin/migrate/legacy-data/route.ts:6-66 | after a run without errors a second run changes nothing whatever the database does, and with the same database behaviour reports the same count |
| MigrateLegacy.UpsertUser | app/api/admin/migrate/legacy-data/route.ts:37-59 | the inner loop against the database does exactly what `UpsertEvents` describes |
| MigrateLegacy.HandleLegacy | app/api/admin/migrate/legacy-data/route.ts:6-67 | the handler's writes, response and errors field are exactly those `Legacy` describes |

## Left out

- JSON text: the printed form of an object keeps its fields in insertion order and prints a repeated key twice, where `JSON.stringify` prints integer-like keys first and `JSON.parse` keeps only the last copy of a key. No object the routes build has a repeated or integer-like key.
- Request parsing: `request.json()` and fields of the wrong JSON type are not modelled. Bodies are records whose missing or falsy fields are `None` or empty, as each route reads them.
- Unicode: case folding, white space and `\w` are ASCII only, and strings compare by code unit.
- bcrypt and JWT from `lib/auth.ts` are not part of this model. A hash is `Hashed(plain)`, and a token check is the session the handler receives.
- Concurrency: requests run one at a time, so the races between a uniqueness check and its insert are not modelled.
- Prisma, `$transaction`, cookies and `NextResponse`: each transaction is atomic, and a throw restores the tables. A response is a status flag and a message. Data payloads are left out, and the list routes return their rows beside the response.
- Database error text: the error messages Prisma would produce are stand-in constants, apart from the legacy backfill, where the `fail` input gives them. The legacy route's outer catch, which handles a failed `findMany`, is not modelled.
- The Prisma schema is not part of this model. Deleting a team removes its memberships and entries. Deleting a user removes their memberships, participations and entries. Deleting a user does not clear `createdByUserId` on the events that user created.
- `createdAt` order and the default order of `findMany` are id order, because ids are handed out by one counter.
- The database leaves the order of teams with the same event name and team name open. The model's insertion sort fixes one order for them.
- The teams backfill sets no icon, so its teams get `iconIndex` `None` rather than a schema default. Its public-ID generator is a `Pick` parameter, which `Migrate` instantiates with `Generators.PickPublicId`.
- Numbers: JavaScript number overflow and floating point are not modelled. Points are exact integers, and `formatPoints` is left out.
- `formatTime12H`, `Date` and time zones: `formatDateTime` takes the components already extracted, and dates are otherwise text.
- `lib/logger.ts` is modelled only as appending a record, and its swallowed write errors are not modelled.
- The Prisma schema is not part of this model, so the events list's user count is assumed to count the many-to-many `events` relation between users and events, which `EventsRoute.UserCount` counts.
- The read-only routes (`app/api/user/me`, `app/api/users/list`, `app/api/logs/list`, `app/api/login`, `app/api/logout`) and all JSX rendering are out of scope.
- UI side effects: the pages' `fetch` calls, alerts and navigation become the requests or results their handlers return.
