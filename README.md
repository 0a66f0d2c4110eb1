# Event ticketing front end: the decision logic, verified

This project models the parts of the Gerenciamento_Eventos web front end
(a Next.js application for selling event tickets) that make decisions, as
opposed to rendering pages or calling the backend:

- **Phone mask** (`PhoneMask`): the contact-phone field of the admin's
  event form keeps at most eleven digits of what was typed and lays them
  out as the Brazilian mask `(XX) XXXXX-XXXX`. The comment beside the
  field's `maxLength={16}` (app/admin/dashboard/page.tsx:391) gives this
  mask 16 characters. It has 15, so the limit admits every masked number.
- **My tickets** (`MyTickets`): the client's ticket list.
  - The fetched tickets are grouped per event in a loop that updates a
    dictionary in place.
  - The groups are sorted with upcoming events first, then by date.
  - A search box keeps the groups whose event name or location contains
    the lower-cased term.
  - Dates print as `DD/MM/YYYY` and times as `HH:MM`.
- **Events list** (`ClientEvents`): each event's start prints as
  `DD/MM/YYYY às HH:MM`.
- **Session** (`AuthContext`): the authentication provider.
  - It holds the user in memory.
  - It keeps a copy of the user in `localStorage` under `user`.
  - It keeps a `sessionStorage` flag `appSessionActive` for a live browser
    session.
  - It offers `login`, `logout`, `hasRole` and `isAuthenticated`.
  - It sends each role to its home page.
  - The provider and the storage are classes whose methods update their
    fields.
- **Route guard** (`ProtectedRoute`): a guarded page renders its content
  or redirects, depending on the user and the roles allowed.
- **Route table** (`Layouts`): the five guarded sections (`/employee`,
  `/client`, `/reports`, `/store`, `/admin`) each pass a constant list of
  roles to the guard.
  - Every redirect lands on a page that is shown, so no redirect can loop.
- **Stale-session check** (`HomePage`): the login page is meant to drop a
  stored user left behind by a browser that was closed without logging out,
  then mark the session as live.
  - The page renders inside the authentication provider, which has already
    loaded the stored user and set the session flag by then.
  - So as assembled the check never drops anything (see "Findings").
- **JavaScript text built-ins** (`JsText`): the JavaScript string
  operations the code relies on, as the ECMAScript standard defines them
  for the arguments the code passes (the limits are listed under "Left out").
  - Covered: `Number.prototype.toString`, `padStart`, `slice`, `trim`,
    `toLowerCase` and `includes`.

Event dates are integers (timestamps), and `now` is a parameter. The fields
a `Date` yields (day, zero-based month, year, hours, minutes) are plain
inputs to the formatters. Redirects (`router.push`) are values a function
returns or a method hands back. The two browser stores are fields of a
`Storage` object.

## Model

| member | source | states |
|---|---|---|
| `JsText.NatToString` | app/client/my-tickets/page.tsx:119-121 | `toString` of a non-negative integer is a non-empty string of decimal digits, one digit long exactly below 10 |
| `JsText.IntToString` | app/client/my-tickets/page.tsx:119-121 | `toString` of an integer is non-empty, starts with '-' exactly when the number is negative, and is digits otherwise (after the sign) |
| `JsText.NatToStringValue` | app/client/my-tickets/page.tsx:119-121 | `toString` of a non-negative integer reads back as the number and has no leading zero unless the number is 0 |
| `JsText.IntToStringValue` | app/client/my-tickets/page.tsx:119-121 | `toString` of an integer is a minus sign for negative values followed by decimal digits that read back as its magnitude |
| `JsText.PadStart` | app/client/my-tickets/page.tsx:119-120 | `padStart(n, fill)` keeps the string as a suffix, prefixes only fill characters, and reaches length max(n, old length) |
| `JsText.PadTwoDigits` | app/client/my-tickets/page.tsx:119-120 | a number from 0 to 99, printed and padded to 2 with '0', is exactly two digits that read back as the number |
| `JsText.Slice` | app/admin/dashboard/page.tsx:81 | `slice(start, end)` is the stated substring when in range, and never longer than `end` or than the string |
| `JsText.TrimStart` | app/client/my-tickets/page.tsx:101 | the result is a suffix of the input, everything dropped is white space, and it does not start with white space |
| `JsText.TrimEnd` | app/client/my-tickets/page.tsx:101 | the result is a prefix of the input, everything dropped is white space, and it does not end with white space |
| `JsText.Trim` | app/client/my-tickets/page.tsx:101 | `trim()` is a contiguous piece of the input with only white space before and after it, and no white space at either of its ends |
| `JsText.TrimEmptyIffBlank` | app/client/my-tickets/page.tsx:101 | `trim()` gives "" exactly when every character is JavaScript white space or a line terminator |
| `JsText.ToLowerCase` | app/client/my-tickets/page.tsx:104-107 | same length, no upper-case letter left, capitals (A–Z and the Latin-1 capitals) moved by 32, every other character unchanged |
| `JsText.ToLowerCaseIdempotent` | app/client/my-tickets/page.tsx:104-107 | lower-casing twice is lower-casing once |
| `JsText.Includes` | app/client/my-tickets/page.tsx:106-107 | every string includes the empty string, and nothing longer than a string is included in it |
| `JsText.IncludesIffOccurs` | app/client/my-tickets/page.tsx:106-107 | `includes` holds exactly when the needle occurs at some position |
| `PhoneMask.Digits` | app/admin/dashboard/page.tsx:78 | removing non-digits leaves only ASCII digits and never lengthens the text; with `DigitsCounts` and `DigitsConcat`, it keeps every ASCII digit, in order, as often as it occurs, and nothing else |
| `PhoneMask.KeptDigits` | app/admin/dashboard/page.tsx:78-81 | the kept digits are the first min(11, n) digits of the input |
| `PhoneMask.FormatPhoneNumber` | app/admin/dashboard/page.tsx:76-97 | the masked number is at most 15 characters, within the field's maxLength of 16 |
| `PhoneMask.DigitsCounts` | app/admin/dashboard/page.tsx:78 | `replace(/\D/g, '')` keeps every ASCII digit as often as it occurs and drops every other character |
| `PhoneMask.DigitsConcat` | app/admin/dashboard/page.tsx:78 | the digits of a concatenation are the digits of each part, in order |
| `PhoneMask.LimitedIsKept` | app/admin/dashboard/page.tsx:81 | `slice(0, 11)` of the digits is exactly the kept digits |
| `PhoneMask.FormatShape` | app/admin/dashboard/page.tsx:84-96 | no digits gives "", 1–2 digits `(d)`, 3–7 `(dd) d…`, 8–11 `(dd) ddddd-d…` |
| `PhoneMask.FormatKeepsDigits` | app/admin/dashboard/page.tsx:78-93 | the digits of the output, in order, are exactly the kept digits of the input |
| `PhoneMask.FormatAddsOnlyMask` | app/admin/dashboard/page.tsx:88-93 | every output character is a digit or one of `(`, `)`, space, `-` |
| `PhoneMask.FormatIdempotent` | app/admin/dashboard/page.tsx:386-389 | masking an already masked value returns it unchanged |
| `MyTickets.EventIdsMembers` | app/client/my-tickets/page.tsx:60-77 | an id is a key of the grouping exactly when some ticket carries it |
| `MyTickets.TicketsForMembers` | app/client/my-tickets/page.tsx:65-75 | a group's tickets are exactly the input tickets with that event id |
| `MyTickets.TicketsForNonEmpty` | app/client/my-tickets/page.tsx:65-75 | an event has tickets in its group exactly when its id occurs in the input |
| `MyTickets.TicketsForInOrder` | app/client/my-tickets/page.tsx:67-73 | a group's tickets keep their input order |
| `MyTickets.GroupFor` | app/client/my-tickets/page.tsx:62-75 | a group's quantity is the number of its tickets, at least one, and its first ticket is of that event |
| `MyTickets.GroupForOther` | app/client/my-tickets/page.tsx:65-75 | a ticket of another event leaves a group unchanged |
| `MyTickets.GroupForSame` | app/client/my-tickets/page.tsx:65-68 | a ticket of a seen event adds one to quantity, appends the ticket and takes its isPastEvent |
| `MyTickets.GroupForFirst` | app/client/my-tickets/page.tsx:69-75 | the first ticket of an event starts a group with its event, quantity 1 and that ticket |
| `MyTickets.StepExisting` | app/client/my-tickets/page.tsx:65-68 | the in-place update of an existing group keeps the loop invariant, the total count included |
| `MyTickets.StepNew` | app/client/my-tickets/page.tsx:69-75 | inserting a new group keeps the loop invariant and appends its key to the key order |
| `MyTickets.AddTicket` | app/client/my-tickets/page.tsx:60-76 | one `forEach` callback keeps the loop invariant, and the key order grows by the ticket's event exactly when that event is new |
| `MyTickets.GroupTickets` | app/client/my-tickets/page.tsx:57-77 | one group per distinct event id, each group as specified, every key once in the key order, quantities summing to the ticket count |
| `MyTickets.ValuesInOrder` | app/client/my-tickets/page.tsx:80 | `Object.values` lists one group per key, in key order |
| `MyTickets.SumQuantityPermutation` | app/client/my-tickets/page.tsx:80-87 | reordering the groups does not change the total quantity |
| `MyTickets.CompareGroups` | app/client/my-tickets/page.tsx:80-87 | the comparator puts a past event after an upcoming one, and orders two events of the same kind by date, equal dates comparing equal |
| `MyTickets.OrderedMeans` | app/client/my-tickets/page.tsx:80-87 | comparator order holds exactly when no past group precedes an upcoming one and dates ascend within each kind |
| `MyTickets.PrecedesTotalPreorder` | app/client/my-tickets/page.tsx:80-87 | the comparator is total and transitive, so a comparator-ordered arrangement exists |
| `MyTickets.InsertOrdered` | app/client/my-tickets/page.tsx:80-87 | inserting into an ordered sequence keeps it ordered and adds exactly that element |
| `MyTickets.SortByComparator` | app/client/my-tickets/page.tsx:80-87 | the sorted groups are an ordered permutation of the input |
| `MyTickets.OrganizeTickets` | app/client/my-tickets/page.tsx:57-87 | an ordered list with one group per event, every group as specified, quantities summing to the ticket count |
| `MyTickets.MatchesSearch` | app/client/my-tickets/page.tsx:105-108 | a group matches exactly when the term occurs somewhere in its lower-cased name or somewhere in its lower-cased location |
| `MyTickets.KeepMatching` | app/client/my-tickets/page.tsx:105-108 | the filter keeps exactly the matching groups, each as many times as it occurs in the input, in their order |
| `MyTickets.SearchGroups` | app/client/my-tickets/page.tsx:100-111 | a blank term shows all groups unchanged; otherwise exactly the groups whose name or location includes the lower-cased, untrimmed term, with their multiplicities and order kept |
| `MyTickets.FormatDate` | app/client/my-tickets/page.tsx:114-128 | the date text ends with "/" and the unpadded year; for a day and a month below 100 both fields are two characters and the slashes sit at offsets 2 and 5 |
| `MyTickets.FormatTime` | app/client/my-tickets/page.tsx:131-144 | the time text is at least five characters; for an hour and a minute below 100 it is exactly `HH:MM` in shape |
| `MyTickets.DateLayout` | app/client/my-tickets/page.tsx:123 | `${dd}/${mm}/${y}` puts each part at its offset |
| `MyTickets.TimeLayout` | app/client/my-tickets/page.tsx:139 | `${hh}:${mi}` puts each part at its offset |
| `MyTickets.FormatDateFields` | app/client/my-tickets/page.tsx:119-123 | `DD/MM/YYYY`: two-digit day, two-digit month plus one, unpadded year |
| `MyTickets.FormatTimeFields` | app/client/my-tickets/page.tsx:136-139 | `HH:MM` with both fields two digits that read back as the inputs |
| `ClientEvents.FormatDateTime` | app/client/events/page.tsx:27-45 | the events page prints the tickets page's date, then " às ", then the tickets page's time |
| `ClientEvents.DateTimeLayout` | app/client/events/page.tsx:40 | joining date and time around " às " keeps every field at its offset |
| `ClientEvents.FormatDateTimeFields` | app/client/events/page.tsx:32-40 | `DD/MM/YYYY às HH:MM`, with day, month plus one, hour and minute two digits, year unpadded |
| `AuthContext.StoredUserPresent` | auth/AuthContext.tsx:46-47 | nothing stored reads as absent; a user that `login` stored always reads as present |
| `AuthContext.SessionFlagPresent` | app/page.tsx:13 | the value the application writes reads as set, and a removed flag reads as unset |
| `AuthContext.IsAuthenticated` | auth/AuthContext.tsx:103 | `isAuthenticated` is true exactly when some role check can pass |
| `AuthContext.EventIdText` | auth/AuthContext.tsx:76 | a non-negative event id prints as digits that read back as it; a missing one prints as text that is not a number |
| `AuthContext.HomeRoute` | auth/AuthContext.tsx:75-81 | employees go to `/employee/store/` followed by their event id (or "undefined"), admins to `/admin/events`, clients to `/client/events`, each exactly for that role |
| `AuthContext.HasRole` | auth/AuthContext.tsx:93-96 | false without a user; with a user, true exactly when the user's role is listed |
| `AuthContext.HomeRoutesDistinct` | auth/AuthContext.tsx:75-81 | users of different roles are sent to different home pages |
| `AuthContext.AuthProvider.RendersChildren` | auth/AuthContext.tsx:106 | the provider renders its children exactly when loading has ended |
| `AuthContext.AuthProvider.constructor` | auth/AuthContext.tsx:40-41 | no user and still loading, so the children are not rendered |
| `AuthContext.AuthProvider.LoadStoredUser` | auth/AuthContext.tsx:45-56 | a stored user that parses becomes the user; an unparseable non-empty one is removed; loading ends in every case |
| `AuthContext.AuthProvider.MarkSessionActive` | auth/AuthContext.tsx:60-66 | the session flag is set to "true"; the stored user is untouched |
| `AuthContext.AuthProvider.Login` | auth/AuthContext.tsx:69-82 | sets the user, stores it, sets the flag, and returns the role's home; afterwards `hasRole` holds exactly for lists containing the role |
| `AuthContext.AuthProvider.Logout` | auth/AuthContext.tsx:85-90 | clears the user, the stored user and the flag, returns "/"; afterwards no role check passes |
| `AuthContext.LoginThenLogout` | auth/AuthContext.tsx:69-89 | login then logout leaves neither the stored user nor the flag |
| `ProtectedRoute.FallbackRoute` | auth/ProtectedRoute.tsx:27-33 | the guard's fallback target for a role is the same page `login` sends that role to |
| `ProtectedRoute.RendersChildren` | auth/ProtectedRoute.tsx:37-43 | the guard renders its pages exactly when a user is set and that user's role is among the allowed roles; otherwise it renders nothing |
| `ProtectedRoute.RedirectTarget` | auth/ProtectedRoute.tsx:17-43 | a redirect is issued exactly when the content is not rendered: "/" without a user, the role's home when the role is not allowed |
| `Layouts.Visit` | auth/ProtectedRoute.tsx:17-43 | a page is shown exactly when no layout guards it or its guard admits the user; a redirect goes where that guard sends the user |
| `Layouts.GuardOf` | app/admin/layout.tsx:12 | a path is guarded by a layout it lies under, or by none when it lies under none |
| `Layouts.CoversAtMostOne` | app/client/layout.tsx:12 | no path lies under two guarded sections |
| `Layouts.HomeIsShown` | auth/AuthContext.tsx:75-81 | every role's home page is shown to a user of that role |
| `Layouts.NoRedirectLoop` | auth/ProtectedRoute.tsx:17-35 | after any redirect, the target page is shown without a further redirect |
| `Layouts.UnauthenticatedGoesToLogin` | auth/ProtectedRoute.tsx:19-22 | a visitor without a user is sent from every guarded page to "/", which is not guarded |
| `Layouts.EmployeeSection` | app/employee/layout.tsx:12 | admins and employees see it; clients go to `/client/events`; visitors to "/" |
| `Layouts.ClientSection` | app/client/layout.tsx:12 | clients and admins see it; employees go to their store; visitors to "/" |
| `Layouts.ReportsSection` | app/reports/layout.tsx:12 | only admins see it; clients and employees go to their homes; visitors to "/" |
| `Layouts.StoreSection` | app/store/layout.tsx:12 | clients and admins see it; employees go to `/employee/store/…`, which is outside `/store`; visitors to "/" |
| `Layouts.AdminSection` | app/admin/layout.tsx:12 | only admins see it; clients and employees go to their homes; visitors to "/" |
| `Layouts.AdminSeesEverything` | app/reports/layout.tsx:12 | role 1 is admitted by all five layouts and shown every page |
| `Layouts.StoreLikeClient` | app/store/layout.tsx:12 | the store and the client section treat every visitor alike |
| `HomePage.AfterBrowserCheck` | app/page.tsx:10-20 | the flag is always set; the stored user is dropped exactly when one is stored and the flag is absent, and it is never added or replaced |
| `HomePage.CheckBrowserClosed` | app/page.tsx:10-20 | the stores after the check are those `AfterBrowserCheck` gives for the stores before it |
| `HomePage.LiveSessionKeepsUser` | app/page.tsx:13 | with the session flag present the stored user is left untouched |
| `HomePage.StaleSessionDropsUser` | app/page.tsx:13-16 | without the flag, no stored user survives the check |
| `HomePage.BrowserCheckIdempotent` | app/page.tsx:10-20 | running the check twice has the effect of running it once |
| `HomePage.FlagSetDisarmsCheck` | app/page.tsx:13-19 | once the session flag is set, the check leaves both stores as they are |
| `HomePage.ReopenAsAssembled` | auth/AuthContext.tsx:45-66 | a browser reopened without the flag, run in the application's order (provider load, provider flag, then the page's check), restores the stale user and keeps it stored |
| `HomePage.ReopenCheckedFirst` | app/page.tsx:13-19 | the same reopening with the check run before the provider reads the store restores no user and leaves none stored |

## Findings

| source | as written | input that shows it | evidently intended | confidence | as-written member | corrected member |
|---|---|---|---|---|---|---|
| app/page.tsx:9-23 | the stale-session check runs in the login page's effect; the page mounts only once `AuthProvider` has finished loading (auth/AuthContext.tsx:106), by which time the provider has loaded the stored user (45-56) and set `appSessionActive` (60-66), so the check always finds the flag | a browser reopened with a user under `user` in localStorage and no `appSessionActive` flag: the user is restored and stays stored | the check runs before the stored user is read, so a browser closed without logging out starts logged out | medium, not executed | `HomePage.ReopenAsAssembled` | `HomePage.ReopenCheckedFirst` |

## Left out

- Network calls: every `fetch` to the backend and its response handling (the dashboard's submit, the ticket and event lists, login and registration) are I/O against a backend outside this model.
- JavaScript `Date`: parsing a date string, time zones, invalid dates and the `catch` branches of the formatters. Timestamps are integers, and the getters' results are inputs.
- Browser and framework effects: `router.push` is modelled as a returned target. Left out are `alert`, `console`, `setTimeout`, focus handling, and the order in which React runs effects and re-renders. `HomePage.ReopenAsAssembled` and `HomePage.ReopenCheckedFirst` state their order of effects in their bodies and do not derive it from React.
- The root layout that places `AuthProvider` around every page is not part of this model. That the login page renders inside the provider follows from `LoginForm` calling `useAuth` (components/LoginForm.tsx:24), which throws outside it.
- `JSON.parse` of the stored user is either the user that `login` stored or text that does not parse. Stored text that parses to something other than a user (a number, `null`, an object missing fields) is not modelled.
- `JsText.Slice` takes only non-negative bounds; negative bounds, which count from the end in JavaScript, are not modelled (the code passes 0 and 11).
- `JsText.PadStart` takes a single fill character; longer pad strings are not modelled (the code pads with '0').
- Strings are sequences of Unicode scalar values, not of UTF-16 code units, so lengths and positions differ from JavaScript's for characters outside the Basic Multilingual Plane.
- `Number.prototype.toString` is modelled for integers only; exponent notation for very large values is not modelled.
- `toLowerCase` is modelled on ASCII and Latin-1 letters only. Other scripts' case mappings are not modelled.
- `AuthContext.UserRole` is the TypeScript type 0 | 1 | 2. A role outside it cannot be constructed here. In the code such a user would be sent to `/client/events`, and the client layout would refuse it.
- An employee without `eventId` is sent to `/employee/store/undefined`. This is modelled as the text "undefined", and nothing more is claimed about that page.
- `MyTickets.GroupTickets` lists the keys in first-seen order. JavaScript's `Object.values` lists array-index keys (integers from 0 to 2^32 − 2) in ascending order and every other key, negative ids included, in insertion order. Only membership, the count and the comparator order of the sorted result are claimed, and these do not depend on the key order.
- `MyTickets.SortByComparator` proves ordered-and-a-permutation. It makes no claim about the relative order of groups the comparator ties, which depends on the engine's sort.
- The browser truncates the phone field to its `maxLength` of 16 characters before the mask runs. The model masks any input.
- The sessionStorage flag keeps its modelled value "true"; clearing it when the browser closes is represented by a `sessionFlag` of `None` in the starting state.
- Form validation schemas, theming, toasts, static mock data, type declarations and rendering-only pages are outside the decision logic modelled here.
- The cart, checkout and order-queue logic is not part of this model: the source files that would decide it are not among those modelled.

