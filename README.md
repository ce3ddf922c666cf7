# User directory page: state and event handlers

This project models the state behind the single page of the user-management
front end (`src/App.jsx`). The page holds a search term, three filter lists
(gender, domain, availability), the current page number, the page of users last
fetched from the listing service, and the team the operator is assembling. Five
kinds of event change that state:

- typing in the search box;
- ticking or clearing a filter checkbox;
- the Next and Prev pagination buttons;
- "Add to Team" and "Remove";
- a finished fetch of users.

The model is one small state machine, in four modules:

- `Seqs` (`seqs.dfy`) models the JavaScript array operations the handlers compute with: `some` (`Any`),
  `filter` (`Filter`) and `join` (`Join`). It also defines `Split`, the inverse of
  `join`, which shows that a comma-joined filter list can be read back.
- `Team` (`team.dfy`) holds the user record, the admission rule of `addToTeam` (`Admit`), removal by id
  in `removeUserFromTeam` (`Dismiss`), and the team invariant: at most one member
  per `domain` and at most one per `availability` value. Both operations preserve it.
- `Query` (`query.dfy`) holds the filter lists and their toggling in `handleFilterChange` (`Toggle`,
  `ToggleFilter`), and the ordered key/value parameters `fetchUsers` builds
  (`RequestParams`). `RequestParamsRoundTrip` proves that the parameters
  give back the page, search term and filters they came from, provided no filter
  value contains a comma and no filter list is the single empty value. In those
  two cases information is lost (`EmptyValueIsLost`, `CommaValueIsLost`).
- `Directory` (`app.dfy`) holds the component itself: class `App` with the five state fields, a
  constructor for the initial state, and one method per handler. Each method
  states the new value of the fields it `modifies`; its frame says every other
  field is unchanged. Every method keeps `Valid()`, which says that the page is at least 1
  and the team invariant holds. So, starting from the initial state, no sequence
  of events can take the page below 1 or break the team invariant.

Record fields `domain`, `availability` and `available` are modelled as `Attr`
(`Absent | Present(text)`), because a missing JSON field reads as `undefined` in
JavaScript, and `undefined === undefined` holds. The admission rule compares
`availability`, while the user card displays `available` (App.jsx lines 49 and 90).
`Team.AbsentAvailabilityRejected` and `Team.AbsentAvailabilityLimitsTeam` show
what this means if records carry no `availability` field: a candidate without it
is turned away by a team whose first member lacks it too, and no valid team holds
two such members.

Behaviour of the code worth noting:

- Checking a filter value appends it even when it is already listed
  (App.jsx:43); the lists are not sets. `Query.CheckTwiceDuplicates` proves
  that a value checked twice is listed twice.
- There is no request sequencing and no discarding of stale responses. A fetch
  outcome is applied whenever it arrives (`App.FetchUsers`).
- `addToTeam` returns nothing; only the new team value shows whether the
  candidate was admitted.
- Page numbers are guarded only by the Prev button being disabled on page 1
  (App.jsx:112). There is no upper bound and no other check.

## Model

| member | source | states |
|---|---|---|
| `Seqs.Any` | src/App.jsx:49 | `some` is true exactly when some element satisfies the predicate |
| `Seqs.Filter` | src/App.jsx:55 | `filter` keeps exactly the elements that pass: every result element passes and comes from the input, every passing input element is kept, and the result is no longer than the input |
| `Seqs.FilterConcat` | src/App.jsx:43-55 | filtering a concatenation is the concatenation of the filtered parts, so `filter` keeps the survivors in their original relative order |
| `Seqs.FilterCount` | src/App.jsx:43 | after filtering, each kept value occurs as often as before and each dropped value does not occur at all |
| `Seqs.FilterAllKept` | src/App.jsx:55 | when every element passes, `filter` returns the same sequence |
| `Seqs.Join` | src/App.jsx:21-23 | `join(',')`: no parts give the empty string, the text starts with the first part, holds a separator once there are two parts, and consists only of separators and characters of the parts; `Seqs.SplitJoin` and `Query.ParseJoin` fix its meaning as an invertible encoding |
| `Seqs.SplitJoin` | src/App.jsx:21-23 | splitting a comma join of a non-empty list of separator-free values gives back that list |
| `Team.Admit` | src/App.jsx:48-52 | the candidate is appended at the end when no member shares its domain and none shares its availability; otherwise the team is unchanged; the team invariant is preserved |
| `Team.Dismiss` | src/App.jsx:54-56 | afterwards no member has the id, every member with another id is still there, nothing new appears, an absent id leaves the team unchanged, and the team invariant is preserved |
| `Team.DismissConcat` | src/App.jsx:55 | removal from a concatenation is removal from each part, so surviving members keep their relative order |
| `Team.FilterKeepsInvariant` | src/App.jsx:55 | removing members by any filter cannot break the one-per-domain, one-per-availability invariant |
| `Team.AbsentAvailabilityRejected` | src/App.jsx:49-50 | a candidate without `availability` is not admitted to a team whose first member also lacks it, because `undefined === undefined` |
| `Team.AbsentAvailabilityLimitsTeam` | src/App.jsx:49 | two members that both lack `availability` compare equal on it, so no team with two such members satisfies the invariant |
| `Query.Filters.With` | src/App.jsx:41-43 | the spread update `{...prevFilters, [filterType]: list}`: the named dimension holds the new list and the other two dimensions keep theirs |
| `Query.Toggle` | src/App.jsx:43 | checking appends the value at the end and keeps the old list as a prefix; clearing removes every occurrence of the value and keeps the count of every other value |
| `Query.ToggleFilter` | src/App.jsx:41-44 | the toggled dimension gets the toggled list and the other two dimensions are untouched |
| `Query.ClearConcat` | src/App.jsx:43 | clearing a value from a concatenation clears it from each part, so the remaining values keep their order |
| `Query.CheckTwiceDuplicates` | src/App.jsx:43 | checking a value that is already listed leaves it listed at least twice |
| `Query.KeyNamesDistinct` | src/App.jsx:17-24 | the six parameter names are pairwise different |
| `Query.RequestParams` | src/App.jsx:17-24 | the keys are page, limit, searchTerm, gender, domain, availability, in that order; page carries the current page, limit is 20, searchTerm the search text, and each filter key its list joined with commas |
| `Query.ParseJoin` | src/App.jsx:21-23 | any list whose values hold no comma and that is not the single empty value is recovered from its comma join, the empty list included |
| `Query.RequestParamsRoundTrip` | src/App.jsx:17-24 | decoding the parameters gives back the page, search term and all three filter lists whenever no filter value contains a comma and no list is the single empty value |
| `Query.EmptyValueIsLost` | src/App.jsx:21-23 | a filter list holding only the empty string sends the same parameters as an empty list |
| `Query.CommaValueIsLost` | src/App.jsx:21-23 | a value `x,y` joins to the same text as the two values `x` and `y`, so comma-holding values are not recoverable |
| `Directory.App.constructor` | src/App.jsx:5-9 | the initial state has an empty search term, no filters, no users, an empty team and page 1, and satisfies the invariant |
| `Directory.App.FetchUsers` | src/App.jsx:15-31 | the request is built from the state at the call; on success `users` becomes the response's results, and on failure `users` keeps its old value |
| `Directory.App.HandleSearch` | src/App.jsx:34-37 | the search term becomes the new text and the page becomes 1; filters, users and team are untouched |
| `Directory.App.HandleFilterChange` | src/App.jsx:39-46 | the filters are toggled in one dimension and the page becomes 1, whatever it was; search, users and team are untouched |
| `Directory.App.AddToTeam` | src/App.jsx:48-52 | the team becomes `Admit` of the old team, and the invariant is kept |
| `Directory.App.RemoveUserFromTeam` | src/App.jsx:54-56 | the team becomes `Dismiss` of the old team by the user's id, and the invariant is kept |
| `Directory.App.HandleNextPage` | src/App.jsx:102-104 | the page goes up by one, with no upper bound |
| `Directory.App.HandlePrevPage` | src/App.jsx:106-112 | the page goes down by one, except on page 1, where the button is disabled and the page stays 1, so the page never drops below 1 |

## Left out

- Rendering: the JSX markup, `TeamDetails`, the user cards and the `Pagination` markup (App.jsx:58-98, 110-115) are presentation. The handlers are modelled directly on `App`. The `currentPage` prop and the `paginate` callback that `Pagination` receives are not modelled separately.
- The HTTP GET and `async`/`await` (App.jsx:26) are network I/O. The outcome is an input to `App.FetchUsers`, and the request is returned as its parameter list.
- Percent-encoding by `URLSearchParams` (App.jsx:17) is not modelled: the model stops at the ordered key/value list. The page and the limit are kept as numbers rather than their decimal text, and keys are a small datatype whose `Name` gives the text sent.
- The `useEffect` refetch on changes to `currentPage` or `filters` (App.jsx:11-13) depends on React's change detection and scheduling. So does the fact that a handler sees the state of the render it was created in. Events are modelled as running one after another, each seeing the state the previous one left.
- `console.error` logging on failure (App.jsx:29) is not modelled.
- `Directory.App.FetchUsers`: a successful response without a `results` field would set `users` to `undefined`, which the rendering tolerates (`users?.map`). The model assumes a successful response carries a list of user records.
- JSON field types are reduced: `id` is an integer, `domain`, `availability` and `available` are text or absent, and names and gender are text.
