# Lead-management core, modelled in Dafny

This project models the logic of a small lead-management web application. Organisation members sign in and browse a feed of
sales leads. They can unlock a lead with credits, like or dislike it, assign it to a colleague and filter the feed by
country and score. An analytics page counts the leads and manages the team table.

The model is split into one module per source file of the core, plus shared helper modules:

- `Wrappers`: the `Option` type.
- `Seqs`: JavaScript's `filter`, `find`, `findIndex` and `slice` on sequences.
- `Text`: the JavaScript string operations the application uses, on `string = seq<char>`:
  - `trim` and `split(sep).pop()`;
  - `toLowerCase` and `includes`;
  - `replace(/\D/g, '')`;
  - `parseInt`, with `None` standing for `NaN`;
  - decimal formatting of integers.
- `Storage`: the three browser-store entries the sign-in flow uses (`receptoUsers`, `receptoLoggedUser`, `manualLogout`), as a class whose fields hold parsed documents.
- `Profiles` (`src/main.jsx`): the deterministic portrait URL and the seeding of the user document.
- `Login` (`src/pages/Login.jsx`, plus the logout transition of `src/components/LogoutModal.jsx`): credential lookup, the stored session, the prompt loop and the entry effect.
- `Dashboard` (`src/pages/Dashboard.jsx`): the lead record, the unlock/like/dislike/assign handlers and the feed filter. The page state is the class `LeadBoard`.
- `LeadCard` (`src/components/LeadCard.jsx`): the card's roster search, assign payload, avatar fallbacks, offered actions and score badge. The dropdown state is the class `AssignDropdown`.
- `FilterModal` (`src/components/FilterModal.jsx`): country toggling, the guarded sliders, the active-filter count and the country search. The editor state is the class `FilterPanel`.
- `Analytics` (`src/pages/Analytics.jsx`): the lead statistics, the team table updates, pagination, the badge colour and the action menu. The page state is the class `AnalyticsView`.

React state that a handler replaces (`setLeads`, `setCurrentUser`, `setScoreRange`, ...) is a field of a class, and the
handler is a method whose `ensures` gives the new state. The copy-on-write expressions those handlers build (`leads.map(...)`,
`filter`, `find`, `slice`) are functions, and the properties the application relies on are stated about those functions
and proved as lemmas.

Three behaviours of the code are worth knowing, because the model states them as the code has them:

- Unlock does not check `isLocked`, so a second unlock of the same lead charges its cost again (`Dashboard.UnlockChargesAgain`). Only the card, which shows no Unlock button on an unlocked lead, prevents it.
- Assigning a lead to an id that is not on the roster returns silently. `Dashboard.LeadBoard.Assign` reports it as `false` and changes nothing.
- A score that does not parse (`NaN`) makes both range comparisons false, so such a lead passes the score test (`Dashboard.ScoreInRange`).

## Model

| member | source | states |
|---|---|---|
| Seqs.Filter | src/pages/Dashboard.jsx:243-262 | `filter` keeps exactly the elements that satisfy the predicate, and never more than the input had |
| Seqs.FilterIsSubsequence | src/pages/Dashboard.jsx:243-262 | `filter` never reorders: its result is a subsequence of its input |
| Seqs.FilterPartition | src/pages/Analytics.jsx:188-189 | a filter and its complement split a list: their lengths add up to its length |
| Seqs.FilterLengthPointwise | src/pages/Analytics.jsx:188-189 | two lists on which the predicate agrees position by position keep equally many elements |
| Seqs.FilterFilter | src/pages/Analytics.jsx:188-205 | filtering a filtered list is one filter with both tests |
| Seqs.FilterMultiset | src/main.jsx:31 | a filter keeps every occurrence of a passing element and none of a failing one |
| Seqs.Remove | src/components/FilterModal.jsx:37 | `filter(y => y !== x)` removes every `x` and keeps every other element |
| Seqs.RemoveMultiset | src/components/FilterModal.jsx:37 | removing `x` removes exactly its occurrences from the multiset of elements |
| Seqs.RemoveAppended | src/components/FilterModal.jsx:35-41 | appending an absent element and removing it gives back the original list |
| Seqs.Find | src/pages/Dashboard.jsx:149-150 | `find` returns the first element satisfying the predicate, or nothing exactly when none does |
| Seqs.Slice | src/pages/Analytics.jsx:315-319 | `slice(start, end)` with in-range bounds is `s[start..end]`, and never longer than `end - start` |
| Text.Trim | src/pages/Dashboard.jsx:247 | `trim` returns the middle of the text: only white space is cut before and after it, and neither end of the result is white space |
| Text.TrimAddsNothing | src/pages/Dashboard.jsx:247 | a character missing from a text is missing from its trim |
| Text.TrimLeadingSpace | src/pages/Dashboard.jsx:247 | trimming `" India"` gives `"India"`: a single leading space is dropped from an already trimmed text |
| Text.LastSegment | src/pages/Dashboard.jsx:247 | `split(',').pop()` is the longest suffix without a comma, preceded by a comma when it is not the whole text |
| Text.TrimmedIsFixed | src/pages/Dashboard.jsx:247 | a text with no white space at either end is its own trim |
| Text.LastSegmentWhole | src/pages/Dashboard.jsx:247 | a location without a comma is its own last segment |
| Text.LastSegmentAfter | src/pages/Dashboard.jsx:247 | the text after the last separator is what `pop` returns |
| Text.StripNonDigits | src/main.jsx:31 | `replace(/\D/g, '')` keeps every digit as often as it occurs, in order, and nothing else |
| Text.ParseIntNaN | src/pages/Dashboard.jsx:255 | after leading white space and an optional sign, `parseInt` is `NaN` exactly when no digit follows; a negative result needs a minus sign |
| Text.ParseDigits | src/main.jsx:31 | `parseInt` of a digit string is its decimal value, and of the empty string `NaN` |
| Text.ParseNonNumeric | src/pages/Dashboard.jsx:255 | a text that starts with neither space, sign nor digit parses to `NaN` |
| Text.ParseIntToString | src/pages/Dashboard.jsx:255 | `parseInt(String(i)) == i` for every integer |
| Text.IntToStringInjective | src/main.jsx:39 | distinct integers are written differently |
| Profiles.ProfileNumber | src/main.jsx:31 | a string id becomes the value of its digits, or 1 when it has none or they are zero; a number id stays itself unless it is 0; a missing id is 1 |
| Profiles.Gender | src/main.jsx:34 | the folder is `men` exactly when the number is even |
| Profiles.ImageNumber | src/main.jsx:36 | `id % 90 + 1` is congruent to `id + 1` modulo 90, in 1..90 for a non-negative id and in -88..1 for a negative one |
| Profiles.RandomProfileImage | src/main.jsx:29-40 | the portrait URL starts with `https://randomuser.me/api/portraits/` and the folder the id's parity selects |
| Profiles.ImageUrlNamesPortrait | src/main.jsx:36-39 | after the folder the URL holds the portrait number `id % 90 + 1`, which `parseInt` reads back, followed by `.jpg?nocache=` and the id |
| Profiles.PortraitUrlNamesPortrait | src/main.jsx:36-39 | the same layout for the URL built from a number: portrait number, then `.jpg?nocache=`, then the number |
| Text.ParseIntThenText | src/main.jsx:31 | `parseInt` reads a formatted integer back even when text that does not start with a digit follows it |
| Profiles.JsRem | src/main.jsx:34-36 | JavaScript's `%` has the sign of the dividend, stays below the divisor in size, and differs from the dividend by a multiple of the divisor |
| Profiles.ImageUrlEndsWithNumber | src/main.jsx:39 | the portrait URL ends with `=` followed by the id's number |
| Profiles.ImageUrlDeterminesNumber | src/main.jsx:29-40 | two ids get the same URL only when they have the same number |
| Profiles.TextIdPortrait | src/main.jsx:31-36 | a string id always lands on a portrait in 1..90 of the folder its parity selects |
| Profiles.SeededUsers | src/main.jsx:43-56 | the user document after seeding: the default accounts when it was absent, otherwise unchanged |
| Profiles.SeedingIdempotent | src/main.jsx:43-56 | after seeding the user document exists, an existing one is kept, and seeding twice equals seeding once |
| Profiles.InitializeUsers | src/main.jsx:43-56 | the default accounts are written only when `receptoUsers` is absent |
| Login.FindUser | src/pages/Login.jsx:39-41 | the chosen account matches both username and password exactly and is the first that does; none is chosen exactly when none matches |
| Login.SessionOf | src/pages/Login.jsx:45-50 | the session carries the account's id, username, name and role |
| Login.UsersOf | src/pages/Login.jsx:35-36 | a missing user document reads as no accounts, a present one as its accounts |
| Login.SessionForgetsPassword | src/pages/Login.jsx:45-51 | the stored session holds the account's id, username, name and role, and does not depend on its password |
| Login.PromptLoop | src/pages/Login.jsx:27-62 | a cancelled username prompt, or a cancelled password prompt after a typed username, aborts; signing in yields some account's session; with no accounts it never signs in; it aborts only on a cancelled prompt |
| Login.SignInNeedsMatchingRound | src/pages/Login.jsx:35-58 | signing in happens only at a round whose typed username and password match an account, after typed rounds that all failed, with that account's session |
| Login.MatchingRoundSignsIn | src/pages/Login.jsx:35-62 | conversely, such a round signs in with that account's session |
| Login.FirstRoundSignsIn | src/pages/Login.jsx:39-58 | a round whose credentials match signs in as the first matching account |
| Login.FailedRoundRetries | src/pages/Login.jsx:59-62 | a failed round stores nothing and prompts again |
| Login.NoAccountsOnlyCancelEnds | src/pages/Login.jsx:35-36 | with a missing or empty user document every round fails, and the loop ends exactly at the first cancelled prompt |
| Login.ShowLoginPrompt | src/pages/Login.jsx:27-62 | the session is written only when a round signs in |
| Login.EntryFlag | src/pages/Login.jsx:15-22 | with a session the flag is untouched; without one a `'true'` flag is removed and any other value kept |
| Login.EntryRoute | src/pages/Login.jsx:15-17 | the page goes to the dashboard exactly when a session is stored |
| Login.EntryFlagIdempotent | src/pages/Login.jsx:15-22 | entering the page twice does no more than entering once |
| Login.Enter | src/pages/Login.jsx:8-25 | a stored session sends the user to the dashboard, and the flag changes as `EntryFlag` says |
| Login.Logout | src/components/LogoutModal.jsx:7-19 | logging out removes the session and sets the flag to `'true'` |
| Login.LogoutThenEnter | src/pages/Login.jsx:15-22 | after a logout the login page stays put and consumes the flag |
| Dashboard.FindLead | src/pages/Dashboard.jsx:149-150 | the lead found has the id and is in the list; none is found exactly when no lead has the id |
| Dashboard.UpdateLead | src/pages/Dashboard.jsx:168-170 | `leads.map(l => l.id === id ? f(l) : l)` changes exactly the leads with that id |
| Dashboard.FindAfterUpdate | src/pages/Dashboard.jsx:148-171 | after an id-preserving update, looking the id up finds the updated copy of the lead found before |
| Dashboard.Liked | src/pages/Dashboard.jsx:174-192 | like toggles the user in `likedBy`, removes them from `dislikedBy`, touches no other voter and no other field, and keeps the two lists exclusive |
| Dashboard.Disliked | src/pages/Dashboard.jsx:195-213 | dislike toggles the user in `dislikedBy`, removes them from `likedBy`, touches nothing else, and keeps the two lists exclusive |
| Dashboard.LikeTwice | src/pages/Dashboard.jsx:174-192 | pressing like twice leaves the user's like as it was and clears their dislike |
| Dashboard.UnlockLeads | src/pages/Dashboard.jsx:168-170 | unlock clears `isLocked` on the leads with the id and changes nothing else |
| Dashboard.LikeLeads | src/pages/Dashboard.jsx:174-192 | like changes only the leads with the id, and keeps every lead's voter lists exclusive |
| Dashboard.DislikeLeads | src/pages/Dashboard.jsx:195-213 | dislike changes only the leads with the id, and keeps every lead's voter lists exclusive |
| Dashboard.AssignLeads | src/pages/Dashboard.jsx:220-222 | assign stores the member on the leads with the id, preserves length and order, and changes nothing else |
| Dashboard.UnlockDecision | src/pages/Dashboard.jsx:149-158 | an unknown id is reported; too few credits is reported exactly when the cost exceeds them; otherwise the first matching lead's cost is charged, never more than the credits |
| Dashboard.UnlockChargesAgain | src/pages/Dashboard.jsx:148-171 | unlocking an already unlocked lead charges its cost again |
| Dashboard.UnlockedLeadIsUnlocked | src/pages/Dashboard.jsx:168-170 | after a charged unlock the lead is found again and is unlocked |
| Dashboard.Country | src/pages/Dashboard.jsx:247 | the country is the last comma-separated segment of the location with only its surrounding white space cut: it holds no comma and neither end is white space |
| Dashboard.CountryOfCityAndCountry | src/pages/Dashboard.jsx:247 | a `City, Country` location yields its country |
| Dashboard.ScoreInRange | src/pages/Dashboard.jsx:254-259 | no range or a score that is `NaN` passes; otherwise the parsed score passes exactly when it is inside the inclusive range |
| Dashboard.Matches | src/pages/Dashboard.jsx:243-262 | with no selected countries only the score test applies; otherwise the lead's country must also be selected |
| Dashboard.FilterLeads | src/pages/Dashboard.jsx:243-262 | the shown leads are exactly the matching ones, as a subsequence of the feed, each as often as it occurs there |
| Dashboard.NoFiltersShowAll | src/pages/Dashboard.jsx:26-29 | the starting filters show the whole feed, in order, when every score is in 0..100 or not a number |
| Dashboard.FilterByCountryExample | src/pages/Dashboard.jsx:245-251 | of a Mumbai lead and a London lead, selecting India keeps only the first |
| Dashboard.FilterByScoreExample | src/pages/Dashboard.jsx:254-259 | of leads scoring 99 and 50, a range starting at 60 keeps only the first |
| Dashboard.FilterIdempotent | src/pages/Dashboard.jsx:243-262 | filtering the shown leads again changes nothing |
| Dashboard.FindMember | src/pages/Dashboard.jsx:217-218 | the member found has the id and is on the roster; none is found exactly when no member has it |
| Dashboard.LeadBoard.constructor | src/pages/Dashboard.jsx:26-29 | the page starts with the starting filters |
| Dashboard.LeadBoard.Unlock | src/pages/Dashboard.jsx:148-171 | an unknown lead or too few credits change nothing; otherwise credits drop by the cost and the lead is unlocked; voter lists stay exclusive |
| Dashboard.LeadBoard.Like | src/pages/Dashboard.jsx:174-192 | the signed-in user's like is applied and voter lists stay exclusive |
| Dashboard.LeadBoard.Dislike | src/pages/Dashboard.jsx:195-213 | the signed-in user's dislike is applied and voter lists stay exclusive |
| Dashboard.LeadBoard.Assign | src/pages/Dashboard.jsx:216-223 | a member missing from the roster changes nothing; otherwise the roster entry is stored on the lead |
| Dashboard.LeadBoard.ApplyFilters | src/pages/Dashboard.jsx:238-240 | the applied filters become the active ones |
| Dashboard.LeadBoard.ClearFilters | src/pages/Dashboard.jsx:322 | clearing restores the starting filters |
| LeadCard.FilteredUsers | src/components/LeadCard.jsx:61-70 | an empty query lists the whole roster; otherwise exactly the members whose lower-cased name contains the lower-cased query, in roster order |
| LeadCard.FilteredUsersIsFilter | src/components/LeadCard.jsx:61-70 | the empty-query shortcut agrees with the plain filter |
| LeadCard.EmptyQueryMatchesAll | src/components/LeadCard.jsx:61-70 | every name contains the empty query |
| LeadCard.AssignPayload | src/components/LeadCard.jsx:90-105 | the payload is the chosen roster entry with `avatarUrl` set to its avatar when it has one, and otherwise to the portrait for the chosen id |
| LeadCard.AssignedUserImage | src/components/LeadCard.jsx:41-44 | no image without an assignee; otherwise the avatar, else `avatarUrl`, else the portrait for the assignee's id |
| LeadCard.PayloadImageMatchesRosterEntry | src/components/LeadCard.jsx:99-105 | the dashboard stores the roster entry rather than the payload, yet the card shows the same image |
| LeadCard.LeadAvatar | src/components/LeadCard.jsx:123-129 | the card shows the lead's avatar, else the portrait for the lead id |
| LeadCard.Actions | src/components/LeadCard.jsx:236-334 | Unlock exactly on a locked lead, View Details exactly on an unlocked one, Assign exactly on an unlocked unassigned one |
| LeadCard.NameMasked | src/components/LeadCard.jsx:138-143 | the name is masked exactly on a ReceptoNet lead that still offers Unlock, so never on an organisation lead |
| LeadCard.UnlockRemovesUnlockAction | src/components/LeadCard.jsx:236-249 | after a charged unlock the card offers no Unlock and shows the name unmasked |
| LeadCard.AssignRemovesAssignAction | src/components/LeadCard.jsx:251-262 | after assignment the card offers no Assign |
| LeadCard.ScoreBadge | src/components/LeadCard.jsx:336 | the badge is green exactly when the parsed score is at least 90 |
| LeadCard.ScoreBadgeOfNumber | src/components/LeadCard.jsx:336 | for a score written as a number `n` the badge is green exactly when `n >= 90` |
| LeadCard.AssignDropdown.Toggle | src/components/LeadCard.jsx:259-262 | the Assign button flips the dropdown and clears the search |
| LeadCard.AssignDropdown.Search | src/components/LeadCard.jsx:111-113 | typing sets the query |
| LeadCard.AssignDropdown.Choose | src/components/LeadCard.jsx:90-109 | choosing a listed member yields the payload, closes the dropdown and clears the search |
| FilterModal.Toggled | src/components/FilterModal.jsx:35-41 | a selected country is removed; an unselected one is appended at the end; other countries are unaffected |
| FilterModal.ToggleKeepsDistinct | src/components/FilterModal.jsx:35-41 | toggling keeps the selection free of duplicates |
| FilterModal.ToggleTwiceAbsent | src/components/FilterModal.jsx:35-41 | toggling an unselected country twice restores the selection exactly |
| FilterModal.ToggleTwicePresent | src/components/FilterModal.jsx:35-41 | toggling a selected country twice moves it to the end, a permutation of the selection |
| FilterModal.WithMin | src/components/FilterModal.jsx:256-262 | a new minimum is taken only when it does not pass the maximum, so an ordered range stays ordered |
| FilterModal.WithMax | src/components/FilterModal.jsx:279-285 | a new maximum is taken only when it is not below the minimum, so an ordered range stays ordered |
| FilterModal.SlidersKeepOrder | src/components/FilterModal.jsx:256-285 | any sequence of slider moves keeps `0 <= min <= max <= 100` |
| FilterModal.ActiveFilterCount | src/components/FilterModal.jsx:63-64 | one per selected country plus one exactly when the range is narrower than 0..100; zero exactly when nothing is filtered |
| FilterModal.FilteredCountries | src/components/FilterModal.jsx:31-33 | exactly the countries whose lower-cased name contains the lower-cased search, in display order |
| FilterModal.EmptySearchListsAll | src/components/FilterModal.jsx:31-33 | an empty search lists every country |
| FilterModal.SearchIgnoresCase | src/components/FilterModal.jsx:18-33 | searching `IND` finds India |
| FilterModal.FilterPanel.constructor | src/components/FilterModal.jsx:3-7 | the editor starts from the initial filters, with the full range when none is given |
| FilterModal.FilterPanel.Open | src/components/FilterModal.jsx:10-15 | opening re-reads selection and range from the filters in force |
| FilterModal.FilterPanel.ToggleLocation | src/components/FilterModal.jsx:35-41 | the selection becomes the toggled selection |
| FilterModal.FilterPanel.SetMin | src/components/FilterModal.jsx:256-262 | the minimum slider applies `WithMin` and keeps the range ordered |
| FilterModal.FilterPanel.SetMax | src/components/FilterModal.jsx:279-285 | the maximum slider applies `WithMax` and keeps the range ordered |
| FilterModal.FilterPanel.ClearAll | src/components/FilterModal.jsx:55-58 | nothing selected, full range, and no active filter left |
| FilterModal.FilterPanel.ClearLocations | src/components/FilterModal.jsx:154 | the Clear link empties the selection |
| FilterModal.FilterPanel.ResetScore | src/components/FilterModal.jsx:229 | the Reset link restores the full range |
| FilterModal.FilterPanel.SetSearch | src/components/FilterModal.jsx:173 | typing sets the search text |
| FilterModal.FilterPanel.ClearSearch | src/components/FilterModal.jsx:51-53 | clearing the search lists every country again |
| FilterModal.FilterPanel.Apply | src/components/FilterModal.jsx:43-49 | apply emits exactly the selected countries and the current range |
| FilterModal.ClearAllThenApply | src/components/FilterModal.jsx:43-58 | clearing and applying hands the dashboard its starting filters |
| FilterModal.OpenThenApply | src/components/FilterModal.jsx:10-15 | opening on the filters in force and applying at once changes nothing |
| Analytics.Aggregate | src/pages/Analytics.jsx:184-227 | every count is the number of leads of its group that pass its test (unlocked, locked, liked, disliked, assigned, contacted, not contacted); the group totals add up to the number of leads and each split adds up to its total |
| Analytics.RefreshedStats | src/pages/Analytics.jsx:184-227 | an empty lead list leaves the statistics as they were; a non-empty one replaces them with the counts `Aggregate` computes from it, which add up to the number of leads; a refresh keeps them consistent |
| Analytics.SameGroupsSameTotals | src/pages/Analytics.jsx:188-189 | the group totals depend only on which leads are ReceptoNet leads |
| Analytics.HandlersKeepTotals | src/pages/Analytics.jsx:188-189 | none of the dashboard's four handlers moves a lead between the two groups |
| Analytics.RemoveFromTeam | src/pages/Analytics.jsx:289-296 | the members with the id get status and role `Removed`; nothing else changes; length and order are kept |
| Analytics.RemoveTwice | src/pages/Analytics.jsx:289-296 | removing a member twice equals removing once |
| Analytics.RoleChanged | src/pages/Analytics.jsx:299-307 | only the selected member's rows get the new role; without a selection nothing changes |
| Analytics.TotalPages | src/pages/Analytics.jsx:312 | the page count is `ceil(n / 5)` |
| Analytics.PageItems | src/pages/Analytics.jsx:315-319 | page `p` shows rows `(p-1)*5` up to `p*5` (cut at the end of the table), never more than five |
| Analytics.EveryRowOnItsPage | src/pages/Analytics.jsx:310-319 | row `i` is row `i % 5` of page `i / 5 + 1`, and that page exists |
| Analytics.PagesInRangeAreFull | src/pages/Analytics.jsx:310-319 | every page from 1 to the last shows at least one row |
| Analytics.PrevPage | src/pages/Analytics.jsx:745 | Previous goes back one page, but not before page 1 |
| Analytics.NextPage | src/pages/Analytics.jsx:776 | Next goes on one page, but not past the last |
| Analytics.PagingStaysInRange | src/pages/Analytics.jsx:745-776 | from a page in range both buttons stay in range, and Next then Previous comes back |
| Analytics.AssignedBadgeColor | src/pages/Analytics.jsx:322-326 | orange exactly from 30, blue exactly from 15 to 29, green exactly below 15 |
| Analytics.BadgeMonotone | src/pages/Analytics.jsx:322-326 | more assignments never give a lower badge |
| Analytics.ToggleMenu | src/pages/Analytics.jsx:276-278 | the menu opens for the member unless it was already open for them, in which case it closes |
| Analytics.ToggleMenuTwice | src/pages/Analytics.jsx:276-278 | toggling the same member twice restores a closed menu |
| Analytics.AnalyticsView.constructor | src/pages/Analytics.jsx:56-148 | the page starts on page 1 with the initial team and consistent initial statistics |
| Analytics.AnalyticsView.Refresh | src/pages/Analytics.jsx:184-227 | the statistics become the refreshed ones and stay consistent |
| Analytics.AnalyticsView.ToggleActionMenu | src/pages/Analytics.jsx:276-278 | the menu state becomes the toggled one |
| Analytics.AnalyticsView.ManageRole | src/pages/Analytics.jsx:281-286 | the member with the id (if any) is selected, the role dialog opens and the menu closes |
| Analytics.AnalyticsView.RemoveMember | src/pages/Analytics.jsx:289-296 | the member is marked removed, the menu closes, and the page stays in range |
| Analytics.AnalyticsView.ChangeRole | src/pages/Analytics.jsx:299-307 | the selected member's role changes and the page stays in range |
| Analytics.AnalyticsView.CloseRoleModal | src/pages/Analytics.jsx:853-862 | Cancel and Save close the dialog |
| Analytics.AnalyticsView.Previous | src/pages/Analytics.jsx:745 | Previous keeps the page in range |
| Analytics.AnalyticsView.Next | src/pages/Analytics.jsx:776 | Next keeps the page in range |
| Analytics.AnalyticsView.GoToPage | src/pages/Analytics.jsx:760-763 | a numbered button selects its page, which is in range |

## Left out

- Reading and writing `localStorage`/`sessionStorage` as text is not modelled. This covers `JSON.parse` failures and the `storage` event listener. Stored documents are parsed values held by `Storage.Store`, or are passed in and out of the functions. The lead list persisted by the dashboard is the `leads` field of `Dashboard.LeadBoard`.
- `prompt`, `alert`, `setTimeout`, `navigate`, `console.log`, outside-click listeners and element measurement are browser I/O. The prompt replies are a parameter of `Login.PromptLoop`, and navigation is the returned `Login.Route`.
- `generateTimeSeriesData` and the random avatars of the team table are not modelled, because they are built on `Math.random`.
- The progress-bar percentages are not modelled. They are floating-point divisions, and they give `NaN` when a group total is 0.
- `getProfileImage` (`src/main.jsx:21-26`) is not modelled: it is unused, and applying `%` to a string id gives `NaN`.
- `Dashboard.Lead` holds `unlockCost` as a natural number, so a missing or non-numeric cost, which would be `NaN` arithmetic on credits, is not modelled. The seed data stores the cost as numeric text such as `'3'`.
- `Text.ParseInt` does not model `parseInt`'s hexadecimal prefix, and does not model digits outside ASCII.
- `Text.Lower` does not model lower-casing outside ASCII.
- `Text.IsSpace` covers the ASCII white space, no-break space, byte-order mark and the line and paragraph separators U+2028 and U+2029, but not the other Unicode space separators (category Zs, such as U+2000 to U+200A and U+3000) that `trim` and `parseInt` also skip.
- Numbers are unbounded integers: JavaScript's loss of precision on very long digit strings is not modelled.
- `Profiles.ProfileNumber` takes a string id, an integer or nothing. Fractional, `NaN` and non-number object ids are not modelled.
- The descriptive fields of leads and team members (description, group, organisation, times, email, join date, generated and unlocked counts) are not modelled, because no modelled logic reads them.
- `Dashboard.LeadBoard` keeps only the credits and the id of the current user; name, role and organisation are never changed.
- The card's `handleUnlock`, `handleLike` and `handleDislike` only forward the lead id to the dashboard. They are the `Dashboard.LeadBoard` methods.
- The cached portraits of roster members in the card (`cachedOrgUserImages`) are `Profiles.RandomProfileImage` of each member id, and are not modelled separately.
- `Analytics.AnalyticsView.Refresh` takes the lead list that `getLeadsFromStorage` returns; an absent entry is the empty list.
- `src/components/Header.jsx`, `src/components/Sidebar.jsx` and `src/App.jsx` are not part of this model. They hold layout, routing and property wiring only.
- Snapshot isolation of assignment holds by construction: leads store `Dashboard.OrgUser` values, so later roster changes cannot reach them.
