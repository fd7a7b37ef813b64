# Random chat and blog: a Dafny model

This project models the core of a random-chat web application with a blog.

**The chat client** (`ChatApp.tsx`) runs a matchmaking protocol against three shared tables:

- `user_sessions`, where each session is `waiting`, `connecting` or `matched`;
- `chat_rooms`, whose rows have an end time once a chat is over;
- `messages`.

A client:

- logs in by inserting its session;
- searches by sweeping stale rooms, ending its own active rooms, marking itself `connecting`, and picking the oldest other `connecting` session;
- claims that session, creates a room with the two ids in canonical order, and retries on an error inside the claim;
- otherwise waits and is found later through its own status update;
- exchanges messages, and disconnects.

The model is a `Store` class holding the three tables. Several `ChatClient` objects share it. Each handler is a method that issues the same store calls in the same order as the component. Every store call takes the success flag the backend would report.

The protocol keeps a store invariant, proved for each handler under the condition stated in its contract:

- a session is in at most one active room;
- a session that is still `connecting` is in none;
- every room lists its two members in canonical order.

A two-client scenario proves that the two clients end up in the same room, each showing the other's name.

**The blog** consists of:

- the query that `getPosts` builds and how it formats the rows (`blogService.ts`);
- the sidebar navigation and its slug functions;
- the pagination of `BlogPostList`;
- the page state of `BlogPage` and `BlogHomePage`, both driven by URL parameters;
- the search box with its popular-search suggestions.

URL parameters are a `map<string, string>` (`SearchParams`). The JavaScript string built-ins are modelled on ASCII in the `Text` module: `trim`, `toLowerCase`, `includes`, `<`, `toString` and `parseInt`.

Modules:

| module | models |
|---|---|
| `Wrappers` | `Option` |
| `Text` | the string built-ins used by the components |
| `Numbers` | `Math.min`, `Math.max`, `Math.ceil` of a quotient |
| `SearchParams` | `URLSearchParams.get` and JavaScript truthiness of its values |
| `ChatStore` | the three tables, their updates, the store invariant, the `Store` class |
| `ChatApp` | `ChatApp.tsx`: the `ChatClient` class and its handlers |
| `BlogService` | `blogService.ts` |
| `BlogNavigation` | `BlogNavigation.tsx` |
| `BlogPostList` | `BlogPostList.tsx` |
| `BlogPage` | `BlogPage.tsx` |
| `BlogHomePage` | `BlogHomePage.tsx` |
| `BlogSearch` | `BlogSearch.tsx` |

## Model

| member | source | states |
|---|---|---|
| Text.Trim | src/components/blog/BlogSearch.tsx:30-31 | `trim` returns a slice of its input. Everything cut off at either end is whitespace, the slice neither starts nor ends with whitespace, and it is empty exactly when the input is all whitespace. |
| Text.TrimIdempotent | src/components/blog/BlogSearch.tsx:31 | Trimming twice changes nothing beyond the first trim. |
| Text.TrimKeeps | src/components/ChatApp.tsx:272-280 | A string that neither starts nor ends with whitespace is unchanged by `trim`. |
| Text.ToLower | src/components/blog/BlogSearch.tsx:92 | `toLowerCase` keeps the length and lowers each letter where it stands. |
| Text.ToLowerIdempotent | src/components/blog/BlogSearch.tsx:92 | Lower-casing is idempotent. |
| Text.ContainsAt | src/components/blog/BlogSearch.tsx:92 | `includes` holds exactly when the substring occurs at some offset. |
| Text.LessIrreflexive | src/components/ChatApp.tsx:391-392 | The string `<` used to order room members is irreflexive. |
| Text.LessAsymmetric | src/components/ChatApp.tsx:391-392 | The string `<` is asymmetric. |
| Text.LessTotal | src/components/ChatApp.tsx:391-392 | Of two different strings, one is smaller. |
| Text.LessTransitive | src/components/ChatApp.tsx:391-392 | The string `<` is transitive. |
| Text.NatToString | src/pages/BlogHomePage.tsx:84 | `toString` of a natural number is a non-empty string of digits. |
| Text.NatToStringValue | src/pages/BlogHomePage.tsx:84 | The digits of `toString` denote the number. |
| Text.ParseMinus | src/pages/BlogHomePage.tsx:26 | A leading `-` makes `parseInt` negate the number read after it, and gives NaN when no digit follows. |
| Text.ParseNegatedDigits | src/pages/BlogHomePage.tsx:26 | A `-` followed only by digits parses to minus the value of those digits. |
| Text.ParseIntOne | src/pages/BlogHomePage.tsx:26 | The default page text "1" parses to 1. |
| Text.IntToStringRoundTrip | src/pages/BlogHomePage.tsx:26 | `parseInt(n.toString(), 10)` gives back `n` for every integer of the model; JavaScript numbers behave so for safe integers, as "## Left out" says. |
| Text.IntToString | src/pages/BlogHomePage.tsx:84 | `toString` of an integer is non-empty, and starts with `-` exactly for a negative number. |
| Text.ParseInt | src/pages/BlogHomePage.tsx:26 | `parseInt(_, 10)`; `IntToStringRoundTrip`, `ParseMinus` and `ParseNegatedDigits` state what it returns. |
| Text.Contains | src/components/blog/BlogSearch.tsx:92 | `includes`; `ContainsAt` proves it holds exactly when the substring occurs at some offset. |
| Text.Less | src/components/ChatApp.tsx:391-392 | `<` on strings; the four lemmas after it prove it a strict total order. |
| Text.IsSpace | src/components/blog/BlogSearch.tsx:31 | The ASCII characters that `trim` and `\s` treat as whitespace. |
| Numbers.CeilDiv | src/components/blog/BlogPostList.tsx:37 | `Math.ceil(a / b)` for a positive divisor is the unique `r` with `(r - 1) * b < a <= r * b`. |
| Numbers.CeilDivPositive | src/components/blog/BlogPostList.tsx:37-38 | For a non-negative count the page count is non-negative, at least one exactly when the count is positive, and above one exactly when the count exceeds one page. |
| SearchParams.Get | src/pages/BlogHomePage.tsx:27-29 | `get` yields a value exactly when the key is present, and then the stored value. |
| SearchParams.Truthy | src/pages/BlogHomePage.tsx:48-50 | `get(key)` with the `undefined` fallback is defined exactly when the value is present and non-empty. |
| SearchParams.Present | src/pages/BlogHomePage.tsx:95 | A parameter is truthy when it is present and not empty; `Truthy` is defined exactly then. |
| ChatStore.PartnerOf | src/components/ChatApp.tsx:111 | The partner is a member of the room. A member asking gets the other member, or itself in a self-room. |
| ChatStore.Canonical | src/components/ChatApp.tsx:391-392 | A new room holds exactly the two ids. For different ids they are strictly ordered. |
| ChatStore.NewRoomPartners | src/components/ChatApp.tsx:388-398 | A new room for two different sessions is active, holds both, and shows each member the other as its partner. |
| ChatStore.CanonicalSymmetric | src/components/ChatApp.tsx:391-392 | Either member computing the order gets the same pair. |
| ChatStore.DisplayName | src/components/ChatApp.tsx:123 | The shown name is never empty. Any name other than "Unknown" is the username the lookup found. |
| ChatStore.SetStatus | src/components/ChatApp.tsx:340-346 | The status update changes only the row of that id: its status, and its timestamp when one is given. All other rows are unchanged. |
| ChatStore.SetStatusAgain | src/components/ChatApp.tsx:340-346 | Issuing the same status update twice leaves the rows as one update leaves them. |
| ChatStore.SetStatusIf | src/components/ChatApp.tsx:366-373 | The guarded update acts only when the row still has the expected status; otherwise nothing changes. |
| ChatStore.OldestExists | src/components/ChatApp.tsx:356-357 | Every non-empty set of sessions has one whose `updated_at` is least. |
| ChatStore.SelectOldestConnecting | src/components/ChatApp.tsx:351-357 | The partner query returns a session other than the caller that is `connecting`, with no such session older. It returns nothing only when no other session is `connecting`. |
| ChatStore.EndRoomsOf | src/components/ChatApp.tsx:331-337 | Every active room of the caller is ended now and every other room is untouched. Afterwards the caller has no active room. |
| ChatStore.SweepStale | src/components/ChatApp.tsx:309-320 | Rooms still active and older than a day are ended now, and all others are untouched. Afterwards no room is stale. |
| ChatStore.FirstActiveRoomOf | src/components/ChatApp.tsx:102-107 | The `limit(1)` lookup finds an active room of the session. The query has no `order`, so the store may return any matching row; the model picks the one with the lowest index, and `FirstActiveIsTheActiveRoom` shows the choice does not matter under the invariant. It finds nothing only when the session has no active room. |
| ChatStore.OnlyEndsPreservesInv | src/components/ChatApp.tsx:331-337 | Ending rooms never breaks the store invariant. |
| ChatStore.SetStatusPreservesInv | src/components/ChatApp.tsx:340-346 | A status update keeps the invariant unless it marks as `connecting` a session that is in an active room. |
| ChatStore.FirstActiveIsTheActiveRoom | src/components/ChatApp.tsx:102-107 | Under the invariant, the room lookup finds the one active room the session is in. |
| ChatStore.AddRoomPreservesInv | src/components/ChatApp.tsx:388-396 | A new room for two different sessions keeps the invariant when neither has an active room and neither is still `connecting`. |
| ChatStore.Store.InsertSession | src/components/ChatApp.tsx:277-283 | A successful insert adds a `waiting` session; a failed one changes nothing. The invariant is kept. |
| ChatStore.Store.UpdateStatus | src/components/ChatApp.tsx:340-346 | The session table becomes `SetStatus` of the old one on success and is unchanged on failure. The invariant is kept under `SetStatusPreservesInv`'s side condition. |
| ChatStore.Store.UpdateStatusIf | src/components/ChatApp.tsx:366-373 | The guarded update on success; the invariant is kept. |
| ChatStore.Store.EndActiveRoomsOf | src/components/ChatApp.tsx:331-337 | The room table becomes `EndRoomsOf` of the old one on success; the invariant is kept. |
| ChatStore.Store.SweepStaleRooms | src/components/ChatApp.tsx:313-319 | The room table becomes `SweepStale` of the old one on success; the invariant is kept. |
| ChatStore.Store.EndRoom | src/components/ChatApp.tsx:516-521 | Only the given room gets its end time; the invariant is kept. |
| ChatStore.Store.InsertRoom | src/components/ChatApp.tsx:388-398 | On success the room is appended and its index returned; on failure nothing changes and no id is returned. |
| ChatStore.Store.InsertMessage | src/components/ChatApp.tsx:607-614 | On success the message is appended; the other tables are unchanged. |
| ChatApp.Truncate | src/components/ChatApp.tsx:668 | An input with a `maxLength` keeps a prefix of the typed value. A value within the limit is kept whole, and a longer one is cut to exactly the limit. |
| ChatApp.NextDots | src/components/ChatApp.tsx:45-48 | The indicator grows by one dot up to three, then goes back to empty. |
| ChatApp.DotsCycle | src/components/ChatApp.tsx:45-48 | The indicator stays among the four states and returns to its start after four ticks. |
| ChatApp.PassWithoutCandidateQueues | src/components/ChatApp.tsx:421-429 | A pass in which no other session is `connecting` queues the caller. |
| ChatApp.PassWithOneCandidateMatches | src/components/ChatApp.tsx:361-403 | A pass with exactly one other `connecting` session and successful calls matches the caller with that session, using that session's username. |
| ChatApp.OnlyEndsTransitive | src/components/ChatApp.tsx:328-337 | Two room updates that only end rooms compose to one that only ends rooms. |
| ChatApp.PreparedOnlyEnds | src/components/ChatApp.tsx:327-337 | The sweep followed by ending the caller's rooms only ends rooms. When the second call succeeds, the caller has no active room left. |
| ChatApp.ChatClient.constructor | src/components/ChatApp.tsx:19-28 | A client starts on the login screen with empty inputs and no session, room or partner. |
| ChatApp.ChatClient.EditUsername | src/components/ChatApp.tsx:662-668 | The username input holds the typed value cut to 20 characters. |
| ChatApp.ChatClient.EditMessage | src/components/ChatApp.tsx:820-826 | The message input holds the typed value cut to 500 characters. |
| ChatApp.ChatClient.Login | src/components/ChatApp.tsx:271-306 | A trimmed username shorter than two characters changes nothing. Otherwise the new id is taken and the trimmed name is inserted as `waiting`. The client moves to `waiting` only when the insert succeeded. The invariant is kept. |
| ChatApp.ChatClient.CleanupOldChats | src/components/ChatApp.tsx:309-320 | Stale rooms are ended on success and nothing else changes; the invariant is kept. |
| ChatApp.ChatClient.Connect | src/components/ChatApp.tsx:322-485 | The passes of `handleConnect` form a `ConnectTrace`: every pass before the last one retries (line 419) and leaves the sessions and rooms recorded in the ghost `retries`, including the sessions a failed claim left `matched`. The last pass gives the result, a retry only when the outcomes ran out. The client ends `connected` exactly on a match and `searching` otherwise, and `isConnecting` stays set only on a final retry. A match points the client at the last room, with the partner's name and no messages. The message table is untouched. The invariant is kept when no pass silently failed to end rooms or to mark the caller matched. |
| ChatApp.ConnectTraceLast | src/components/ChatApp.tsx:322-485 | A pass with a final result, or one that uses up the outcomes, is a whole run of `handleConnect`. |
| ChatApp.ConnectTraceRetry | src/components/ChatApp.tsx:415-419 | A retrying pass followed by a run of the later passes, from the state the retry left, is a run. |
| ChatApp.PassRooms | src/components/ChatApp.tsx:327-403 | One pass adds a room exactly on a match, at the end, for the caller and a different partner in canonical order. Earlier rooms are only ended. After a successful room-ending call the caller has no other active room. |
| ChatApp.ConnectTraceRooms | src/components/ChatApp.tsx:322-485 | A whole run of passes does the same to the rooms as one pass: one room exactly on a match, earlier rooms only ended. On a match, when every pass ended the caller's rooms successfully, the caller has no other active room. |
| ChatApp.AllKeepInvariantTail | src/components/ChatApp.tsx:415-419 | The retry hands the remaining outcomes over: when every pass keeps the invariant, so do the first pass and the later ones. |
| ChatApp.ChatClient.Prepare | src/components/ChatApp.tsx:327-348 | After the sweep, the ending of the caller's rooms and the `connecting` update, the store is as those three calls make it. The caller has no active room when the second call succeeded. |
| ChatApp.ChatClient.Claim | src/components/ChatApp.tsx:366-398 | A room is created exactly when the partner claim and the insert succeed. Both sessions are then marked `matched`, partner first. When the insert fails after a successful claim, the partner, and the caller if its own update succeeded, are left `matched` with no room; when the claim fails, the sessions are unchanged. The invariant is kept when the caller had no active room and its own update succeeded. |
| ChatApp.ChatClient.Attempt | src/components/ChatApp.tsx:322-485 | One invocation of `handleConnect` up to its retry: the client shows `searching`, or `connected` on a match. `isConnecting` stays set exactly when the inner catch hands over to a retry. The store changes as one pass (`PassOutcome`) says, including the sessions a failed claim leaves `matched` before the retry. |
| ChatApp.ChatClient.TryPass | src/components/ChatApp.tsx:326-482 | One pass fails exactly when the `connecting` update or the search fails, and then resets the caller to `waiting`. It queues the caller when nobody else is searching, and otherwise claims the oldest searcher: a match when the claim and the room insert succeed, a retry otherwise, with the sessions the claim left behind. The local state changes only on a match. |
| ChatApp.ChatClient.Search | src/components/ChatApp.tsx:350-417 | With the caller connecting, the oldest other connecting session is claimed and a room created; with none the caller is queued again. A failed claim or insert leads to a retry with no new room and with the oldest candidate, and the caller, as the claim left them. Earlier rooms are kept as they are, and the invariant is kept when the caller had no active room. |
| ChatApp.ChatClient.OnSearchTimeout | src/components/ChatApp.tsx:432-456 | The timeout reverts the caller to `waiting` only when its row still says `connecting`; the invariant is kept. |
| ChatApp.ChatClient.OnSearchingTimerElapsed | src/components/ChatApp.tsx:54-77 | The 30-second timer stops the search whenever the client is still searching, whatever the store holds. |
| ChatApp.ChatClient.StopSearching | src/components/ChatApp.tsx:579-601 | The client goes to `waiting` even when the status update fails. |
| ChatApp.ChatClient.OnSelfMatched | src/components/ChatApp.tsx:93-132 | A `matched` update on its own row takes a waiting or searching client into its active room, showing the partner's name or "Unknown", with an empty transcript. Without a room found nothing changes. |
| ChatApp.ChatClient.SendMessage | src/components/ChatApp.tsx:603-635 | A non-blank message in a connected room is stored trimmed and appended once to both the table and the transcript, and the input is cleared. On an error or a blank input nothing changes. |
| ChatApp.ChatClient.OnIncomingMessage | src/components/ChatApp.tsx:157-179 | A message for the current room from another session is appended at the end with the sender's name. Any other message is ignored. |
| ChatApp.ChatClient.OnRoomEnded | src/components/ChatApp.tsx:194-250 | Once the current room has an end time, both members go back to `waiting` and the local chat is cleared. A failed lookup leaves everything as it was. |
| ChatApp.ChatClient.Disconnect | src/components/ChatApp.tsx:488-577 | Every path clears the local chat and returns to `waiting`. The store changes only when the room exists and is active: the room is ended, then both members are released. |
| ChatApp.ChatClient.TickDots | src/components/ChatApp.tsx:45-48 | The indicator advances only while searching. |
| ChatApp.ChatClient.EntersOnMatch | src/components/ChatApp.tsx:93-101 | A `matched` update on its own row takes the client into a room only while it is waiting or searching and a room lookup finds one. |
| ChatApp.LoggedInClient | src/components/ChatApp.tsx:271-306 | A new client that types a trimmed name of at least two characters and logs in gets the id, the `waiting` state and one new `waiting` session row, and keeps the invariant. |
| ChatApp.TwoClientsLoggedIn | src/components/ChatApp.tsx:271-306 | Two logins on a new store give two `waiting` sessions and the invariant. |
| ChatApp.FirstSearches | src/components/ChatApp.tsx:421-429 | A client that searches while no other session is connecting is queued as `connecting`, with no room created and the invariant kept. |
| ChatApp.SecondSearches | src/components/ChatApp.tsx:361-403 | A client that searches while exactly one other session is connecting is matched with it in one new room and shows its name. |
| ChatApp.FirstDiscovers | src/components/ChatApp.tsx:93-132 | A searching client whose partner created their room enters that room and shows the partner's name. |
| ChatApp.TwoClientsMatch | src/components/ChatApp.tsx:93-132 | After both search, the two clients are in the same room and each shows the other's name. |
| BlogService.RowRange | src/services/blogService.ts:163-164 | A page's inclusive row range holds exactly `limit` rows. |
| BlogService.FirstPageStartsAtZero | src/services/blogService.ts:163 | Page 1 starts at row 0. |
| BlogService.ConsecutivePagesAdjacent | src/services/blogService.ts:163-164 | Each page begins just after the previous one ends. |
| BlogService.PagesDisjoint | src/services/blogService.ts:163-164 | Different pages never share a row. |
| BlogService.Request | src/services/blogService.ts:142-203 | The query always filters on published posts. It has a category, tag or search condition exactly when that option is truthy, and a featured or trending condition exactly when that flag is true. The order is ascending exactly for `asc`. The range comes from the page and limit, with their defaults. |
| BlogService.DefaultRequest | src/services/blogService.ts:142-152 | Without options the query asks for published posts, newest first, rows 0 to 9. |
| BlogService.TagsOf | src/services/blogService.ts:216 | The formatted tags are the joined tags in order, or none. |
| BlogService.TagsOfAppend | src/services/blogService.ts:216 | Tag formatting distributes over concatenation. |
| BlogService.FormatPosts | src/services/blogService.ts:213-217 | One formatted post per row, in order, carrying that row's category and tags. |
| BlogService.PostsResult | src/services/blogService.ts:205-222 | An error gives no posts and total 0. Otherwise the formatted rows, with the count or 0. |
| BlogService.FormatPost | src/services/blogService.ts:248-258 | A single post keeps its fields and carries its joined category and formatted tags. |
| BlogService.FormatPostAgreesWithListing | src/services/blogService.ts:213-258 | The single-post formatting and the listing agree on category and tags. |
| BlogService.PostBySlug | src/services/blogService.ts:225-258 | An error gives `null`; otherwise the formatted post. |
| BlogService.ListOrEmpty | src/services/blogService.ts:61-73 | The list getters return the rows, or the empty list on an error. |
| BlogService.CategoryBySlug | src/services/blogService.ts:75-87 | The category, or `null` exactly on an error. |
| BlogService.FindCategory | src/pages/BlogPage.tsx:79 | `find` by slug returns the first index with that slug. It returns nothing exactly when no category has it. |
| BlogService.TrackSearchTerm | src/services/blogService.ts:275-279 | A term is recorded exactly when it is not all whitespace, and it is recorded untrimmed. |
| BlogNavigation.DashSpaces | src/components/blog/BlogNavigation.tsx:73 | `replace(/\s+/g, '-')` leaves no whitespace and never lengthens. |
| BlogNavigation.DashSpacesNoSpace | src/components/blog/BlogNavigation.tsx:73 | A string without whitespace is unchanged. |
| BlogNavigation.DashSpacesRun | src/components/blog/BlogNavigation.tsx:73 | A whole run of whitespace after a word becomes one dash. |
| BlogNavigation.TagSlug | src/components/blog/BlogNavigation.tsx:73 | A tag's slug contains no whitespace. |
| BlogNavigation.TagSlugExample | src/components/blog/BlogNavigation.tsx:68-73 | "Random Chat" has the slug "random-chat". |
| BlogNavigation.DashOthers | src/components/blog/BlogNavigation.tsx:97 | `replace(/[^a-z0-9]+/g, '-')` leaves only `[a-z0-9-]`, never two dashes in a row. It starts with a dash exactly when the input starts with another character. |
| BlogNavigation.DashOthersNoOther | src/components/blog/BlogNavigation.tsx:97 | A string of slug characters is unchanged. |
| BlogNavigation.DashOthersRun | src/components/blog/BlogNavigation.tsx:97 | Slug characters followed by a whole run of other characters keep their place, and the run becomes one dash. |
| BlogNavigation.DashOthersJoin | src/components/blog/BlogNavigation.tsx:97 | Words of slug characters separated by runs of other characters come out joined by single dashes. |
| BlogNavigation.StripDashes | src/components/blog/BlogNavigation.tsx:97 | `replace(/^-+|-+$/g, '')` gives the slice of its input left after cutting dashes only at both ends: everything cut is a dash, and the slice neither starts nor ends with one. |
| BlogNavigation.StripDashesKeeps | src/components/blog/BlogNavigation.tsx:97 | A string with no dash at either end is unchanged. |
| BlogNavigation.TitleSlug | src/components/blog/BlogNavigation.tsx:97 | A trending title's slug uses only `[a-z0-9-]`, has no doubled dash, and has no dash at either end. |
| BlogNavigation.TitleSlugExample | src/components/blog/BlogNavigation.tsx:91-97 | "Best Omegle Alternatives in 2025" links to "best-omegle-alternatives-in-2025". |
| BlogNavigation.AllPostsActive | src/components/blog/BlogNavigation.tsx:38 | "All Posts" is highlighted when neither a category nor a search is in the URL. |
| BlogNavigation.CategoryActive | src/components/blog/BlogNavigation.tsx:52 | A category link is highlighted when the category parameter equals its slug. |
| BlogNavigation.TagActive | src/components/blog/BlogNavigation.tsx:76 | A tag link is highlighted when the tag parameter equals the tag's slug. |
| BlogNavigation.AtMostOneCategoryActive | src/components/blog/BlogNavigation.tsx:52 | With distinct slugs, at most one category link is highlighted. |
| BlogNavigation.AllPostsExcludesCategory | src/components/blog/BlogNavigation.tsx:38-52 | "All Posts" and a category link are never highlighted together. |
| BlogNavigation.Navigation | src/components/blog/BlogNavigation.tsx:10-108 | While loading, five placeholders are drawn. Otherwise the view has the "All Posts" link, one link per category, the ten tag links and the three trending links, each with its target and highlight. |
| BlogPostList.HasPaginationIff | src/components/blog/BlogPostList.tsx:37-38 | Pagination is shown exactly when there are more posts than fit one page. |
| BlogPostList.TotalPages | src/components/blog/BlogPostList.tsx:37 | The page count is the least `n` with `totalPosts <= n * postsPerPage`. |
| BlogPostList.Run | src/components/blog/BlogPostList.tsx:52-54 | The loop's pages are `lo, lo + 1, …, hi`. |
| BlogPostList.GetPageNumbers | src/components/blog/BlogPostList.tsx:41-57 | At most five consecutive pages, all within `1..totalPages`, as many as there are pages up to five. The current page is among them when it is valid. |
| BlogPostList.ShowingFirst | src/components/blog/BlogPostList.tsx:171 | The first shown index; `ShowingBounds` and `ShowingAdjacent` state its relation to the last one. |
| BlogPostList.ShowingLast | src/components/blog/BlogPostList.tsx:173 | The last shown index never exceeds the total. |
| BlogPostList.ShowingBounds | src/components/blog/BlogPostList.tsx:171-173 | On a valid page the "Showing a to b" range is non-empty and spans at most one page. |
| BlogPostList.ShowingAdjacent | src/components/blog/BlogPostList.tsx:171-173 | Consecutive pages show adjacent ranges. |
| BlogPostList.PreviousNextStayInRange | src/components/blog/BlogPostList.tsx:183-240 | An enabled Previous or Next button leads to a valid page. |
| BlogPostList.PreviousDisabled | src/components/blog/BlogPostList.tsx:183 | Previous is disabled on page 1 only; `PreviousNextStayInRange` proves an enabled one stays in range. |
| BlogPostList.NextDisabled | src/components/blog/BlogPostList.tsx:240 | Next is disabled on the last page only; `PreviousNextStayInRange` proves an enabled one stays in range. |
| BlogPostList.StartEllipsis | src/components/blog/BlogPostList.tsx:192 | The start ellipsis condition as written: page 1 is in the window and the current page is above 3. |
| BlogPostList.EndEllipsis | src/components/blog/BlogPostList.tsx:222 | The end ellipsis condition as written: the current page is more than two below the last. |
| BlogPostList.Bar | src/components/blog/BlogPostList.tsx:190-234 | The bar as drawn; `StartEllipsisWithoutGap` and `EndEllipsisRepeatsLastPage` show where it breaks the intended shape. |
| BlogPostList.StartEllipsisOnlyWithoutGap | src/components/blog/BlogPostList.tsx:192 | The start ellipsis is drawn only when the window already starts at page 1. |
| BlogPostList.StartEllipsisWithoutGap | src/components/blog/BlogPostList.tsx:190-234 | On page 4 of 5 the bar reads "1 … 2 3 4 5", with an ellipsis over no gap. |
| BlogPostList.EndEllipsisRepeatsLastPage | src/components/blog/BlogPostList.tsx:190-234 | On page 1 of 4 the bar reads "1 2 3 4 … 4", with the last page drawn twice. |
| BlogPostList.Pages | src/components/blog/BlogPostList.tsx:208-219 | One page item per number from `lo` to `hi`. |
| BlogPostList.WindowInRange | src/components/blog/BlogPostList.tsx:43-50 | The window lies within `1..totalPages`, spans at most five pages, and holds a valid current page. |
| BlogPostList.LeadRunTailWellMarked | src/components/blog/BlogPostList.tsx:190-234 | The corrected lead, window and tail form a well-marked bar. |
| BlogPostList.LeadRunTailConsecutive | src/components/blog/BlogPostList.tsx:190-234 | In the corrected bar, two neighbouring page items are always one page apart. |
| BlogPostList.LeadRunTailGaps | src/components/blog/BlogPostList.tsx:190-234 | In the corrected bar, every ellipsis sits between two pages and skips at least one page. |
| BlogPostList.CorrectedBarWellMarked | src/components/blog/BlogPostList.tsx:190-234 | The corrected bar starts at page 1 and ends at the last page. Neighbouring pages are one apart, ellipses sit only over skipped pages, and the current page is shown. |
| BlogPostList.Kept | src/components/blog/BlogPostList.tsx:255 | `filter(Boolean)` keeps exactly the non-empty classes: a class is kept if and only if it is given and not empty. |
| BlogPostList.KeptAppend | src/components/blog/BlogPostList.tsx:255 | The filter distributes over concatenation. |
| Text.JoinAppend | src/components/blog/BlogPostList.tsx:255 | `join(sep)` of a concatenation is the two joins with one separator between. |
| BlogPostList.Cn | src/components/blog/BlogPostList.tsx:254-256 | `cn` joins the kept classes with single spaces; `CnAppend` states how it splits over concatenation. |
| BlogPostList.CnAppend | src/components/blog/BlogPostList.tsx:254-256 | `cn` of two class lists is their two `cn`s separated by one space, or just one of them when the other keeps nothing. |
| BlogPage.PreviousNextClamp | src/pages/BlogPage.tsx:172-198 | Previous and Next stay within `1..totalPages`, step by one, and stop at the ends. |
| BlogPage.TotalPages | src/pages/BlogPage.tsx:68 | The page count is the least `n` with `totalPosts <= 9 * n`. |
| BlogPage.Previous | src/pages/BlogPage.tsx:172 | The Previous updater; `PreviousNextClamp` proves it steps down by one and stops at 1. |
| BlogPage.Next | src/pages/BlogPage.tsx:198 | The Next updater; `PreviousNextClamp` proves it steps up by one and stops at the last page. |
| BlogPage.ButtonShown | src/pages/BlogPage.tsx:179-183 | The button filter as written, which compares the index with page numbers. |
| BlogPage.PageButtons | src/pages/BlogPage.tsx:177-195 | The drawn labels; `PageButtonsBounded`, `PageButtonsMissPages` and `LastOfTenPages` state what they are. |
| BlogPage.Select | src/pages/BlogPage.tsx:177-195 | The kept numbers of a range, strictly increasing, with membership exactly as the filter says. |
| BlogPage.PageButtonsBounded | src/pages/BlogPage.tsx:177-195 | At most five buttons, increasing, labelled within `1..min(totalPages, 5)`. |
| BlogPage.PageButtonsMissPages | src/pages/BlogPage.tsx:177-195 | With more than five pages the last page has no button, and a current page above five has none either. |
| BlogPage.LastOfTenPages | src/pages/BlogPage.tsx:177-195 | On page 10 of 10 only the button for page 1 is drawn. |
| BlogPage.IntendedButtonsShowEnds | src/pages/BlogPage.tsx:178 | The intended buttons include the first, the last and the current page, all valid. |
| BlogPage.IntendedButtonsAtMostSeven | src/pages/BlogPage.tsx:178 | There are at most seven intended buttons. |
| BlogPage.CategoryLabel | src/pages/BlogPage.tsx:79 | With no category of that slug the label is the slug. Otherwise it is the name of the first category with that slug, or the slug when that name is empty. |
| BlogPage.Heading | src/pages/BlogPage.tsx:77-85 | A category heading wins over a tag, a tag over a search, and a search over the default. |
| BlogPage.HeadingPriority | src/pages/BlogPage.tsx:77-85 | Parameters that agree on the deciding key give the same heading. |
| BlogPage.SearchedParams | src/pages/BlogPage.tsx:53-66 | A non-empty query is set as `search` and an empty one removes it. All other parameters are kept. |
| BlogPage.Page.constructor | src/pages/BlogPage.tsx:11-18 | The page starts on page 1 with an empty query and no posts. |
| BlogPage.Page.EditQuery | src/pages/BlogPage.tsx:93-95 | The input holds the typed query. |
| BlogPage.Page.HandleSearch | src/pages/BlogPage.tsx:53-66 | The location gets the searched parameters and the page goes back to 1. |
| BlogPage.Page.ViewAllPosts | src/pages/BlogPage.tsx:217-220 | The query is cleared and the location has no parameters. |
| BlogPage.Page.PreviousPage | src/pages/BlogPage.tsx:172 | The page becomes `max(page - 1, 1)`. |
| BlogPage.Page.NextPage | src/pages/BlogPage.tsx:198 | The page becomes `min(page + 1, totalPages)`. |
| BlogPage.Page.ChoosePage | src/pages/BlogPage.tsx:188 | A drawn button sets its page, which is always at most 5. |
| BlogPage.Page.FetchOptions | src/pages/BlogPage.tsx:29-35 | The request asks for the current page's nine rows, newest first, filtered by exactly the truthy URL parameters. |
| BlogPage.Page.OnFetched | src/pages/BlogPage.tsx:40-42 | The fetched posts, categories and total replace the old ones. |
| BlogHomePage.PageOf | src/pages/BlogHomePage.tsx:26 | Without a page parameter the page is 1; otherwise it is `parseInt` of the parameter, and NaN is `None`. |
| BlogHomePage.PageParams | src/pages/BlogHomePage.tsx:82-85 | A page change sets `page` to the number's decimal string and keeps every other parameter. |
| BlogHomePage.PageChangeRoundTrip | src/pages/BlogHomePage.tsx:26-95 | After a page change the page read back is the chosen one, and the filters are unchanged. |
| BlogHomePage.HasActiveFilters | src/pages/BlogHomePage.tsx:95 | Filters are active when the category, tag or search parameter is truthy. |
| BlogHomePage.ShowFeatured | src/pages/BlogHomePage.tsx:123 | The featured sections show on page 1 without filters; `PageChangeShowsFeatured` relates it to a page change. |
| BlogHomePage.PageChangeShowsFeatured | src/pages/BlogHomePage.tsx:123 | Without filters, a change shows the featured sections exactly when it is to page 1. |
| BlogHomePage.ActiveCategory | src/pages/BlogHomePage.tsx:98-100 | A name only for a truthy category slug, and then the name of the first category with that slug, the one `find` returns. Every known slug gets a name. |
| BlogHomePage.DashesToSpaces | src/pages/BlogHomePage.tsx:112 | `replace(/-/g, ' ')` swaps each dash for a space where it stands. |
| BlogHomePage.Heading | src/pages/BlogHomePage.tsx:106-114 | A named category wins over a search, a search over a tag, and a tag (dashes as spaces) over the default. |
| BlogHomePage.HeadingPriority | src/pages/BlogHomePage.tsx:106-114 | Parameters that agree on the deciding key give the same heading. |
| BlogHomePage.TagHeading | src/pages/BlogHomePage.tsx:112-149 | With only a non-empty tag in the URL, the heading is "#" followed by the slug with every dash shown as a space. |
| BlogHomePage.RandomChatHeading | src/pages/BlogHomePage.tsx:112-149 | Choosing the "Random Chat" tag titles the page "#random chat". |
| BlogHomePage.PostWord | src/pages/BlogHomePage.tsx:117 | "post" exactly for a total of one, "posts" otherwise. |
| BlogHomePage.Subheading | src/pages/BlogHomePage.tsx:115-119 | With a search, the found count; otherwise the fixed tagline. |
| BlogHomePage.SectionTitle | src/pages/BlogHomePage.tsx:164 | "Filtered Posts" exactly when a named category, a tag or a search is active, and "Latest Posts" otherwise. |
| BlogHomePage.FilteredTitleMeansFilters | src/pages/BlogHomePage.tsx:95-164 | A "Filtered Posts" title implies active filters. |
| BlogHomePage.HomePage.constructor | src/pages/BlogHomePage.tsx:17-22 | The page starts with the given parameters and no posts. |
| BlogHomePage.HomePage.HandlePageChange | src/pages/BlogHomePage.tsx:82-87 | The parameters become the page-changed ones, and the current page reads back as the chosen one. |
| BlogHomePage.HomePage.ClearFilters | src/pages/BlogHomePage.tsx:90-92 | No parameters are left, so no filters and page 1. |
| BlogHomePage.HomePage.ChooseTag | src/pages/BlogHomePage.tsx:149 | The parameters become just the tag's slug, which highlights that tag. |
| BlogHomePage.HomePage.FetchOptions | src/pages/BlogHomePage.tsx:45-51 | The request asks for nine rows of the parsed page, filtered by exactly the truthy parameters. |
| BlogHomePage.HomePage.OnFetched | src/pages/BlogHomePage.tsx:56-60 | The fetched posts, categories and total replace the old ones. |
| BlogHomePage.HomePage.OnFetchFailed | src/pages/BlogHomePage.tsx:61-66 | A failed fetch leaves no posts and a total of 0. |
| BlogSearch.QueryFromUrl | src/components/blog/BlogSearch.tsx:15-23 | The box shows the `search` parameter, or "" exactly when it is absent or empty. |
| BlogSearch.SubmittedParams | src/components/blog/BlogSearch.tsx:28-39 | A non-blank query is stored trimmed and drops the page. A blank one removes the search and keeps the page. All other parameters are kept. |
| BlogSearch.ClearedParams | src/components/blog/BlogSearch.tsx:44-46 | Clearing removes only the search. |
| BlogSearch.SubmitThenSync | src/components/blog/BlogSearch.tsx:15-39 | After a submit, the box reads back the trimmed query. |
| BlogSearch.ClearThenSync | src/components/blog/BlogSearch.tsx:15-46 | After a clear, the box reads back empty. |
| BlogSearch.MatchingTerms | src/components/blog/BlogSearch.tsx:91-93 | A term is suggested exactly when it contains the query, ignoring case. |
| BlogSearch.MatchingTermsAppend | src/components/blog/BlogSearch.tsx:91-93 | The filter keeps order: it distributes over concatenation. |
| BlogSearch.EmptyQueryMatchesAll | src/components/blog/BlogSearch.tsx:91-93 | The empty query keeps every term. |
| BlogSearch.Matches | src/components/blog/BlogSearch.tsx:92 | A term matches when its lower-cased form contains the lower-cased query; `ContainsAt` gives `includes` its meaning. |
| BlogSearch.SearchBox.constructor | src/components/blog/BlogSearch.tsx:9-12 | The box starts empty and unfocused. |
| BlogSearch.SearchBox.EditQuery | src/components/blog/BlogSearch.tsx:58 | The box holds the typed text. |
| BlogSearch.SearchBox.SyncFromUrl | src/components/blog/BlogSearch.tsx:15-23 | The box shows what the URL says. |
| BlogSearch.SearchBox.HandleSearch | src/components/blog/BlogSearch.tsx:25-40 | The location becomes the submitted parameters. |
| BlogSearch.SearchBox.ClearSearch | src/components/blog/BlogSearch.tsx:42-47 | The box is emptied and the search removed from the location. |
| BlogSearch.SearchBox.ChooseSuggestion | src/components/blog/BlogSearch.tsx:98-105 | The suggestion becomes the query and is submitted. |
| BlogSearch.SearchBox.Focus | src/components/blog/BlogSearch.tsx:59 | Focusing marks the box focused. |
| BlogSearch.SearchBox.BlurTimerElapsed | src/components/blog/BlogSearch.tsx:60 | The blur timer marks the box unfocused. |
| BlogSearch.SearchBox.Suggestions | src/components/blog/BlogSearch.tsx:85-93 | The suggestions are the popular searches that contain the query, ignoring case. |
| BlogSearch.SearchBox.ShowSuggestions | src/components/blog/BlogSearch.tsx:77 | The suggestion box is open while the input is focused and not empty. |

## Left out

The following are not modelled:

- **Network and realtime plumbing.** The Supabase client, realtime channels and their subscription lifecycle are out. A store call is one method with an outcome flag. A realtime event is a method the environment calls.
- **Concurrency.** Interleavings between clients happen only at method boundaries. The `Promise`s run in sequence. Two `handleConnect` passes racing on the same partner are not modelled within a single pass.
- **Timers.** `setTimeout`/`setInterval` are methods the environment calls when a timer elapses (`OnSearchTimeout`, `OnSearchingTimerElapsed`, `TickDots`, `BlurTimerElapsed`). The clock is an explicit `now` in milliseconds.
- **Session ids.** The random generation of session ids is out: `Login` takes the new id as a parameter.
- **Presentation.** Toasts, JSX layout, icons, `window.scrollTo`, `formatDate` and the view-mode tabs.
- **Unicode.** `trim`, `toLowerCase` and `\s` are ASCII-only here. Unicode whitespace and non-ASCII case mapping are out.
- **Mount guards.** `isMounted` guards and React's re-render scheduling: effects are modelled as the state changes they make once their awaits return.
- ChatApp.ChatClient.Connect: the recursive retry at ChatApp.tsx:419 is unbounded in the source. Here it is bounded by the given list of pass outcomes, so a run of retries longer than the list ends in `Retry` with `isConnecting` still set.
- ChatApp.ChatClient.Connect: the store invariant is proved only when the unchecked room-ending and self-match updates succeed. Their silent failure is exactly how the source can break it.
- ChatStore.Canonical: JavaScript's `<` on strings (ChatApp.tsx:391-392) compares UTF-16 code units, while `Less` compares characters. The two agree on the ASCII ids the client generates.
- Numbers: JavaScript numbers are doubles. `toString`, `parseInt` and `Math.ceil` agree with the model's unbounded integers only on safe integers (|n| < 2^53). Page numbers and post counts stay in that range. From 1e21 on, `toString` switches to exponent notation.
- Text.IntToStringRoundTrip: proved for unbounded integers. For JavaScript numbers it holds only on safe integers, as the line above says.
- One day: "one day ago" is taken as 86 400 000 ms. Calendar days around daylight-saving changes are out.
- BlogHomePage.HomePage.FetchOptions: it requires a page that parses. A NaN page from a non-numeric parameter is sent to the query builder in the source. This model does not define what that request would be.
- BlogSearch.SearchBox.ChooseSuggestion: the source dispatches a submit to the document's first `form`. The model takes that form to be this search box.
- `handleKeyPress` on the chat message input: Enter-to-send is `SendMessage` itself.
- Sidebar links and related posts: the sidebar links of `BlogPage`, `searchPosts`, `getRelatedPosts` and the view-count call are not on the paths modelled here.
- `getFeaturedPosts`, `getTrendingPosts` and `getTags` share `ListOrEmpty`. Their query parts (filters, order, limit) are not modelled separately.
- Gender: the session rows carry only a username and a status.
- BlogPostList.Cn: an absent (`undefined`) class is given as the empty string; both are dropped by `filter(Boolean)`.
- BlogPostList.TotalPages: requires a positive posts-per-page count. Both callers pass 9.

## Findings

| source | as written | input that shows it | evidently intended | confidence | as-written member | corrected member |
|---|---|---|---|---|---|---|
| src/components/blog/BlogPostList.tsx:190-234 | The start ellipsis replaces page 1 of the window when `currentPage > 3`. The end ellipsis repeats `totalPages` whenever `currentPage < totalPages - 2`, even when the window already shows it. | page 4 of 5 draws "1 … 2 3 4 5"; page 1 of 4 draws "1 2 3 4 … 4" | page 1 and the last page drawn once each, and an ellipsis only over skipped pages | not executed | BlogPostList.EndEllipsisRepeatsLastPage | BlogPostList.CorrectedBarWellMarked |
| src/pages/BlogPage.tsx:177-195 | The buttons are drawn only for the indices `0..min(totalPages, 5) - 1`, and each is tested against page numbers. With more than five pages, the last page and any current page above five are never drawn. | page 10 of 10 draws only the button "1" | page 1, the last page, and the pages within two of the current one | not executed | BlogPage.LastOfTenPages | BlogPage.IntendedButtonsShowEnds |
