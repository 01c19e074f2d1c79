# Live polling client: page logic in Dafny

A model of the decision and state-update logic of a single-page polling client
with three pages:

- the **admin page** edits a new poll (a question and a list of at least two
  options), validates it and builds the create request, adopts the first
  active poll from the poll list, and closes the displayed poll;
- the **voting page** refreshes the poll list and decides between a poll to vote
  on, a closed poll with a link to its results, and a waiting message; its
  **voting card** lets the voter select one option and submit it once while the card stays on screen;
- the **results page** refreshes the viewed poll's tallies, raises a "new poll
  available" banner when the list's first active poll is a different one, and
  picks between its loading, error and tallies views.

Each page is a class whose fields are the page's component state. Each handler
is a method, and every backend reply is a parameter of the method that consumes
it. A handler that sets a busy flag while its request is in flight (`loading`,
`closingPoll`, `submitting`) is split in two. `Begin…` runs the synchronous part
and returns the request it would send. `Finish…` takes the reply. The
selections, validations and render guards are pure functions. The lemmas beside
them state the properties.

Modules: `Polls` (reply types, `find` over the poll list), `Strings`
(`String.prototype.trim` with ECMA-262's white-space set), `Admin`, `Vote`,
`Results`.

Modelling choices:

- A reply with `success` set but without a `polls` array takes the same path as
  an unsuccessful one on every page, so both are `ListFail`.
- An absent `message` is the empty string; `message || fallback` is `OrElse`.
- JavaScript truthiness is kept where it decides a branch. An empty
  `closedPollId` does not show the results link (`src/pages/Vote.jsx:142`). An
  empty `pollId` query parameter counts as missing (`src/pages/Result.jsx:29`).
  The new-poll check compares against the query parameter even when it is
  absent, so any active poll then raises the banner.
- The results page shows the server's `totalVotes`; the client does not sum
  the tallies.

## Model

| member | source | states |
|---|---|---|
| Polls.OrElse | src/pages/Admin.jsx:105 | the server's message when it is non-empty, the fallback otherwise; non-empty whenever the fallback is |
| Polls.NetworkError | src/pages/Admin.jsx:108 | the error text is the prefix "Network error: " followed by the thrown message, and is never empty |
| Polls.FirstIndex | src/pages/Vote.jsx:24 | `find` stops at an entry with the status and no earlier entry has it; it finds nothing exactly when no entry has the status |
| Polls.Find | src/pages/Vote.jsx:24 | the entry found is the first one with the status; something is found iff some entry has it |
| Polls.FindAppend | src/pages/Vote.jsx:24 | a match in the front part of a list wins over any match behind it; without one, the back part decides |
| Strings.TrimStart | src/pages/Admin.jsx:86 | the result is a suffix of the input, the removed prefix is all white space, and the result does not start with white space |
| Strings.TrimEnd | src/pages/Admin.jsx:86 | the result is a prefix of the input, the removed suffix is all white space, and the result does not end with white space |
| Strings.Trim | src/pages/Admin.jsx:86 | the trimmed text is no longer than the input and neither starts nor ends with white space |
| Strings.TrimIsSlice | src/pages/Admin.jsx:86 | the trimmed text is a contiguous slice of the input with only white space before and after it |
| Strings.TrimEmptyIffBlank | src/pages/Admin.jsx:65 | a string trims to empty exactly when every character is white space |
| Strings.TrimIdempotent | src/pages/Admin.jsx:86 | trimming a trimmed string changes nothing |
| Admin.RemoveAt | src/pages/Admin.jsx:59 | exactly the entry at the index is deleted and the others keep their order; an index outside the list deletes nothing |
| Admin.ApplyEdit | src/pages/Admin.jsx:47-61 | add appends one empty entry; remove acts only on more than two entries; change sets one entry and keeps the rest; reset gives two empty entries; a list of at least two stays at least two |
| Admin.EditsKeepTwoOptions | src/pages/Admin.jsx:57-61 | any sequence of add, remove, change and reset keeps a list of at least two options at two or more |
| Admin.FormAlwaysHasTwoOptions | src/pages/Admin.jsx:12 | from the initial two empty options, every reachable option list has at least two entries |
| Admin.Filled | src/pages/Admin.jsx:70 | the filtered options are no more than the options and none of them is blank |
| Admin.FilledMembers | src/pages/Admin.jsx:70 | a string is among the filtered options exactly when it is a non-blank option |
| Admin.FilledAppend | src/pages/Admin.jsx:70 | filtering distributes over concatenation, so the filtered options keep their original order |
| Admin.FilledKeepsNonBlank | src/pages/Admin.jsx:70 | a list without blank options passes the filter unchanged (options are not trimmed) |
| Admin.Validate | src/pages/Admin.jsx:65-74 | a blank question gives "Please enter a question" whatever the options; otherwise fewer than two non-blank options give "Please provide at least 2 options"; a request exists exactly when both checks pass and carries the trimmed, non-blank question and the filtered options |
| Admin.CreateError | src/pages/Admin.jsx:104-109 | a failed create leaves the server's message or "Failed to create poll", a thrown one the network error text; never empty |
| Admin.CloseError | src/pages/Admin.jsx:135-140 | a failed close leaves the server's message or "Failed to close poll", a thrown one the network error text; never empty |
| Admin.AdoptedPoll | src/pages/Admin.jsx:30-35 | a poll is adopted exactly when a successful list has an active entry, and it is the first active entry |
| Admin.AdminPage.constructor | src/pages/Admin.jsx:11-18 | the page starts with an empty question, two empty options, no error, no active poll, nothing in flight |
| Admin.AdminPage.FetchActivePoll | src/pages/Admin.jsx:25-40 | the first active poll of a successful list replaces the displayed one; any other reply leaves it as it was; the form keeps at least two option entries |
| Admin.AdminPage.ChangeQuestion | src/pages/Admin.jsx:42-45 | the question becomes the new text and the error is cleared; the form keeps at least two option entries |
| Admin.AdminPage.ChangeOption | src/pages/Admin.jsx:47-51 | entry `index` becomes the value; the length and all other entries are unchanged |
| Admin.AdminPage.AddOption | src/pages/Admin.jsx:53-55 | exactly one empty entry is appended |
| Admin.AdminPage.RemoveOption | src/pages/Admin.jsx:57-61 | the entry is removed only from a list of more than two; the list never drops below two |
| Admin.AdminPage.BeginSubmit | src/pages/Admin.jsx:63-88 | a failed validation sets its message, sends nothing and leaves `loading` untouched; a passing one sends the validated request, sets `loading` and clears the error |
| Admin.AdminPage.FinishSubmit | src/pages/Admin.jsx:91-112 | a created poll becomes the active poll and the confirmation is shown; a failure only sets the error; `loading` is false afterwards |
| Admin.AdminPage.ResetForm | src/pages/Admin.jsx:99-103 | the delayed reset empties the question, restores two empty options and leaves the confirmation |
| Admin.AdminPage.CreateAnother | src/pages/Admin.jsx:300 | the confirmation is left; the form is untouched and keeps at least two option entries |
| Admin.AdminPage.BeginClose | src/pages/Admin.jsx:115-122 | without an active poll nothing happens and nothing is sent; otherwise the active poll's id is sent, `closingPoll` is set and the error cleared; the form keeps at least two option entries |
| Admin.AdminPage.FinishClose | src/pages/Admin.jsx:129-143 | success clears the active poll; failure keeps it and sets the server's message or "Failed to close poll"; `closingPoll` is false afterwards and the form keeps at least two option entries |
| Vote.DetailRequest | src/pages/Vote.jsx:22-29 | detail is requested exactly when a successful list has an active entry, and for the first active entry's id |
| Vote.TickOf | src/pages/Vote.jsx:22-59 | a refresh is live exactly when detail was requested and returned; it ends with a results link exactly when the list has no active entry but a closed one, and links to the first closed entry |
| Vote.DetailIgnoredWithoutActive | src/pages/Vote.jsx:43-58 | without an active entry the detail reply has no effect |
| Vote.ActiveTakesPrecedence | src/pages/Vote.jsx:24-45 | any active entry, wherever it stands, rules out the closed outcome and causes a detail request |
| Vote.PageView | src/pages/Vote.jsx:83-186 | the voting view needs a poll with a non-empty options list; the results link needs the closed flag and a non-empty closed id; the waiting message needs neither poll nor closed flag; the spinner shows exactly while loading |
| Vote.ViewAfterTick | src/pages/Vote.jsx:101-142 | after a refresh the view follows from its conclusion alone: live with options gives voting, closed with an id gives the link, nothing live gives waiting |
| Vote.ScenarioActivePoll | src/pages/Vote.jsx:24-32 | a list holding one active poll `p1` requests `p1`'s detail and shows its options |
| Vote.ScenarioClosedPoll | src/pages/Vote.jsx:45-49 | a list holding only a closed poll `p2` links to the results of `p2` |
| Vote.VoteError | src/pages/Vote.jsx:225-230 | a failed vote leaves the server's message or "Failed to submit vote", a thrown one the network error text; never empty |
| Vote.VotePage.constructor | src/pages/Vote.jsx:11-14 | the page starts loading, with no poll, no closed flag and no closed id |
| Vote.VotePage.Refresh | src/pages/Vote.jsx:17-67 | the page's poll, closed flag and closed id follow the refresh's conclusion; the closed id is kept unless a closed poll is found; `loading` is false afterwards; a closed flag always comes with an id and no poll |
| Vote.VotingCard.constructor | src/pages/Vote.jsx:190-193 | a card starts with no selection, no vote, nothing in flight and no error |
| Vote.VotingCard.VoteEnabled | src/pages/Vote.jsx:274 | the Vote button is enabled exactly when an option is selected, no vote was accepted and none is in flight |
| Vote.VotingCard.Click | src/pages/Vote.jsx:250-251 | once a vote is accepted, or while one is in flight, a click leaves the selection unchanged; otherwise it selects the option |
| Vote.VotingCard.BeginSubmit | src/pages/Vote.jsx:204-219 | a vote is sent exactly when the Vote button (disabled unless an option is selected and no vote was accepted or is in flight, lines 272-274) is enabled; then the selected index is sent, `submitting` is set and the error cleared; otherwise nothing changes; once a vote was accepted no further vote is sent |
| Vote.VotingCard.FinishSubmit | src/pages/Vote.jsx:221-233 | success sets `hasVoted`; failure sets the error, keeps the selection and leaves `hasVoted` false (a vote is in flight only while none was accepted); `submitting` is false afterwards |
| Results.ResultsError | src/pages/Result.jsx:43-49 | a failed refresh leaves the server's message or "Failed to fetch results", a thrown one the network error text; never empty |
| Results.NewPollFlag | src/pages/Result.jsx:55-72 | a successful non-empty list sets the banner exactly when its first active entry is not the viewed poll; any other reply leaves the banner unchanged |
| Results.ScenarioNewPoll | src/pages/Result.jsx:62-64 | viewing `p1` while the first active poll is `p3` raises the banner |
| Results.ScenarioSamePoll | src/pages/Result.jsx:62-67 | viewing the first active poll itself lowers the banner |
| Results.PageView | src/pages/Result.jsx:89-128 | after loading, the error view is shown exactly when there is an error text or no results, with the error text or a generic one; otherwise the tallies |
| Results.FailureShowsError | src/pages/Result.jsx:43-45 | a failed refresh shows the error view even though the earlier tallies are kept |
| Results.Values | src/pages/Result.jsx:132 | one vote count per tally, in order |
| Results.MaxVotes | src/pages/Result.jsx:133 | the maximum is at least one, at least every vote count, and is one of the counts or one |
| Results.ScenarioMaxVotes | src/pages/Result.jsx:132-133 | tallies of 3 and 2 votes give a maximum of 3 |
| Results.ResultPage.constructor | src/pages/Result.jsx:19-25 | the page starts loading, with no results, no error, not closed and no banner |
| Results.ResultPage.FetchResults | src/pages/Result.jsx:28-52 | without a poll id: "No poll ID provided" and no request; success replaces the results, sets the closed flag exactly for status closed and clears the error; failure sets the error and keeps the results; `loading` is false afterwards |
| Results.ResultPage.CheckForNewPoll | src/pages/Result.jsx:55-72 | the banner flag becomes the new-poll decision for the reply |

## Left out

- The HTTP requests, JSON decoding and the configured base URL. Every reply is a parameter.
- Timers: the 2- and 5-second refresh intervals, the 2.5-second reset delay (modelled only as the `ResetForm` method), and overlapping or out-of-order replies.
- Markup, styling, spinners, navigation after a close, and `console.error` logging.
- The admin form's controls are disabled while a create or a close is in flight (`disabled={loading}`, `disabled={closingPoll}`); the edit methods, `Admin.AdminPage.BeginSubmit` and `Admin.AdminPage.BeginClose` do not check these flags, so the model allows more interleavings than the page. Likewise the form is not shown while the creation confirmation is (`submitted`), and `Admin.AdminPage.ChangeQuestion`, `ChangeOption`, `AddOption`, `RemoveOption` and `BeginSubmit` do not check that flag.
- The chart configuration (the floating-point axis bound computed from `maxVotes`) and the `parseInt` applied to vote counts. Counts are integers here.
- The truncated poll id shown on the results page.
- `src/App.jsx`, which only wires the three routes.
- Admin.ApplyEdit: a `Change` at an index past the end leaves the list unchanged, whereas `newOptions[index] = value` (`src/pages/Admin.jsx:49`) would lengthen the array. The form only sends indices of existing entries.
- The voting card's own guards against a missing poll or an empty option list (`src/pages/Vote.jsx:196-202`). The page shows the card only for a poll with options, so these guards never fire.
- Vote.VotingCard: a card is built for one poll. The page renders the card without a `key`, so when the first active poll changes directly from one poll to another, the page keeps the earlier card's selection and voted flag. This retention is not modelled.
- Vote.VotingCard: the page renders the card only in the voting view. A refresh that leaves no poll (a failed detail request, or a failed, thrown or empty list) or that ends at a closed poll replaces the card with another view. The next voting view then starts a new card with `hasVoted` false, so the same voter can vote again on the same poll. The model does not connect `Vote.VotePage` to `Vote.VotingCard`; the single vote is promised only within one card.
- Results.ResultPage: `pollId` is fixed for the lifetime of a page. A change of the query parameter re-runs the refresh without clearing the earlier state. That is not modelled.
- Vote.PollDetail: an absent `options` array is the empty list. Both fail the voting-view guard the same way.
