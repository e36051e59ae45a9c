# BurakOylama client logic in Dafny

A model of the computational core of the BurakOylama voting client, a React
front end for a polling service. Three components of the client carry logic
beyond rendering, and each is modelled in its own module:

- **The public voting page** (`PublicVote`, `public_vote.dfy`):
  - the "Valid until" countdown text, as an imperative method proved against a decomposition into months, days, hours, minutes and seconds and against a parser that reads the text back;
  - the per-option colour map filled by two nested loops when a poll is fetched;
  - the fetch and click handlers as transitions on the page state, including the optimistic increment applied after the server accepts a vote.
- **The user's dashboard** (`UserVotes`, `user_votes.dfy`):
  - the selected poll and its vote total;
  - the pie data and the "100% winner" rule: one slice drawn, and the other options listed with "0 votes";
  - the slice colours and labels;
  - the tooltip that looks an option up by name.
- **The "Create New Vote" form** (`AddVotePool`, `add_vote_pool.dfy`):
  - the option inputs, which grow with sequential ids and are edited by id;
  - the ordered checks of the submit handler and the request body it builds.

Supporting modules:
- `Text` (`text.dfy`) models the JavaScript string behaviour the core relies on: `trim` (the ECMAScript WhiteSpace and LineTerminator code points), `Number.prototype.toString(radix)` on naturals, `padStart` and `join`. `Split` on one character is not used by the pages: it is the partner of `Join` that the countdown parser uses to read the text back.
- `Collections` (`collections.dfy`) models `findIndex`, `filter`, `filter` by position and `map`.
- `Color` (`color.dfy`) models the `"#rrggbb"` colour encoding.
- `Wrappers` (`wrappers.dfy`) holds `Option`, `Result` and `Truthy`, JavaScript truthiness of an optional string.

Randomness, time and network replies are parameters:
- the `Math.floor(Math.random() * 16777215)` draws are a sequence of naturals below 16777215;
- the remaining time is an integer number of milliseconds;
- a service reply is a datatype value.

## Model

| member | source | states |
|---|---|---|
| PublicVote.Decompose | burak-oylama-client/src/pages/public-vote/public-vote.tsx:37-42 | the split is in range (days < 30, hours < 24, minutes < 60, seconds < 60) and its months·2592000 + days·86400 + hours·3600 + minutes·60 + seconds equals the whole seconds |
| PublicVote.DecomposeTotalSeconds | burak-oylama-client/src/pages/public-vote/public-vote.tsx:37-42 | an in-range countdown is the decomposition of its own total, so the split is unique |
| PublicVote.SameUnits | burak-oylama-client/src/pages/public-vote/public-vote.tsx:38-42 | the page's per-unit formulas, each computed from the total with a 30-day month, agree with the largest-first split |
| PublicVote.DayRemainder | burak-oylama-client/src/pages/public-vote/public-vote.tsx:39-40 | the time into the day is the same whether measured from the month remainder or from the total |
| PublicVote.HourRemainder | burak-oylama-client/src/pages/public-vote/public-vote.tsx:40-41 | the time into the hour is the same whether measured from the day remainder or from the total |
| PublicVote.MinuteRemainder | burak-oylama-client/src/pages/public-vote/public-vote.tsx:41-42 | the seconds into the minute are the same whether measured from the hour remainder or from the total |
| PublicVote.CountdownParts | burak-oylama-client/src/pages/public-vote/public-vote.tsx:44-49 | there is always at least one part, and the last is the seconds followed by "s"; that zero units are left out is proved by RenderRoundTrip |
| PublicVote.Render | burak-oylama-client/src/pages/public-vote/public-vote.tsx:49-51 | the joined text always ends with the seconds part and is never "Expired" |
| PublicVote.RenderRoundTrip | burak-oylama-client/src/pages/public-vote/public-vote.tsx:44-51 | reading the rendered text back gives the countdown; the parser accepts a zero count only for the seconds, so this proves that zero months, days, hours and minutes are left out, that the order is mo, d, h, m, s, and that the separator is a single space |
| PublicVote.ZeroUnitIsNotCountdownText | burak-oylama-client/src/pages/public-vote/public-vote.tsx:45-49 | the parser refuses "0mo 5s" and reads "5s" as 5 seconds, so a zero unit above seconds is never accepted as countdown text |
| PublicVote.CountdownPartsFrom | burak-oylama-client/src/pages/public-vote/public-vote.tsx:44-49 | the parts list equals the rank-by-rank description the parser follows |
| PublicVote.PartsHaveNoSpace | burak-oylama-client/src/pages/public-vote/public-vote.tsx:45-49 | no part contains a space, so joining with spaces can be undone |
| PublicVote.ParseOneToken | burak-oylama-client/src/pages/public-vote/public-vote.tsx:45-49 | a part such as "12h" reads back as its count and unit |
| PublicVote.ParsePresentUnit | burak-oylama-client/src/pages/public-vote/public-vote.tsx:45-48 | a non-zero unit is written as its own part, read before the smaller units |
| PublicVote.ParseAbsentUnit | burak-oylama-client/src/pages/public-vote/public-vote.tsx:45-48 | a zero unit above seconds is not written, so the text continues with the next unit |
| PublicVote.ParsePartsFrom | burak-oylama-client/src/pages/public-vote/public-vote.tsx:44-49 | the parts from any unit down to the seconds read back as those units of the countdown |
| PublicVote.DistinctSecondsDistinctText | burak-oylama-client/src/pages/public-vote/public-vote.tsx:37-51 | two different numbers of whole seconds are never shown with the same text |
| PublicVote.FormatTimeRemaining | burak-oylama-client/src/pages/public-vote/public-vote.tsx:34-52 | "Expired" exactly when the milliseconds are ≤ 0; otherwise the rendering of the decomposition of floor(ms / 1000) |
| PublicVote.DecomposeUnderAMinute | burak-oylama-client/src/pages/public-vote/public-vote.tsx:37-42 | fewer than 60 seconds decompose into zero months, days, hours and minutes and those seconds |
| PublicVote.SecondsOnlyText | burak-oylama-client/src/pages/public-vote/public-vote.tsx:44-51 | a countdown with only seconds is shown as the seconds followed by "s" |
| PublicVote.UnderAMinuteText | burak-oylama-client/src/pages/public-vote/public-vote.tsx:37-51 | under a minute left, the text is the seconds followed by "s" |
| PublicVote.SubSecondRemaining | burak-oylama-client/src/pages/public-vote/public-vote.tsx:35-37 | between 1 and 999 ms left, the text is "0s", not "Expired" |
| PublicVote.DecomposeExample | burak-oylama-client/src/pages/public-vote/public-vote.tsx:37-42 | 90061000 ms is 0 months, 1 day, 1 hour, 1 minute and 1 second |
| PublicVote.RenderExample | burak-oylama-client/src/pages/public-vote/public-vote.tsx:44-51 | that countdown is shown as "1d 1h 1m 1s" |
| PublicVote.PartsExample | burak-oylama-client/src/pages/public-vote/public-vote.tsx:44-49 | its parts are "1d", "1h", "1m", "1s" and the zero months are left out |
| PublicVote.JoinExample | burak-oylama-client/src/pages/public-vote/public-vote.tsx:51 | those parts join with single spaces |
| PublicVote.AllOptionsMembers | burak-oylama-client/src/pages/public-vote/public-vote.tsx:74-75 | the nested traversal visits exactly the options of the polls, and their ids are the option ids of the polls |
| PublicVote.AllOptionsPrefix | burak-oylama-client/src/pages/public-vote/public-vote.tsx:74-75 | after the first i polls, the options visited are a prefix of all options |
| PublicVote.IdsOfSnoc | burak-oylama-client/src/pages/public-vote/public-vote.tsx:76 | visiting one more option adds its id to the ids seen |
| PublicVote.ColorsAssignedStep | burak-oylama-client/src/pages/public-vote/public-vote.tsx:76 | one more write `map[option.id] = colour` keeps the keys equal to the ids seen, with each id holding the colour of its last write |
| PublicVote.Palette | burak-oylama-client/src/pages/public-vote/public-vote.tsx:31 | `getRandomColor()` for each draw in turn: one colour per draw, each the hex encoding of that draw |
| PublicVote.BuildColorMap | burak-oylama-client/src/pages/public-vote/public-vote.tsx:73-78 | the outer `forEach` over the polls: the result is the writes of all options in visiting order; its keys are exactly the option ids of all polls, and each id holds the colour of the draw made at its last occurrence |
| PublicVote.WriteOptionColors | burak-oylama-client/src/pages/public-vote/public-vote.tsx:75-77 | the inner `forEach` over one poll's options: the map is extended by exactly that poll's writes, in order, each option taking the next colour |
| PublicVote.ColorWritesAssigned | burak-oylama-client/src/pages/public-vote/public-vote.tsx:73-78 | after any sequence of writes, the keys are the ids written and each id holds the colour of its last write |
| PublicVote.ColorsAssignedAll | burak-oylama-client/src/pages/public-vote/public-vote.tsx:73-78 | once every option is visited, the keys are the polls' option ids and each id's colour is the encoding of the draw at its last occurrence |
| PublicVote.AllOptionsStep | burak-oylama-client/src/pages/public-vote/public-vote.tsx:74-75 | visiting one more poll appends its options to those visited, and stays within all options |
| PublicVote.LoadVote | burak-oylama-client/src/pages/public-vote/public-vote.tsx:54-86 | no vote id: error "No vote ID provided."; error reply: error set, data cleared; data reply: data stored, error cleared, fresh colour map as above; loading ends in every case |
| PublicVote.BumpOptions | burak-oylama-client/src/pages/public-vote/public-vote.tsx:115-119 | same length and order, names and ids kept, and each option's count goes up by one exactly when its id is the voted id |
| PublicVote.ApplyVote | burak-oylama-client/src/pages/public-vote/public-vote.tsx:113-120 | same polls in the same order, each with only its options bumped |
| PublicVote.BumpOptionsVotes | burak-oylama-client/src/pages/public-vote/public-vote.tsx:115-119 | a poll's vote sum grows by the number of its options carrying the voted id |
| PublicVote.ApplyVoteVotes | burak-oylama-client/src/pages/public-vote/public-vote.tsx:113-120 | the total over all polls grows by the number of options carrying the voted id, so by exactly one when the id occurs once |
| PublicVote.NoMatchNoBump | burak-oylama-client/src/pages/public-vote/public-vote.tsx:115-119 | a poll without the voted id is unchanged |
| PublicVote.ApplyVoteAbsent | burak-oylama-client/src/pages/public-vote/public-vote.tsx:113-120 | voting for an id no option carries leaves the data unchanged |
| PublicVote.VoterName | burak-oylama-client/src/pages/public-vote/public-vote.tsx:106 | the trimmed answer when it is not blank, otherwise "Anonymous"; never empty and always trimmed |
| PublicVote.HandleVoteClick | burak-oylama-client/src/pages/public-vote/public-vote.tsx:102-128 | no request without data or vote id; the request carries the vote id, option id and voter name; a failure leaves the page unchanged and shows the alert "Failed to submit vote: " followed by the message, the only case with an alert; a success applies the increment, shows the details and clears the error |
| Color.HexColor | burak-oylama-client/src/pages/public-vote/public-vote.tsx:31 | seven characters, starting with "#"; the other six are hex digits whose value is the draw |
| Color.HexColorInjective | burak-oylama-client/src/pages/public-vote/public-vote.tsx:31 | two draws give the same colour exactly when they are equal |
| Color.HexColorExamples | burak-oylama-client/src/pages/user-votes/user-votes.tsx:33-34 | draw 255 gives "#0000ff" and draw 0 gives "#000000" |
| UserVotes.SelectedVote | burak-oylama-client/src/pages/user-votes/user-votes.tsx:113 | none when no id is selected or no poll has it; otherwise the first poll with that id |
| UserVotes.LoadVotes | burak-oylama-client/src/pages/user-votes/user-votes.tsx:99-111 | a truthy error is recorded and nothing else changes; otherwise the reply's polls replace the list, and when there is one the first poll becomes the selected poll; a reply with neither a truthy error nor data is `None`, the throw on `result.data.length` |
| UserVotes.UsersTotal | burak-oylama-client/src/pages/user-votes/user-votes.tsx:117 | the `reduce` total is at least every option's number of voters, and is 0 exactly when no option has a voter |
| UserVotes.TotalVotes | burak-oylama-client/src/pages/user-votes/user-votes.tsx:116-118 | 0 without a poll; with one, at least every option's number of voters, and 0 exactly when nobody voted |
| UserVotes.PieData | burak-oylama-client/src/pages/user-votes/user-votes.tsx:121-125 | one slice per option, same order, named after the option, valued at its number of voters; no slices without a poll |
| UserVotes.SlicesOfOptionsSum | burak-oylama-client/src/pages/user-votes/user-votes.tsx:116-125 | the slice values add up to the options' voter count |
| UserVotes.TotalIsPieSum | burak-oylama-client/src/pages/user-votes/user-votes.tsx:116-118 | totalVotes equals the sum of the pie values, and is 0 when no poll is selected |
| UserVotes.WinnerIndex | burak-oylama-client/src/pages/user-votes/user-votes.tsx:128 | the first slice holding all of a positive total, else -1; always -1 when the total is 0 |
| UserVotes.PairAtMostSum | burak-oylama-client/src/pages/user-votes/user-votes.tsx:116-118 | two different slices together hold no more than the total |
| UserVotes.OneAtMostSum | burak-oylama-client/src/pages/user-votes/user-votes.tsx:116-118 | no slice holds more than the total |
| UserVotes.WinnerTakesAll | burak-oylama-client/src/pages/user-votes/user-votes.tsx:128-129 | with a winner, every other slice is 0, so the winner is unique |
| UserVotes.HundredPercentWinnerIff | burak-oylama-client/src/pages/user-votes/user-votes.tsx:128-129 | `isHundredPercentWinner` holds exactly when some option's voters are all the poll's voters and there is at least one |
| UserVotes.DisplayedSlices | burak-oylama-client/src/pages/user-votes/user-votes.tsx:212-216 | just the winner's slice when there is a winner, else all slices |
| UserVotes.DisplayedSlicesKeepTotal | burak-oylama-client/src/pages/user-votes/user-votes.tsx:212-216 | the displayed slices still add up to the total |
| UserVotes.OtherOptions | burak-oylama-client/src/pages/user-votes/user-votes.tsx:244-246 | the options with the winner's position removed: n - 1 of them, in their original order |
| UserVotes.OthersHaveNoVoters | burak-oylama-client/src/pages/user-votes/user-votes.tsx:244-248 | beside a winner, every listed option is an option of the poll and has no voters, so "0 votes" is true |
| UserVotes.Results | burak-oylama-client/src/pages/user-votes/user-votes.tsx:186-259 | nothing selected, "No votes cast yet." exactly at total 0, or a chart whose slices add up to the positive total, whose slices and listed options together number the poll's options, and which lists options only beside a lone winner slice; the slices are exactly the displayed slices of the pie data (the winner's alone when there is one) and the listed options are exactly the other options beside a winner, none otherwise |
| UserVotes.SliceColors | burak-oylama-client/src/pages/user-votes/user-votes.tsx:132 | one colour per slice, each the encoding of that slice's draw |
| UserVotes.CellFills | burak-oylama-client/src/pages/user-votes/user-votes.tsx:226-234 | one fill per drawn slice; each drawn slice and its fill come from the same option (the winner's for the lone winner slice, otherwise the slice's own), so the winner keeps its own colour |
| UserVotes.VotesLabel | burak-oylama-client/src/pages/user-votes/user-votes.tsx:63 | the count, then " vote", then "s" exactly when the count is not 1 and nothing else (the length is fixed) |
| UserVotes.SliceLabel | burak-oylama-client/src/pages/user-votes/user-votes.tsx:222-224 | the slice name, ": ", then the vote count text |
| UserVotes.VotersFor | burak-oylama-client/src/pages/user-votes/user-votes.tsx:49-75 | the voter names of the first option with the slice's name when it has voters; otherwise nothing ("No voters yet.") |
| UserVotes.CustomTooltip | burak-oylama-client/src/pages/user-votes/user-votes.tsx:37-81 | shown exactly when active, with a payload and a selected poll; titled with the slice name, with its count text and the voters as above |
| UserVotes.TooltipNameShadowing | burak-oylama-client/src/pages/user-votes/user-votes.tsx:49 | an option that shares its name with an earlier option shows the earlier option's voters |
| AddVotePool.InitialOptions | burak-oylama-client/src/components/add-vote-pool.tsx:18-21 | two empty inputs with ids 1 and 2 |
| AddVotePool.AddOption | burak-oylama-client/src/components/add-vote-pool.tsx:23-25 | existing inputs untouched, one empty input appended, and sequential ids stay sequential |
| AddVotePool.UpdateOption | burak-oylama-client/src/components/add-vote-pool.tsx:27-31 | same length, order and ids; inputs with the id get the new text and the rest keep theirs |
| AddVotePool.UpdateOptionAt | burak-oylama-client/src/components/add-vote-pool.tsx:27-31 | with sequential ids an update changes exactly the input at position id - 1, or nothing when the id is out of range |
| AddVotePool.ReplayKeepsSequentialIds | burak-oylama-client/src/components/add-vote-pool.tsx:18-31 | after any sequence of adds and updates the ids are 1..n, and n is 2 plus the number of adds |
| AddVotePool.FilledValues | burak-oylama-client/src/components/add-vote-pool.tsx:43-51 | one entry per filled input, each non-empty and trimmed |
| AddVotePool.FilledValuesAppend | burak-oylama-client/src/components/add-vote-pool.tsx:43-51 | the filled values keep the inputs' order |
| AddVotePool.FilledValuesOne | burak-oylama-client/src/components/add-vote-pool.tsx:43-51 | one input contributes its trimmed text when filled and nothing when blank |
| AddVotePool.BuildVoteRequest | burak-oylama-client/src/components/add-vote-pool.tsx:35-53 | refuses a blank name first, then an empty end date, then fewer than two filled options, each exactly when its condition holds; otherwise the body has the trimmed name and the trimmed filled options in order, at least two and none empty |
| AddVotePool.ErrorMessage | burak-oylama-client/src/components/add-vote-pool.tsx:35-47 | the alert text of each refusal, a sentence starting with "Please " |
| AddVotePool.ErrorMessagesDistinct | burak-oylama-client/src/components/add-vote-pool.tsx:35-47 | two refusals show the same alert text exactly when they are the same refusal |
| AddVotePool.InitialFormNeedsOptions | burak-oylama-client/src/components/add-vote-pool.tsx:18-47 | the form as it opens is refused for too few options once a name and date are given |
| Text.Trim | burak-oylama-client/src/components/add-vote-pool.tsx:35 | the result is a contiguous piece of the input with only whitespace cut off on either side, and has no whitespace at its ends |
| Text.SkipStart | burak-oylama-client/src/components/add-vote-pool.tsx:35 | the characters skipped are whitespace and the first one kept is not |
| Text.SkipEnd | burak-oylama-client/src/components/add-vote-pool.tsx:35 | the trailing characters dropped are whitespace and the last one kept is not |
| Text.BlankIffAllWhitespace | burak-oylama-client/src/components/add-vote-pool.tsx:35 | a string trims to "" exactly when it is all whitespace |
| Text.TrimOfTrimmed | burak-oylama-client/src/components/add-vote-pool.tsx:50-51 | trimming a trimmed string changes nothing |
| Text.TrimIdempotent | burak-oylama-client/src/components/add-vote-pool.tsx:50-51 | trimming twice is trimming once |
| Text.NatToString | burak-oylama-client/src/pages/public-vote/public-vote.tsx:31 | a non-empty numeral in the radix, without leading zeros |
| Text.NatToStringRoundTrip | burak-oylama-client/src/pages/public-vote/public-vote.tsx:31 | reading the numeral back gives the number |
| Text.NatToStringLength | burak-oylama-client/src/pages/public-vote/public-vote.tsx:31 | a number below radix^k takes at most k digits |
| Text.PadStart | burak-oylama-client/src/pages/public-vote/public-vote.tsx:31 | the string left-padded to the width, or unchanged when already as wide |
| Text.LeadingZerosValue | burak-oylama-client/src/pages/public-vote/public-vote.tsx:31 | leading zeros do not change a numeral's value |
| Text.Decimal | burak-oylama-client/src/pages/public-vote/public-vote.tsx:45-49 | `${n}` for a natural: a non-empty decimal numeral |
| Text.DecimalRoundTrip | burak-oylama-client/src/pages/user-votes/user-votes.tsx:63 | reading `${n}` back as a decimal numeral gives n |
| Text.Join | burak-oylama-client/src/pages/public-vote/public-vote.tsx:51 | the text of no parts is empty; otherwise it ends with the last part |
| Text.SplitJoin | burak-oylama-client/src/pages/public-vote/public-vote.tsx:51 | splitting the join of separator-free parts at the separator gives the parts back |
| Collections.FindIndex | burak-oylama-client/src/pages/user-votes/user-votes.tsx:128 | the first index satisfying the predicate, or -1 when none does |
| Collections.Filter | burak-oylama-client/src/components/add-vote-pool.tsx:43 | no longer than the input; every element kept satisfies the predicate and comes from the input |
| Collections.FilterMembers | burak-oylama-client/src/components/add-vote-pool.tsx:43 | an element is kept exactly when it occurs and satisfies the predicate |
| Collections.FilterAppend | burak-oylama-client/src/components/add-vote-pool.tsx:43 | filtering a concatenation filters each side, keeping the order |
| Collections.RemoveIndex | burak-oylama-client/src/pages/user-votes/user-votes.tsx:245 | all elements but the one at the position, in order; the input itself when the position is out of range |
| Collections.Map | burak-oylama-client/src/pages/user-votes/user-votes.tsx:122-125 | one result per element, in the same order |

## Left out

- The service modules (`services/vote.tsx`, `services/sign.tsx`) are HTTP I/O and are not part of this model; their replies are parameters (`FetchResult`, `VoteOutcome`, `LoadResult`).
- The sign-in page, routing and bootstrap are presentation and navigation only.
- React state hooks, effects and the one-second `setInterval` that refreshes the countdown (public-vote.tsx:88-100) are event-loop scheduling. The handlers are modelled as functions or methods from the old state to the new one.
- `Date` parsing, `Date.now`, `toISOString` and `toLocaleString` are library and time-zone behaviour. The countdown takes the remaining milliseconds as an integer.
- AddVotePool.BuildVoteRequest: `lastValidDate` carries the raw end-date string rather than `new Date(endDate).toISOString()`, because date conversion is not modelled.
- `Math.random` and floating point: each draw `floor(random * 16777215)` is a natural below 16777215 passed in. The remaining time is whole milliseconds, so `Math.floor(ms / 1000)` is integer division; the two agree on positive inputs.
- Rendering is left out: recharts, `prompt`, the `alert` dialogs themselves (the form's three validation alerts are `ErrorMessage`, and the vote-failure alert of public-vote.tsx:126 is `ClickEffect.alert`; the logout-failure alert of user-votes.tsx:95 is not modelled), the clipboard link (`window.location`), CSS and the loading and error messages. The prompt's answer is an `Option<string>` parameter (`None` when the dialog is dismissed).
- Both flows after a request are left out, because they depend on unseen services:
  - the form's `createVote` call and its `onSubmit`/`onClose` callbacks;
  - the dashboard's logout.
- PublicVote.BuildColorMap: the colours of all draws (`Palette`) are computed before the loops, while the page calls `getRandomColor()` inside the inner loop. The draws are a parameter, so the k-th option visited still gets the colour of the k-th draw; the interleaving of the random calls with the writes is not modelled.
- UserVotes.LoadVotes: a reply with a falsy error (absent or "") and no data is `None`; the page first stores `undefined` as its poll list and then throws, and that broken state is not modelled.
- UserVotes.SliceColors: the dashboard draws a fresh colour array on every render (user-votes.tsx:132), so slice colours are not stable between renders. The model follows the code and takes the draws of one render as a parameter.
- UserVotes.VotersFor: the tooltip finds the option by name, not by id (user-votes.tsx:49), so options sharing a name show the first one's voters. The model keeps this behaviour, and `TooltipNameShadowing` states it.
