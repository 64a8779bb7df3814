# RNDMRoll, verified

A Dafny model of the four parts of RNDMRoll where a complicated piece of code has to agree with a
simple specification, on the server (Go) and on the phone (TypeScript), with proofs that it does.

- **The diary.** The server cuts one page out of a person's date-ordered list with a keyset cursor
  (`DiaryServer`, `DiaryRules`), read out of two tables (`DiaryReader`). The phone holds a growing
  copy of that list while reloads, next pages, failures, category and account changes overlap
  (`DiaryPhone`, its promises in `DiaryCache`, the hook itself in `DiaryHook`).
- **Comments.** The server threads rows into one list and keeps replies one level deep while people
  add and delete at once (`Threads`, `CommentStore`, `CommentText`). The phone patches its list and
  its count in place of asking again (`PostPhone`).
- **Refresh tokens.** A session is a chain of rotated tokens; refreshing, logging out and signing in
  are a few separate repository steps each, interleaved in any way, and a statement over several rows
  takes them one by one in the order of their ids (`RefreshTable`, `RefreshRuns`). `RefreshSessions` has
  the promises, `RefreshWaits` which calls can wait for each other, `RefreshService` the service.
- **The Board.** The server pages by posted date and groups cards by date (`BoardPages`); the phone
  joins pages (`BoardMerge`) while first pages supersede one another (`BoardPhone`).

Under them are real text formats: unpadded base64url of section 5 of RFC 4648 (`Base64`), Go's decimal
numbers (`Decimals`) and `YYYY-MM-DD` dates (`Dates`); the admin's signed session value
(`AdminSession`) is built on them.

## How it is put together

Code that changes state step by step is written twice: as methods of a class with the source's own
fields (`Diary`, `PostHook`, `BoardHook`, `Comments`, `TokenRepo`, `Service`), or as loops over lists,
and as functions of the state before. Every such method is proved equal to its function, and the
lemmas are about the functions. A run is a list of steps applied one after the other; everything that
is not decided by the code (who asks, when an answer lands, which list the server holds then) is in
the steps, so a statement about all lists of steps is a statement about every interleaving. A step
that cannot happen in a state leaves it as it is.

`dafny verify dfyconfig.toml` checks everything.

## Where the code and its description differ

- `components/diary/useDiary.ts:29` says `offline` only when nothing is on screen. With one account
  that is so (`DiaryCache.OfflineShowsNothing`). After a change of account whose first load fails, the
  first account's rows are still held under it, and coming back to that account shows them as offline
  (`DiaryCache.OfflineOverRows`); `DiaryCache.FailureCoversOthersRows` says exactly when.
  `components/board/useBoard.ts:13` says the same of the Board, and the same is so
  (`BoardPhone.OfflineShowsNothing`, `BoardPhone.FailureCoversOthersBoard`, `BoardPhone.OfflineOverBoard`).
- The comment count of a post (`components/board/usePost.ts:119-128`) goes up by one for every answer,
  also when a reload already brought the comment in, in which case the list does not grow.
  `PostPhone.AnswerKeepsCountTrue` says exactly when it stays true, `PostPhone.CountIsListAndDrift` by
  how much it is off in any run, and `PostPhone.OvertakenAnswerMiscounts` is such a run.
- A delete's answer that lands before the answer of an earlier reply to that comment leaves the phone
  with a reply that has nothing above it. `PostPhone.OrderOfAnswers` says exactly when the order
  matters, and `PostPhone.OrphanedReply` is such a run.
- `useBoard` (`components/board/useBoard.ts:106-111`) lets a next page be asked while a first page is on
  its way. What it holds is a prefix of the Board, its cursor included, in every run where that does
  not happen (`BoardPhone.HeldIsAlwaysPrefix`). `BoardPhone.AnswerIsPrefix` says exactly when it still
  is after a page that was asked of another state, and `BoardPhone.OvertakenPageLeavesGap` is a run in
  which it is not when the dates left out show a card (`BoardPhone.OvertakenIsPrefix`).
- A log out everywhere is said to end every session (`internal/auth/refresh.go:175-176`). It is one
  statement over the rows that were there when it began, so a session rotated while it runs goes on:
  `RefreshSessions.SweepEndsSession` says exactly which end, `RefreshSessions.EverywhereMissesRotation`
  is such a run.
- A password change is said to sign every other phone out (`internal/store/postgres/user_repo.go:237-241`),
  and revokes twice so that a refresh in flight does not survive it. One refreshed under each of the
  two does: `RefreshSessions.ReplacingEndsSession` says exactly which sessions end,
  `RefreshSessions.SurvivorRefreshedTwice` that no others go on, and
  `RefreshSessions.ReplacingMissesTwoRotations` is such a run.
- `internal/store/postgres/session_locks.go:3-21` says that taking rows in id order keeps any two calls
  from waiting for each other in a circle. A password change takes rows in order in each of its two
  revokes but not across them, and a walk takes rows in the order of the chain: only these go back in the
  order of ids (`RefreshWaits.OnlyTheseGoBack`), and they close circles in `RefreshWaits.ChangeMeetsSweep`
  and `RefreshWaits.WalkMeetsSweeps`. A call gets through exactly when its waits do not come into a circle
  (`RefreshWaits.StuckExactly`), and every circle has a log out everywhere on it
  (`RefreshWaits.EveryCircleHasSweep`). `RevokeAll` is called nowhere in the server outside its tests, so
  among the sign ins, refreshes, log outs, password changes and disablings of the server as it is the
  promise holds (`RefreshWaits.CallsGetThrough`).

## Model

| member | source | states |
|---|---|---|
| DiaryCache.CacheAgreesWithList | components/diary/useDiary.ts:109-183 | over an unchanging list, in every state any interleaving reaches, the rows held are the first n of the list of the category held, and the cursor is null exactly when n is all of it, else that of the n-th row |
| DiaryCache.NeverDoubled | components/diary/useDiary.ts:62-66 | whatever the server's lists do between answers, no key is held twice and rows stay newest first |
| DiaryCache.NothingMissed | components/diary/useDiary.ts:161-171 | a row listed at every answer is held once the cursor has reached its date, and always when there is no cursor |
| DiaryCache.BusyFlagsAreExact | components/diary/useDiary.ts:112-115 | in every state each flag is up exactly while a request of its kind with the current number is in flight, never both, and none is left up with nothing in flight |
| DiaryCache.SpinnersNeverStick | components/diary/useDiary.ts:142-180 | while the screen is there the list's spinner is up exactly while its flag is, never over a failed next page, and the pull spinner only while a pull is in flight |
| DiaryCache.NextPageFitsHeld | components/diary/useDiary.ts:150-171 | a next page that will be joined was asked with the cursor of the very list it will be joined to |
| DiaryCache.QuietReloadKeepsPlace | components/diary/useDiary.ts:119-134 | a quiet reload of an unchanging list keeps every row shown, up to 50 |
| DiaryCache.FirstPageShows | components/diary/useDiary.ts:109-134 | over an unchanging list a first page shows its first 20 rows, or as many as were shown, from 20 to 50, when it is a quiet reload of the same list; what was shown stays until it arrives |
| DiaryCache.MoreIsAskedExactly | components/diary/useDiary.ts:150-162 | in every run a next page is asked exactly when rows of this account and chip are shown, the server has more, nothing that counts is on its way, and no failed next page waits for a tap |
| DiaryCache.NextPageIsJoined | components/diary/useDiary.ts:163-171 | over any list every row of a next page that counts is held after it, below those that were held, and the chips and the cursor are the page's |
| DiaryCache.NextPageExtends | components/diary/useDiary.ts:162-171 | over an unchanging list it takes what is held from n rows to n + 20, or to the whole list with no cursor |
| DiaryCache.ScrollsToEnd | components/diary/useDiary.ts:109-171 | so scrolling on shows 20 more rows a page and ends with the whole list |
| DiaryCache.StatusIsExact | components/diary/useDiary.ts:116-141 | of each step: the status and the kind of failure said, exactly when each changes |
| DiaryCache.PullSpinnerIsExact | components/diary/useDiary.ts:115-144 | of each step: the pull spinner goes up with a pull and down with any pull that lands |
| DiaryCache.MoreFailedIsExact | components/diary/useDiary.ts:132-173 | of each step: the failed line under the list stands from when a next page that counts fails until one is asked again or a first page arrives |
| DiaryCache.OfflineShowsNothing | components/diary/useDiary.ts:135-141 | with one account the offline state never stands over rows of that account |
| DiaryCache.FailureCoversOthersRows | components/diary/useDiary.ts:135-141 | a failed first page turns rows a user is shown into an offline state exactly when it was another account's load |
| DiaryCache.OfflineOverRows | components/diary/useDiary.ts:28-30 | a run of two accounts that ends offline over rows of the first |
| DiaryCache.NothingChangesWhileGone | components/diary/useDiary.ts:92-137 | from when the screen goes until it is back no request, answer, failure or change of account touches the rows held or the failure said |
| DiaryPhone.RunKeeps | components/diary/useDiary.ts:85-183 | exact flags, next pages matching what is held, and sound rows are kept by every run over lists that may change between answers |
| DiaryPhone.StaleAnswerKeeps | components/diary/useDiary.ts:124 | an answer that no longer counts changes no rows, status or failure, and a superseded one no flag |
| DiaryPhone.KeyTells | components/diary/useDiary.ts:13-16 | two rows share a key exactly when they are one entry, or one skipped day, or an entry's id spells a skipped day's key |
| DiaryPhone.NextPageHeld | components/diary/useDiary.ts:164-171 | joining a page cut from a later state of the list leaves the rows distinct, ordered and missing nothing that was listed all along down to the new cursor |
| DiaryPhone.FirstPageHeld | components/diary/useDiary.ts:125-132 | a first page is everything listed down to its cursor |
| DiaryHook.Diary.LoadFirst | components/diary/useDiary.ts:109-123 | starting a first page is the step the runs are made of |
| DiaryHook.Diary.FetchMore | components/diary/useDiary.ts:150-162 | so is asking a next page, with its guards |
| DiaryHook.Diary.FirstLands | components/diary/useDiary.ts:123-145 | so is a first page's answer or failure |
| DiaryHook.Diary.MoreLands | components/diary/useDiary.ts:162-180 | so is a next page's answer or failure |
| DiaryHook.Diary.NotShown | components/diary/useDiary.ts:165-168 | the rows of a page whose key is not shown, in order |
| DiaryServer.ReadPage | internal/diary/service.go:36-79 | the page read with limit+1 rows and comments attached after the cut is the page of the list that had them all along, with the errors of a bad cursor before those of a bad limit |
| DiaryServer.RefusedExactly | internal/diary/service.go:36-44 | a page is refused for the cursor exactly when it is not read, and for the limit exactly when the cursor is and the limit is not 1 to 50 |
| DiaryServer.AnyCursorPages | internal/diary/service.go:37-45 | a cursor that is read as a day, however it is written, gives the page of that day's own |
| DiaryServer.SetSocial | internal/diary/service.go:54-73 | exactly the entries that have a comment count get it, that very count, in place, and nothing else moves |
| DiaryServer.PageKeepsList | internal/diary/service.go:45-53 | a page holds exactly the rows older than its cursor down to the next cursor's day; there is a next cursor exactly when older rows are left |
| DiaryServer.WalkNeverRepeats | internal/diary/service.go:36-53 | following cursors while rows come and go between pages never delivers a date twice, newest first |
| DiaryServer.WalkDeliversListed | internal/diary/service.go:36-53 | every row delivered was on the list when its page was cut |
| DiaryServer.WalkMissesNothing | internal/diary/service.go:36-53 | a finished walk delivered every date that was listed all along |
| DiaryServer.WalkIsWholeList | internal/diary/service.go:36-53 | on a list that does not change the pages of any limits put together are the list |
| DiaryServer.WalkFinishes | internal/diary/service.go:50-53 | every page moves the cursor to an older date, so a walk ends whatever changes |
| DiaryReader.Rows | internal/store/postgres/diary_repo.go:105-176 | entries and skipped days, each cut to the limit, then sorted by date text and cut again, are the newest rows of both together |
| DiaryReader.CutBeforeSort | internal/store/postgres/diary_repo.go:125-174 | cutting both parts before sorting loses none of the newest n |
| DiaryRules.DecodeOfEncodeCursor | internal/diary/rules.go:26-56 | a cursor made from any byte text is read back exactly when the text is a real date |
| DiaryRules.CursorRoundTrip | internal/diary/rules.go:26-56 | the cursor of every day, and of none, reads back as that day, and so passes the 64 character limit |
| DiaryRules.DecodesExactly | internal/diary/rules.go:32-56 | a text is read as a date exactly when it is at most 64 characters that decode to v1: and a real date, and the empty one as none; any other is a bad cursor |
| DiaryRules.AverageIsRounded | internal/diary/rules.go:76-83 | the tenths are the one t with 2 count t <= 10 sum + count < 2 count (t+1) |
| DiaryRules.AverageOfNone | internal/diary/rules.go:77-79 | nothing rated averages to 0 |
| DiaryRules.AverageInRange | internal/diary/rules.go:76-83 | stars of 1 to 10 average to 5 to 50 tenths |
| DiaryRules.AverageOfBoth | internal/diary/rules.go:76-83 | the average of two categories together lies between their averages |
| DiaryRules.WeekStreak | internal/diary/rules.go:85-108 | the loop ends, and m is at most its result exactly when all of m weeks, the last the current one when it is named and else the one before, are named; 0 when the current one is no date |
| DiaryRules.CurrentStreakIs | internal/diary/rules.go:99-107 | the streak the other rows speak of is that number |
| DiaryRules.StreakIsLargest | internal/diary/rules.go:102-107 | the streak is the largest n whose n weeks back are all present |
| DiaryRules.StreakOfSameWeeks | internal/diary/rules.go:89-94 | order, repeats and strings that are not dates do not matter |
| DiaryRules.CurrentWeekAddsOne | internal/diary/rules.go:99-107 | adding an absent current week adds exactly one |
| DiaryRules.StreakOfNewest | internal/diary/service.go:10-11 | reading only the newest weeks gives the true streak cut at their number |
| DiaryRules.SummaryStreak | internal/diary/service.go:110-118 | over stored weeks newest first and none past the current one the summary shows that number for all of them, or 520 when it is more |
| Dates.DaysBack | internal/diary/rules.go:100 | n days back is the real date n day numbers earlier |
| Dates.DayNumberOrders | internal/diary/rules.go:89-107 | day numbers order dates as year, month and day do, and no two dates share one |
| Dates.FormatOfParse | internal/diary/rules.go:91-92 | a text that reads as a date prints back as itself |
| Dates.FormatIsIso | internal/diary/rules.go:91-92 | a date prints as the digits of its year, month and day, four, two and two, between dashes |
| Dates.ParsesExactly | internal/diary/rules.go:91-95 | a text reads as a date exactly when it is that date's |
| Dates.DayTextOrders | internal/store/postgres/diary_repo.go:170 | date texts compare as their days do |
| Base64.DecodeOfEncode | internal/diary/rules.go:26-43 | every byte string decodes from its encoding |
| Base64.EncodeIsNumber | internal/diary/rules.go:26-28 | the places of the text's symbols in table 2 of RFC 4648, as a number in base 64, are the bytes in base 256, shifted by the unused bits of the last symbol |
| Base64.DecodesExactly | internal/diary/rules.go:39-42 | a text decodes exactly when all but its line breaks is in that table and no single symbol is left over |
| Base64.DecodeIsNumber | internal/auth/refresh.go:54-61 | what it decodes to has that number less the unused bits, whatever they are |
| Base64.EncodeInjective | internal/auth/refresh.go:44-55 | no two byte strings share an encoding |
| Decimals.ParseOfFormat | internal/httpapi/admin.go:229-243 | every 64-bit number reads back from its decimal text |
| Decimals.FormatIs | internal/httpapi/admin.go:229 | a number prints as its digits with no zero before them, after a minus when negative |
| Decimals.DigitOfTable | internal/httpapi/admin.go:229 | the digits are 0 to 9 in their order |
| Decimals.ParsesExactly | internal/httpapi/admin.go:242 | a text reads as a number exactly when it is digits that say it, after no sign or the one they need, and it fits 64 bits |
| Threads.BuildThread | internal/board/rules.go:54-73 | the two passes over the rows give the threaded list |
| Threads.InThreadList | internal/board/rules.go:49-53 | shown is exactly a top-level comment, or a reply whose top-level comment is there |
| Threads.ThreadIsPermutation | internal/board/rules.go:49-73 | the list is a permutation of those: none lost, none twice |
| Threads.TopsOfThread | internal/board/rules.go:49-53 | top-level comments keep their order |
| Threads.RepliesOfThread | internal/board/rules.go:49-53 | each comment's replies keep theirs |
| Threads.ThreadAround | internal/board/rules.go:65-71 | a comment's replies follow it directly, with nothing of its thread anywhere else |
| Threads.ThreadIsIdempotent | internal/board/rules.go:54-73 | threading a threaded list changes nothing |
| Threads.OneLevelDropsNothing | internal/board/rules.go:49-53 | when every reply's comment is there nothing is left out |
| Threads.RemoveCommutes | components/board/usePost.ts:151-161 | taking a comment and its replies out of the shown list is threading the rows without them |
| Threads.PlaceComment | components/board/usePost.ts:29-39 | the scan for the last of the thread finds the place |
| Threads.PlaceIs | components/board/usePost.ts:28-39 | in whatever list a new comment goes in once and moves nothing: after the last of the comment it answers and that one's replies, and at the end when nothing of it is listed |
| Threads.PlaceIsRebuild | components/board/usePost.ts:29-39 | placing a new comment in the shown list is threading all rows with it exactly when it is top-level or its comment is there |
| Threads.PlaceIsIdempotent | components/board/usePost.ts:29-39 | placing the same comment again changes nothing, whatever the list |
| CommentStore.RepliesAlwaysHaveTops | internal/board/service.go:355-440 | whatever checks, inserts, deletes and deleted posts interleave, every stored reply's parent is a stored top-level comment of its post |
| CommentStore.ReplyParentIs | internal/board/service.go:407-427 | a reply goes under the comment it answers, or under that one's own when that is a reply; not found exactly when the viewer is not shown it |
| CommentStore.ReplyParentIsTop | internal/board/service.go:407-427 | the parent chosen is a stored top-level comment of the same post |
| CommentStore.FindReplyParent | internal/board/service.go:411-427 | the search over the viewer's list finds it |
| CommentStore.ShownExactly | internal/board/service.go:298-306 | a viewer is shown exactly the post's comments they may see whose comment above, if they have one, they may see too |
| CommentStore.CheckedExactly | internal/board/service.go:355-383 | when exactly each answer of the checks comes, and what a request that passes goes on with |
| CommentStore.InsertedExactly | internal/store/postgres/board_repo.go:321-343 | when exactly each answer of the insert comes, and the one row it stores |
| CommentStore.StoredAsAsked | internal/board/service.go:359-396 | whatever comes between the checks and the insert, the comment stored is the request's: its post, writer, photo and cleaned text, under the comment it answers or that one's own |
| CommentStore.UnblockedViewerSeesAll | internal/board/service.go:298-306 | in every run a viewer with no one blocked is shown every comment of the post once |
| CommentStore.Comments.BeginAdd | internal/board/service.go:359-383 | AddComment up to its insert, its errors in their order |
| CommentStore.Comments.FinishAdd | internal/store/postgres/board_repo.go:321-343 | the insert, its refusals in their order: a photo a post uses, a photo another comment uses, a post or parent that went away |
| CommentStore.Comments.BeginDelete | internal/board/service.go:429-438 | only the writer or the post's owner may go on to the delete |
| CommentStore.Comments.FinishDelete | internal/store/postgres/board_repo.go:372-406 | the replies go with the comment; one that went meanwhile is not found |
| CommentStore.DeleteAllowedExactly | internal/board/service.go:431-438 | a delete goes on exactly when the comment is there and its writer or the post's owner asks |
| CommentStore.AllowedDeleteIsDone | internal/board/service.go:429-440 | such a delete is done whatever comes between: neither the comment nor a reply to it is left, and every other comment stays |
| CommentStore.OnlyAllowedDeletes | internal/board/service.go:429-440 | in every run a comment goes only with its post, by an admin, or in a delete its viewer may do, of itself or of the comment it answers, though anything may happen between check and delete |
| CommentText.CleanComment | internal/board/rules.go:26-47 | the scan accepts or refuses as the rule says, for plain comments and photo comments |
| CommentText.CleanIs | internal/board/rules.go:26-47 | an accepted text is the stretch of the one sent, line breaks joined, that is left without the spaces around it, and each refusal comes exactly for an empty, a too long and a control character in that stretch |
| CommentText.TrimIsLongest | internal/board/rules.go:28 | no longer stretch neither starts nor ends with a space |
| CommentText.SpacesAre | internal/board/rules.go:28 | the spaces cut are the White_Space characters of Unicode |
| CommentText.JoinsAt | internal/board/rules.go:27 | wherever a return stands before a line feed the two are one line feed, and all before and after is joined on its own |
| CommentText.NothingToJoin | internal/board/rules.go:27 | a text with none is left as it is |
| CommentText.AcceptedIsFixed | internal/board/rules.go:13-47 | an accepted text is trimmed, short and plain, and is accepted again as it is |
| CommentText.ReturnsDoNotMatter | internal/board/rules.go:27 | a text gives the same answer whichever way its line breaks are written |
| PostPhone.CountIsListAndDrift | components/board/usePost.ts:119-161 | over every run of loads, comments and deletes the count is the list's length plus the comments saved again under an id already listed |
| PostPhone.AnswerKeepsCountTrue | components/board/usePost.ts:119-128 | a comment's answer keeps the count true exactly when the comment is not listed yet |
| PostPhone.DeleteKeepsCountTrue | components/board/usePost.ts:152-161 | a delete's answer always does |
| PostPhone.OvertakenAnswerMiscounts | components/board/usePost.ts:112-128 | a run in which a reload overtakes the comment's answer and the count is two for one comment |
| PostPhone.PatchedIsServed | components/board/usePost.ts:112-161 | patching list and count, edit by edit in the server's order, is being served the edited rows anew |
| PostPhone.OrderOfAnswers | components/board/usePost.ts:119-161 | a delete's answer that lands before the comment's leaves the same list and count exactly when the delete is of neither the comment nor the one it answers; otherwise the comment stays, and a reply stays without the comment it answers |
| PostPhone.OrphanedReply | components/board/usePost.ts:112-161 | a run that ends with the reply alone on the screen, counted as one, where the server has none |
| PostPhone.SendsAreExact | components/board/usePost.ts:112-141 | in every run at most one comment is on its way, and the flag is up exactly then |
| PostPhone.LaterChoiceStays | components/board/usePost.ts:117-136 | a reply chosen while a comment is on its way outlives that comment's answer or failure |
| PostPhone.ReplyEnds | components/board/usePost.ts:105-129 | when no other was chosen since it was sent, none is chosen after a reply is saved, whatever else came between |
| PostPhone.ReplyIsExact | components/board/usePost.ts:103-158 | of each step: the reply chosen, exactly when it changes: a tap, Cancel, the answer to the comment sent with it, its comment deleted |
| PostPhone.SendsExactly | components/board/usePost.ts:112-119 | in every run a tap sends exactly when there is something to send, a post is shown and no comment is on its way, with the reply chosen then |
| PostPhone.PostIsExact | components/board/usePost.ts:72-161 | of each step: the post shown is the one a read that counts brings, none when it is not found, and the patched one after a comment or a delete |
| PostPhone.WithoutIs | components/board/usePost.ts:152-161 | a delete takes out the comment and its replies and lowers the count by as many as were listed, not below 0 |
| PostPhone.CountIs | components/board/usePost.ts:121-126 | the count is the one sent, or the length of the list when none was sent |
| PostPhone.StatusIsExact | components/board/usePost.ts:73-95 | of each step: the status and the kind of failure said, exactly when each changes |
| PostPhone.ReadsExactly | components/board/usePost.ts:131-136 | the post is read on focus, and after a comment refused because comments are off or because what it answers is gone, and only then |
| PostPhone.PostHook.LoadPost | components/board/usePost.ts:72-81 | starting a load is the step the runs are made of |
| PostPhone.PostHook.PostLands | components/board/usePost.ts:81-95 | so is its answer: shown, gone, kept or offline |
| PostPhone.PostHook.SendComment | components/board/usePost.ts:112-119 | so is sending a comment |
| PostPhone.PostHook.CommentLands | components/board/usePost.ts:119-141 | so is its answer or failure, with the reload a failure asks for |
| PostPhone.PostHook.DeleteLands | components/board/usePost.ts:149-166 | so is a delete's |
| RefreshSessions.RacingRefreshes | internal/auth/refresh.go:111-146 | of two refreshes of one token, interleaved in any way with any other calls, at most one gets a token, and once both are answered no token of the session is live, however often the winner rotated within the cap |
| RefreshSessions.RefusalEndsSession | internal/auth/refresh.go:148-173 | a refused refresh or a log out leaves no live token in the session of a token at most cap rotations old |
| RefreshSessions.NoTokenRedeemedTwice | internal/auth/refresh.go:111-112 | in no run do two calls redeem one token |
| RefreshSessions.GrantKeepsExpiry | internal/auth/refresh.go:119-146 | in every run the token a refresh got belongs to the person whose token it presented and keeps the digest and expiry that refresh gave it |
| RefreshSessions.StoresOnly | internal/store/postgres/refresh_token_repo.go:79-92 | a step stores one row at most, at the end: a sign in's, a refresh's with its owner, digest and expiry, or the one a password change ends with |
| RefreshSessions.ChangesOnly | internal/store/postgres/refresh_token_repo.go:84-94 | a row that a step changes was live and is revoked by a rotation, a walk or a sweep that reaches it, and nothing else about it changes but a rotation's link |
| RefreshSessions.OverForGood | internal/auth/refresh.go:111-118 | a session with no live token never has one again |
| RefreshSessions.SessionsAreLines | internal/store/postgres/refresh_token_repo.go:55-110 | in every run rotation links form lines that never meet, and a session's one live token is its last |
| RefreshSessions.WalkTouchesItsSession | internal/store/postgres/refresh_token_repo.go:126-181 | a walk changes only the last token of its own session, and nothing when its token is too old or the session is over |
| RefreshSessions.EverywhereEnds | internal/auth/refresh.go:175-179 | after a log out everywhere no token that was there when it began is ever live |
| RefreshSessions.SweepEndsSession | internal/store/postgres/session_locks.go:22-25 | it ends a session exactly when the session was over or its last token was there when it began |
| RefreshSessions.EverywhereMissesRotation | internal/auth/refresh.go:175-179 | a run in which a session rotated during a log out everywhere goes on |
| RefreshSessions.ReplacingLeaves | internal/store/postgres/user_repo.go:244-304 | as a password change ends, the person's live tokens are its own and those stored since its second revoke began |
| RefreshSessions.ReplacingEndsSession | internal/store/postgres/user_repo.go:244-304 | it ends a session exactly when the session was over or was not rotated since the second revoke began |
| RefreshSessions.SurvivorRefreshedTwice | internal/store/postgres/user_repo.go:244-250 | in every run a session from before a password change outlives it only if it was refreshed while the first revoke ran and again after the second began |
| RefreshSessions.ReplacingMissesTwoRotations | internal/store/postgres/user_repo.go:244-250 | a run in which a session so refreshed goes on beside the new one |
| RefreshSessions.AloneIsReplace | internal/store/postgres/user_repo.go:274-304 | a password change with no other call's step between its own, whichever those are, does nothing until it ends, and then has revoked every token of the person and stored its own |
| RefreshSessions.AloneIsRevokeAll | internal/auth/refresh.go:175-179 | a log out everywhere alone does nothing until it ends, and then has revoked every token of the person |
| RefreshRuns.RunKeeps | internal/auth/refresh.go:119-179 | every run keeps the chain invariant and each call's account of what it saw, and only ever grows and revokes |
| RefreshRuns.EveryCallFinishes | internal/store/postgres/refresh_token_repo.go:118-181 | whatever comes between its steps, a refresh or a log out takes at most cap + 3 of its own, a revoke of several rows at most one for each and one more, and no call goes back to an earlier stage |
| RefreshWaits.MovesExactly | internal/store/postgres/session_locks.go:19-21 | a call that is not answered can move exactly when no other call holds the row it wants next |
| RefreshWaits.StuckExactly | internal/store/postgres/session_locks.go:3-10 | in every run, following the waits of a call that is not answered comes to a call that can move exactly when it does not come into a circle |
| RefreshWaits.CircleGoesBack | internal/store/postgres/session_locks.go:19-21 | on every circle some call holds a row whose id does not sort below that of the row it wants |
| RefreshWaits.OnlyTheseGoBack | internal/store/postgres/user_repo.go:285-297 | in every run a call that does so is a password change in its second revoke, or a walk that holds a token it passed |
| RefreshWaits.EveryCircleHasSweep | internal/store/postgres/session_locks.go:3-21 | in every run each circle has a log out everywhere on it |
| RefreshWaits.CallsGetThrough | internal/store/postgres/session_locks.go:3-21 | in every run without a log out everywhere the waits of each call that is not answered lead to one that can move |
| RefreshWaits.ChangeMeetsSweep | internal/store/postgres/user_repo.go:285-297 | a run that ends in a circle: a password change holds an old token and wants one signed in since, whose id sorts first, and a log out everywhere holds that and wants the old one |
| RefreshWaits.WalkMeetsSweeps | internal/store/postgres/refresh_token_repo.go:161-178 | another, of a log out that passed a rotated token and two logs out everywhere |
| RefreshSessions.AloneIsRedeem | internal/auth/refresh.go:119-157 | a refresh with no other call's step between its own leaves the table and gives the answer Redeem does |
| RefreshSessions.AloneIsRevoke | internal/auth/refresh.go:164-173 | a log out alone leaves the table Revoke does |
| RefreshTable.EndByHashIs | internal/user/repository.go:94-101 | a known token ends its session exactly when it is at most cap rotations old or the session was over, with an error exactly when nothing live was ended, and no other session changes |
| RefreshTable.ChainIsLine | internal/store/postgres/refresh_token_repo.go:55-60 | of two tokens of a session the older leads to the newer |
| RefreshTable.OneLiveToken | internal/store/postgres/refresh_token_repo.go:55-58 | a live token is the end of its session |
| RefreshTable.DeadStays | internal/store/postgres/refresh_token_repo.go:84-94 | no later table adds to or revives a session that is over |
| RefreshTable.SweepLeaves | internal/store/postgres/session_locks.go:22-25 | after a sweep a person's live tokens are the live ones stored since it began |
| RefreshTable.TokenRepo.InsertToken | internal/store/postgres/refresh_token_repo.go:25-32 | a new row, or a failure when the digest is taken |
| RefreshTable.TokenRepo.RotateToken | internal/store/postgres/refresh_token_repo.go:61-110 | the old row revoked and linked and the new one stored, or nothing |
| RefreshTable.TokenRepo.RevokeByHash | internal/store/postgres/refresh_token_repo.go:137-181 | the walk that finds the end and the walk that holds it together end the session of a token within the cap |
| RefreshTable.TokenRepo.RevokeAllForUser | internal/store/postgres/refresh_token_repo.go:183-188 | every token of the person is revoked and no other |
| RefreshService.RedeemTakes | internal/auth/refresh.go:119-146 | a token is taken exactly when it is stored, live at the check and at the rotation and within its time, and the new digest is new; it lapses exactly when it is live past its time |
| RefreshService.RefusalEndsSession | internal/auth/refresh.go:111-157 | a known token is refused exactly when it was no longer live at the check or by the rotation, and the refusal ends its session exactly when the token is within the cap or the session was over |
| RefreshService.SecondUseEndsBoth | internal/auth/refresh.go:111-118 | the second use of a token is refused and its successor is refused after it |
| RefreshService.UnknownChangesNothing | internal/auth/refresh.go:116-128 | an unknown or malformed token is refused and changes nothing |
| RefreshService.MalformedIsRefused | internal/auth/refresh.go:48-61 | a text that does not decode is refused and changes nothing, whatever digests are stored |
| RefreshService.LapseChangesNothing | internal/auth/refresh.go:126-141 | a token that lapsed, or a new one that could not be stored, leaves the table as it is |
| RefreshService.IssuedIsRedeemable | internal/auth/refresh.go:63-77 | an issued token is taken for its owner up to its expiry and lapses after it |
| RefreshService.GrantedRowIs | internal/auth/refresh.go:134-146 | the row a refresh stores is the owner's, with the new digest, live until ttl after that refresh |
| RefreshService.GrantedIsRedeemable | internal/auth/refresh.go:101-146 | the token a refresh hands out is taken for the same owner exactly up to ttl after that refresh, and lapses after it |
| RefreshService.ReplacedIsRedeemable | internal/auth/refresh.go:79-99 | so is the one token a password change leaves, up to the expiry it was given |
| RefreshService.PresentedIsStored | internal/auth/refresh.go:36-61 | a token handed out is looked up by the digest that was stored |
| RefreshService.Service.Issue | internal/auth/refresh.go:67-77 | the digest is stored and the raw token returned with its id, or nothing |
| RefreshService.Service.IssueInTransaction | internal/auth/refresh.go:87-99 | whatever persist does, the raw token is returned exactly when it stored the digest, and on an error or a cancelled request nothing changed |
| RefreshService.ReplaceAllLeavesOne | internal/auth/refresh.go:79-86 | with a password change alone as persist, the token handed out is the account's one live token |
| RefreshService.Service.RedeemToken | internal/auth/refresh.go:119-146 | the calls of Redeem, with other calls between the check and the rotation, are its specification |
| RefreshService.Service.Revoke | internal/auth/refresh.go:164-173 | a log out ends the session of the token presented and tolerates a miss |
| RefreshService.Service.RevokeAll | internal/auth/refresh.go:175-179 | alone, it revokes every token of the person and no other |
| BoardMerge.JoinDays | components/board/useBoard.ts:30-43 | the nested loops join the pages |
| BoardMerge.MergeIsUnion | components/board/useBoard.ts:29-43 | the joined list is the ordered union: shown days with their new cards after their own, then the days not shown |
| BoardMerge.MergeKeepsShown | components/board/useBoard.ts:29-43 | whatever arrives, what is shown stays in place: dates, labels and each day's cards are prefixes |
| BoardMerge.MergeKeepsProper | components/board/useBoard.ts:29-43 | no date and no entry of a day is there twice |
| BoardMerge.MergeIsIdempotent | components/board/useBoard.ts:29-43 | the same page again changes nothing, whatever the lists |
| BoardMerge.MergeAssociates | components/board/useBoard.ts:29-43 | pages may be joined to each other first, when the middle one's dates differ |
| BoardPages.ReadBoard | internal/board/service.go:112-186 | the map and the loops give the page: dates cut at the limit, each with its cards, empty ones dropped |
| BoardPages.PageListsExactly | internal/board/service.go:150-184 | a page lists a date exactly when it is posted, not past the day in play, older than the cursor, among the newest limit of those, and has a card to show |
| BoardPages.CursorIsExact | internal/board/service.go:154-158 | its cursor is a date exactly when that is the last of the newest limit and an older one is left |
| BoardPages.PageAfter | internal/board/service.go:150-158 | the page after the first n dates lists the next ones and its cursor stands where it ends |
| BoardPages.PagedIsUnpaged | internal/board/service.go:150-185 | following next_before to its end with any limits and joining the pages is the Board of all dates grouped at once |
| BoardPages.WalkFinishes | internal/board/service.go:154-158 | a walk of as many pages as there are dates has come to its end |
| BoardPages.NoCardLost | internal/board/service.go:166-184 | a finished walk holds every visible card of a listed date once, in the order read |
| BoardPages.CardsOnWalk | internal/store/postgres/board_repo.go:98-104 | a card is on a finished walk exactly when the viewer follows someone, may see it, and its date is posted and not past the day in play; it stands on its date, labelled today or yesterday exactly when that is so |
| BoardPages.LabelsFall | internal/board/rules.go:90-101 | today can only be the first day listed and yesterday the first or second, and today is the day in play |
| BoardPhone.HeldIsAlwaysPrefix | components/board/useBoard.ts:79-131 | in every run in which no next page is asked over a first page that counts, the Board held is that of its first n dates with the cursor there |
| BoardPhone.BusyIsExact | components/board/useBoard.ts:106-130 | in every run, raced or not, the flag is up exactly while a next page with the current number is in flight |
| BoardPhone.SpinnersNeverStick | components/board/useBoard.ts:79-131 | while the screen is there the list's spinner is up exactly while its flag is, never over a failed next page, and the pull spinner only while a pull is in flight |
| BoardPhone.FirstPageIs | components/board/useBoard.ts:79-92 | a first page that counts shows the first five dates, or all, whatever was held, which stays until then |
| BoardPhone.MoreIsAskedExactly | components/board/useBoard.ts:106-115 | in every run a next page is asked exactly when a Board of this account with more to come is held and no next page that counts is on its way |
| BoardPhone.NextPageExtends | components/board/useBoard.ts:115-122 | a next page that counts, asked where the held Board ends, takes it from n dates to n + 5, or to all |
| BoardPhone.ScrollsToEnd | components/board/useBoard.ts:79-122 | so scrolling on shows five more dates a page and ends with the whole Board and no cursor |
| BoardPhone.StatusIsExact | components/board/useBoard.ts:86-138 | of each step: the status and the kind of failure said, exactly when each changes |
| BoardPhone.PullSpinnerIsExact | components/board/useBoard.ts:85-100 | of each step: the pull spinner goes up with a pull and down with any pull that lands |
| BoardPhone.MoreFailedIsExact | components/board/useBoard.ts:91-124 | of each step: the failed line under the Board stands from when a next page that counts fails until one is asked again or a first page arrives |
| BoardPhone.JoinIsPrefix | components/board/useBoard.ts:115-122 | a page asked after the first m dates and joined to the Board of the first n is a prefix again, cursor included, exactly when the dates missed show no card: those between the two, or those the cursor falls back over |
| BoardPhone.AnswerIsPrefix | components/board/useBoard.ts:115-122 | so of the hook: a next page's answer leaves a prefix held exactly under that condition on what is held and where the page was asked |
| BoardPhone.NothingMissed | components/board/useBoard.ts:106-122 | over Boards that change between answers, in every such run a card visible at every answer on a date posted at every answer is held once the cursor has reached its date, and always when there is no cursor |
| BoardPhone.OfflineShowsNothing | components/board/useBoard.ts:93-101 | with one account the offline state never stands over that account's Board |
| BoardPhone.FailureCoversOthersBoard | components/board/useBoard.ts:93-101 | a failed first page turns a Board that is held into an offline state exactly when it was another account's load |
| BoardPhone.OfflineOverBoard | components/board/useBoard.ts:133-139 | a run of two accounts that ends offline over the Board of the first |
| BoardPhone.NeverDoubled | components/board/useBoard.ts:29-43 | whatever the Boards do between answers and however requests race, no date and no entry of a day is held twice |
| BoardPhone.OvertakenPageLeavesGap | components/board/useBoard.ts:80-122 | the run in which a reload lands under a next page: days one to five and eleven to fifteen are held |
| BoardPhone.OvertakenIsPrefix | components/board/useBoard.ts:80-122 | what is held then is a prefix exactly when dates six to ten show no card |
| BoardPhone.BoardHook.LoadFirst | components/board/useBoard.ts:79-88 | starting a first page is the step the runs are made of |
| BoardPhone.BoardHook.LoadMore | components/board/useBoard.ts:106-115 | so is asking a next page |
| BoardPhone.BoardHook.FirstLands | components/board/useBoard.ts:88-101 | so is a first page's answer or failure |
| BoardPhone.BoardHook.MoreLands | components/board/useBoard.ts:115-130 | so is a next page's, joined to what is held by then |
| AdminSession.SessionLastsEightHours | internal/httpapi/admin.go:228-249 | a session value names its account exactly while the clock's second is before that of its making plus 28800, eight hours, whatever the nanoseconds |
| AdminSession.AcceptedIsSigned | internal/httpapi/admin.go:233-249 | a value that is accepted is a dot-free id and second, signed, and the second is still to come |
| AdminSession.ReadOfSigned | internal/httpapi/admin.go:233-249 | every signed pair of dot-free parts reads as its id until its second |
| AdminSession.ChangedIsRefused | internal/httpapi/admin.go:222-249 | when no two texts share a keyed hash, a session's signature is refused with any other id or second before it |
| AdminSession.JoinOfSplit | internal/httpapi/admin.go:235 | the parts of a value have no dots and join back to it |

## Left out

- Screens, navigation, React effects and re-rendering, HTTP routing, JSON views, configuration: plumbing around the logic modelled here.
- SHA-256, HMAC and randomness are parameters; a new token's bytes are given, and a digest that is already stored is the repository's own failure.
- The admin id's text form is a parameter that reads back and has no dot, as a UUID's does.
- Push tokens that move with a rotated token, user agents.
- Accounts that are deleted: the schema takes their comments and tokens with them, and no code deletes one.
- A repository failure that reaches the caller after its transaction committed: a failing step fails before it changes the table.
- The clock of RefreshRuns only goes forward, in whole ticks, and is one for all calls.
- RefreshRuns: a call's updates show to other calls when it ends, and until then the rows it took stay locked. Of the tables with an order among them only refresh_tokens is modelled: the account's own row is there as changes of one account following each other, a change refused because the account is gone or disabled as a change that fails, and password_resets and push_tokens not at all.
- RefreshWaits.CallsGetThrough: without the saving and deleting of push tokens, which follow a session's chain as a log out does and hold its rows shared.
- RefreshRuns: Postgres ends one call of a circle; a call that fails may do so at any time.
- RefreshRuns: disabling an account (`internal/store/postgres/admin_repo.go:195-233`) is a change that stores no token of its own.
- RefreshRuns: a refresh that waits for such a row waits before it inserts; the source inserts first, which no other call can see.
- RefreshSessions.AloneIsRedeem: like AloneIsRevoke, from a state in which no call holds a row, since this one could wait for it.
- DiaryRules.AverageIsRounded: over unbounded integers and sums of at least 0; 64-bit overflow would take about 10^17 entries.
- The diary's one row a date and its keys that never move to another date are taken from the reader's contract, not from the tables.
- Chips, tastes, recent entries, followers and the zone of the profile summary: single reads.
- Comments come in the order they were stored; the creation time that orders them is not modelled. Whether a comment is hidden or its writer blocked is the set of ids a viewer is shown.
- A comment's photo is the name of its file; uploading it and removing its file afterwards are not modelled.
- The trimming and the 140 limit of comments are over characters, one for each code point.
- Board dates are day numbers, with the same order and text as the diary's; the locked state's names and count are not modelled, and a card is its id, date and title.
- BoardMerge.JoinDays: works on values, so a page with the same date twice is not seen to change in place.
- BoardPhone.HeldIsAlwaysPrefix: only for runs in which no next page is asked while a first page is on its way, because the others break it.
- The person page's list, which pages by entry id.
- Board state, first names, limits and small helpers: easy members.
